/** Submissions and expiries of word rounds in every interleaving of their steps: a
    submission reads first and claims later, an expiry moves the round first and
    reads again afterwards, and in between the race may be deleted, the race of another
    battle may be stored in its place, and the room goes on living. */
module WordSubmission {
  import opened Sequences
  import opened Text
  import opened Domain
  import opened WordRounds
  import RoomService
  import RoomEvents
  import RoomInvariant
  import BattleRun
  import Scoring

  // ----- the verdict on a typed text -----

  datatype Verdict = Correct | Incorrect | TooLate | Rejected(error: ErrorCode)

  predicate Matches(fold: Fold, text: string, word: string) {
    Lower(fold, Trim(text)) == word
  }

  function Judge(fold: Fold, round: WordRound, participantIds: seq<Id>, playerId: Id, text: string, now: int): (v: Verdict)
    ensures v == Correct <==>
              && playerId in participantIds && round.status != Scheduled && round.status != Expired
              && now < round.closesAt && Matches(fold, text, round.word)
    ensures v == Incorrect ==> playerId in participantIds && now < round.closesAt && !Matches(fold, text, round.word)
    ensures v == TooLate <==>
              playerId in participantIds && round.status != Scheduled && (now >= round.closesAt || round.status == Expired)
    ensures v.Rejected? <==> playerId !in participantIds || round.status == Scheduled
    ensures v.Rejected? ==> v.error == if playerId !in participantIds then NOT_CHALLENGE_PARTICIPANT else WORD_ROUND_NOT_OPEN
  {
    if playerId !in participantIds then Rejected(NOT_CHALLENGE_PARTICIPANT)
    else if round.status == Scheduled then Rejected(WORD_ROUND_NOT_OPEN)
    else if round.status == Expired || now >= round.closesAt then TooLate
    else if Matches(fold, text, round.word) then Correct
    else Incorrect
  }

  /** White space around the word and the case of its letters do not matter, everything else does. */
  lemma WordAsTyped(fold: Fold, before: string, typed: string, after: string, word: string)
    requires AllSpace(before) && AllSpace(after) && Trimmed(typed)
    ensures Matches(fold, before + typed + after, word) <==> Lower(fold, typed) == word
  {
    TrimOfPadded(before + typed + after, before, typed, after);
  }

  // ----- the protocol -----

  datatype Outcome = Late | Wrong | Over

  /** Where a submission or an expiry stands. `Ended` means that its own compare-and-set took effect. */
  datatype Stage =
    | Ready
    | Judged(now: int)
    | Missed
    | Ended
    | Paid(accepted: bool)
    | Announced(accepted: bool)
    | Unannounced
    | Answered(outcome: Outcome, at: int)
    | Failed(error: ErrorCode)
    | Settled

  datatype Task =
    | Submission(playerId: Id, roundId: Id, text: string, stage: Stage)
    | Expiry(roundId: Id, stage: Stage)

  /** What is stored under the code of the room: the race followed here, the race of another
      battle, whose rounds have other ids, or none. */
  datatype Stored = Own | Another | Nothing

  /** The race, planned and later saved, as last stored; what is stored now; the room as
      stored; the bonuses its updates accepted from this race and from others; and the
      rounds announced as over. */
  datatype State = State(race: WordRace, saved: bool, stored: Stored, tasks: seq<Task>, room: Option<Room>,
                         paid: map<Id, nat>, others: map<Id, nat>, announced: seq<Id>)

  datatype Action =
    | Show(roundId: Id)
    | Read(task: nat, now: int)
    | Claim(task: nat)
    | Pay(task: nat)
    | Announce(task: nat)
    | Expire(task: nat, now: int)
    | Reread(task: nat)
    | Save
    | SaveAnother
    | Delete
    | CreateRoom(id: Id, displayName: string, code: string, createdAt: int)
    | RoomActs(event: RoomEvents.Event)

  predicate OfTask(a: Action) {
    a.Read? || a.Claim? || a.Pay? || a.Announce? || a.Expire? || a.Reread?
  }

  function At(s: State, i: nat, stage: Stage): State
    requires i < |s.tasks|
  {
    s.(tasks := s.tasks[i := s.tasks[i].(stage := stage)])
  }

  /** The first read of a submission, and its verdict. */
  function ReadStage(fold: Fold, s: State, t: Task, now: int): Stage
    requires t.Submission?
  {
    if s.stored.Nothing? then Failed(WORD_RACE_NOT_ACTIVE)
    else if s.stored.Another? then Failed(WORD_ROUND_NOT_OPEN)
    else
      match FindRound(s.race.rounds, t.roundId)
      case None => Failed(WORD_ROUND_NOT_OPEN)
      case Some(round) =>
        match Judge(fold, round, s.race.participantIds, t.playerId, t.text, now)
        case Correct => Judged(now)
        case Incorrect => Answered(Wrong, now)
        case TooLate => Answered(Over, now)
        case Rejected(error) => Failed(error)
  }

  predicate ExpiredMeanwhile(round: WordRound, now: int) {
    round.status == Expired || (round.winnerId.None? && now >= round.closesAt)
  }

  /** A claim that did not take effect, classified by the round it met. */
  function LostClaim(round: WordRound, now: int): Stage {
    if ExpiredMeanwhile(round, now) then Answered(Over, now) else Answered(Late, now)
  }

  /** The room and the books of the bonuses are as they were. */
  predicate NothingPaid(s: State, n: State) { n.room == s.room && n.paid == s.paid && n.others == s.others }

  function ClaimStep(s: State, i: nat): (n: State)
    requires i < |s.tasks| && s.tasks[i].Submission? && s.tasks[i].stage.Judged?
    ensures NothingPaid(s, n)
  {
    var t := s.tasks[i];
    var op := ClaimRound(t.roundId, t.playerId, t.stage.now);
    var round := FindRound(s.race.rounds, t.roundId);
    if !s.stored.Own? || round.None? then At(s, i, Failed(WORD_RACE_NOT_ACTIVE))
    else if Succeeds(s.race, op) then At(s.(race := Apply(s.race, op)), i, Ended)
    else At(s, i, LostClaim(round.value, t.stage.now))
  }

  function ExpireStep(s: State, i: nat, now: int): (n: State)
    requires i < |s.tasks|
    ensures NothingPaid(s, n)
  {
    var op := ExpireRound(s.tasks[i].roundId, now);
    if s.stored.Own? && Succeeds(s.race, op) then At(s.(race := Apply(s.race, op)), i, Ended) else At(s, i, Missed)
  }

  /** After the compare-and-set of an expiry the race is read again: an expired round is
      announced if there is one at all, and a round still open is tried again. */
  function RereadStep(s: State, i: nat): (n: State)
    requires i < |s.tasks|
    ensures NothingPaid(s, n)
  {
    var t := s.tasks[i];
    var round := FindRound(s.race.rounds, t.roundId);
    if t.stage.Ended? then
      if !s.stored.Nothing? then At(s.(announced := s.announced + [t.roundId]), i, Announced(false)) else At(s, i, Unannounced)
    else if s.stored.Own? && round.Some? && round.value.status == WordRounds.Open then At(s, i, Ready)
    else At(s, i, Settled)
  }

  predicate BonusAccepted(room: Option<Room>, p: Id) {
    room.Some? && RoomService.AwardWordBonus(room.value, p).Changed?
  }

  function AfterBonus(room: Room, p: Id): Option<Room> {
    RoomEvents.RowAfter(room, RoomService.AwardWordBonus(room, p))
  }

  /** An update of the room; a bonus among them is one of another race. */
  function RoomStep(fold: Fold, s: State, e: RoomEvents.Event): State {
    if s.room.None? then s
    else s.(room := RoomEvents.Next(fold, s.room.value, e),
            others := if e.AwardWordBonus? && BonusAccepted(s.room, e.id) then OneMoreWin(s.others, e.id) else s.others)
  }

  /** The winner's bonus as one update of the room. A room that is gone, or a battle that
      is over or that the winner left, refuses it, and the round ends without a bonus. */
  function PaymentStep(s: State, i: nat): State
    requires i < |s.tasks| && s.tasks[i].Submission?
  {
    var p := s.tasks[i].playerId;
    if BonusAccepted(s.room, p) then At(s.(room := AfterBonus(s.room.value, p), paid := OneMoreWin(s.paid, p)), i, Paid(true))
    else At(s, i, Paid(false))
  }

  /** One step of one task; a step that is not its turn changes nothing. */
  function TaskStep(fold: Fold, s: State, a: Action): (n: State)
    requires OfTask(a) && a.task < |s.tasks|
    ensures |n.tasks| == |s.tasks|
    ensures forall i :: 0 <= i < |s.tasks| && i != a.task ==> n.tasks[i] == s.tasks[i]
    ensures !a.Pay? ==> NothingPaid(s, n)
  {
    var i, t := a.task, s.tasks[a.task];
    match a
    case Read(_, now) => if t.Submission? && t.stage.Ready? then At(s, i, ReadStage(fold, s, t, now)) else s
    case Claim(_) => if t.Submission? && t.stage.Judged? then ClaimStep(s, i) else s
    case Pay(_) => if t.Submission? && t.stage.Ended? then PaymentStep(s, i) else s
    case Announce(_) =>
      if t.Submission? && t.stage.Paid? then At(s.(announced := s.announced + [t.roundId]), i, Announced(t.stage.accepted)) else s
    case Expire(_, now) => if t.Expiry? && t.stage.Ready? then ExpireStep(s, i, now) else s
    case Reread(_) => if t.Expiry? && (t.stage.Ended? || t.stage.Missed?) then RereadStep(s, i) else s
  }

  /** What the scheduler, other battles and the room do. */
  function WorldStep(fold: Fold, s: State, a: Action): (n: State)
    requires !OfTask(a)
    ensures n.tasks == s.tasks
  {
    match a
    case Show(roundId) => if s.stored.Own? then s.(race := Apply(s.race, OpenRound(roundId))) else s
    case Save => if s.saved then s else s.(saved := true, stored := Own)
    case SaveAnother => s.(stored := Another)
    case Delete => s.(stored := Nothing)
    case CreateRoom(id, displayName, code, createdAt) =>
      if Creates(s, a) then s.(room := Some(RoomService.Create(id, displayName, code, createdAt).room)) else s
    case RoomActs(e) => RoomStep(fold, s, e)
  }

  /** A room is made under the code again, after the one before was deleted. */
  predicate Creates(s: State, a: Action) {
    a.CreateRoom? && s.room.None? && RoomService.Create(a.id, a.displayName, a.code, a.createdAt).Changed?
  }

  function Step(fold: Fold, s: State, a: Action): (n: State)
    ensures |n.tasks| == |s.tasks|
  {
    if !OfTask(a) then WorldStep(fold, s, a)
    else if a.task < |s.tasks| then TaskStep(fold, s, a)
    else s
  }

  function Perform(fold: Fold, s: State, actions: seq<Action>): State
    decreases |actions|
  {
    if actions == [] then s else Perform(fold, Step(fold, s, actions[0]), actions[1..])
  }

  /** A race just planned for the battle its room runs, with submissions and expiries that
      have not begun. Whatever words the battle's table holds are bonuses of other races. */
  ghost predicate Begins(fold: Fold, s: State) {
    && Fresh(s.race) && Distinct(RoundIds(s.race.rounds)) && !s.saved && !s.stored.Own?
    && (forall i :: 0 <= i < |s.tasks| ==> s.tasks[i].stage.Ready?)
    && s.paid == map[] && s.announced == []
    && s.room.Some? && RoomInvariant.Inv(fold, s.room.value) && s.room.value.status == Battling
    && s.room.value.battle.value.id == s.race.battleId
    && forall p :: WordsInRoom(s.room, p) == WinsOf(s.others, p)
  }

  /** The words the stored battle credits a player with. */
  function WordsInRoom(room: Option<Room>, p: Id): nat {
    if room.Some? && room.value.battle.Some? then Scoring.WordsWonBy(room.value.battle.value, p) else 0
  }

  /** The words in the battle's table are among the bonuses paid. */
  ghost predicate Credits(fold: Fold, room: Option<Room>, paid: map<Id, nat>, others: map<Id, nat>) {
    && (room.Some? ==> RoomInvariant.Inv(fold, room.value))
    && forall p :: WordsInRoom(room, p) <= WinsOf(paid, p) + WinsOf(others, p)
  }

  // ----- counting tasks -----

  function CountIf(tasks: seq<Task>, f: Task -> bool): nat {
    if tasks == [] then 0 else Count(f(tasks[0])) + CountIf(tasks[1..], f)
  }

  lemma {:induction false} CountAfter(tasks: seq<Task>, i: nat, t: Task, f: Task -> bool)
    requires i < |tasks|
    ensures CountIf(tasks[i := t], f) == CountIf(tasks, f) - Count(f(tasks[i])) + Count(f(t))
  {
    if i > 0 {
      CountAfter(tasks[1..], i - 1, t, f);
      assert tasks[i := t][1..] == tasks[1..][i - 1 := t];
    } else {
      assert tasks[i := t][1..] == tasks[1..];
    }
  }

  lemma {:induction false} CountNone(tasks: seq<Task>, f: Task -> bool)
    requires forall i :: 0 <= i < |tasks| ==> !f(tasks[i])
    ensures CountIf(tasks, f) == 0
  {
    if tasks != [] {
      CountNone(tasks[1..], f);
    }
  }

  lemma {:induction false} CountLess(tasks: seq<Task>, f: Task -> bool, g: Task -> bool)
    requires forall t :: f(t) ==> g(t)
    ensures CountIf(tasks, f) <= CountIf(tasks, g)
  {
    if tasks != [] {
      CountLess(tasks[1..], f, g);
    }
  }

  lemma {:induction false} CountSplits(tasks: seq<Task>, whole: Task -> bool, a: Task -> bool, b: Task -> bool, c: Task -> bool)
    requires forall t :: Count(whole(t)) == Count(a(t)) + Count(b(t)) + Count(c(t))
    ensures CountIf(tasks, whole) == CountIf(tasks, a) + CountIf(tasks, b) + CountIf(tasks, c)
  {
    if tasks != [] {
      CountSplits(tasks[1..], whole, a, b, c);
    }
  }

  /** The task whose compare-and-set ended a round. */
  predicate Owns(t: Task) {
    t.stage.Ended? || t.stage.Paid? || t.stage.Announced? || t.stage.Unannounced?
  }

  function EndedBy(roundId: Id): Task -> bool { (t: Task) => Owns(t) && t.roundId == roundId }

  function ToldBy(roundId: Id): Task -> bool { (t: Task) => t.stage.Announced? && t.roundId == roundId }

  function DueBy(roundId: Id): Task -> bool { (t: Task) => (t.stage.Ended? || t.stage.Paid?) && t.roundId == roundId }

  function SilentBy(roundId: Id): Task -> bool { (t: Task) => t.stage.Unannounced? && t.roundId == roundId }

  function WonFor(playerId: Id): Task -> bool { (t: Task) => t.Submission? && Owns(t) && t.playerId == playerId }

  function PaidFor(playerId: Id): Task -> bool {
    (t: Task) => t.Submission? && t.playerId == playerId
                 && ((t.stage.Paid? && t.stage.accepted) || (t.stage.Announced? && t.stage.accepted))
  }

  // ----- the invariant -----

  /** What a task was told is true of the stored round. */
  ghost predicate Truthful(fold: Fold, race: WordRace, t: Task) {
    var round := FindRound(race.rounds, t.roundId);
    && (t.Submission? && (t.stage.Judged? || Owns(t)) ==>
          t.playerId in race.participantIds && round.Some? && Matches(fold, t.text, round.value.word))
    && (t.Submission? && t.stage.Judged? ==>
          round.value.status != Scheduled && t.stage.now < round.value.closesAt)
    && (t.Submission? && Owns(t) ==>
          round.value.status == Won && round.value.winnerId == Some(t.playerId) && !t.stage.Unannounced?)
    && (t.Expiry? && Owns(t) ==> round.Some? && round.value.status == Expired && !t.stage.Paid?)
    && (t.Expiry? ==> !t.stage.Judged? && !t.stage.Answered?)
    && (t.stage.Answered? ==>
          && t.playerId in race.participantIds && round.Some?
          && (t.stage.outcome == Late ==>
                round.value.status == Won && round.value.winnerId.Some? && Matches(fold, t.text, round.value.word))
          && (t.stage.outcome == Wrong ==> !Matches(fold, t.text, round.value.word) && t.stage.at < round.value.closesAt)
          && (t.stage.outcome == Over ==> t.stage.at >= round.value.closesAt || round.value.status == Expired))
  }

  ghost predicate EndsCounted(rounds: seq<WordRound>, tasks: seq<Task>) {
    forall k :: 0 <= k < |rounds| ==> CountIf(tasks, EndedBy(rounds[k].id)) == Count(WordRounds.Ended(rounds[k].status))
  }

  ghost predicate TellsCounted(announced: seq<Id>, tasks: seq<Task>) {
    forall id :: multiset(announced)[id] == CountIf(tasks, ToldBy(id))
  }

  ghost predicate WinsCounted(rounds: seq<WordRound>, tasks: seq<Task>) {
    forall p :: CountIf(tasks, WonFor(p)) == RoundsWonBy(rounds, p)
  }

  ghost predicate PaymentsCounted(paid: map<Id, nat>, tasks: seq<Task>) {
    forall p :: WinsOf(paid, p) == CountIf(tasks, PaidFor(p))
  }

  ghost predicate AllTruthful(fold: Fold, race: WordRace, tasks: seq<Task>) {
    forall i :: 0 <= i < |tasks| ==> Truthful(fold, race, tasks[i])
  }

  ghost predicate Inv(fold: Fold, s: State) {
    && RaceInv(s.race) && AllTruthful(fold, s.race, s.tasks)
    && EndsCounted(s.race.rounds, s.tasks) && TellsCounted(s.announced, s.tasks)
    && WinsCounted(s.race.rounds, s.tasks) && PaymentsCounted(s.paid, s.tasks)
    && Credits(fold, s.room, s.paid, s.others)
  }

  lemma NothingCounted(race: WordRace, tasks: seq<Task>)
    requires Fresh(race) && forall i :: 0 <= i < |tasks| ==> tasks[i].stage.Ready?
    ensures EndsCounted(race.rounds, tasks) && TellsCounted([], tasks)
    ensures WinsCounted(race.rounds, tasks) && PaymentsCounted(map[], tasks)
  {
    forall k | 0 <= k < |race.rounds| ensures CountIf(tasks, EndedBy(race.rounds[k].id)) == 0 {
      CountNone(tasks, EndedBy(race.rounds[k].id));
    }
    forall id ensures CountIf(tasks, ToldBy(id)) == 0 {
      CountNone(tasks, ToldBy(id));
    }
    forall p ensures CountIf(tasks, WonFor(p)) == 0 == RoundsWonBy(race.rounds, p) {
      CountNone(tasks, WonFor(p));
      NothingWon(race.rounds, p);
    }
    forall p ensures CountIf(tasks, PaidFor(p)) == 0 {
      CountNone(tasks, PaidFor(p));
    }
  }

  lemma NothingTold(fold: Fold, race: WordRace, tasks: seq<Task>)
    requires forall i :: 0 <= i < |tasks| ==> tasks[i].stage.Ready?
    ensures AllTruthful(fold, race, tasks)
  {
  }

  lemma BeginsHolds(fold: Fold, s: State)
    requires Begins(fold, s)
    ensures Inv(fold, s)
  {
    FreshRaceInv(s.race);
    NothingCounted(s.race, s.tasks);
    NothingTold(fold, s.race, s.tasks);
  }

  // ----- a task that goes on without touching the race -----

  predicate Credited(t: Task) {
    t.Submission? && ((t.stage.Paid? && t.stage.accepted) || (t.stage.Announced? && t.stage.accepted))
  }

  lemma EndsStay(rounds: seq<WordRound>, tasks: seq<Task>, i: nat, t: Task)
    requires EndsCounted(rounds, tasks) && i < |tasks| && t.roundId == tasks[i].roundId && Owns(t) == Owns(tasks[i])
    ensures EndsCounted(rounds, tasks[i := t])
  {
    forall k | 0 <= k < |rounds| ensures CountIf(tasks[i := t], EndedBy(rounds[k].id)) == CountIf(tasks, EndedBy(rounds[k].id)) {
      CountAfter(tasks, i, t, EndedBy(rounds[k].id));
    }
  }

  lemma TellsStay(announced: seq<Id>, tasks: seq<Task>, i: nat, t: Task)
    requires TellsCounted(announced, tasks) && i < |tasks| && !t.stage.Announced? && !tasks[i].stage.Announced?
    ensures TellsCounted(announced, tasks[i := t])
  {
    forall id ensures CountIf(tasks[i := t], ToldBy(id)) == CountIf(tasks, ToldBy(id)) {
      CountAfter(tasks, i, t, ToldBy(id));
    }
  }

  lemma WinsStay(rounds: seq<WordRound>, tasks: seq<Task>, i: nat, t: Task)
    requires WinsCounted(rounds, tasks) && i < |tasks| && t == tasks[i].(stage := t.stage) && Owns(t) == Owns(tasks[i])
    ensures WinsCounted(rounds, tasks[i := t])
  {
    forall p ensures CountIf(tasks[i := t], WonFor(p)) == CountIf(tasks, WonFor(p)) {
      CountAfter(tasks, i, t, WonFor(p));
    }
  }

  lemma PaymentsStay(paid: map<Id, nat>, tasks: seq<Task>, i: nat, t: Task)
    requires PaymentsCounted(paid, tasks) && i < |tasks| && t == tasks[i].(stage := t.stage) && Credited(t) == Credited(tasks[i])
    ensures PaymentsCounted(paid, tasks[i := t])
  {
    forall p ensures CountIf(tasks[i := t], PaidFor(p)) == CountIf(tasks, PaidFor(p)) {
      CountAfter(tasks, i, t, PaidFor(p));
    }
  }

  lemma TruthStays(fold: Fold, race: WordRace, tasks: seq<Task>, i: nat, t: Task)
    requires AllTruthful(fold, race, tasks) && i < |tasks| && Truthful(fold, race, t)
    ensures AllTruthful(fold, race, tasks[i := t])
  {
  }

  /** A task that neither ends a round nor tells of one. */
  lemma QuietStep(fold: Fold, s: State, i: nat, stage: Stage)
    requires Inv(fold, s) && i < |s.tasks| && !Owns(s.tasks[i]) && !Owns(s.tasks[i].(stage := stage))
    requires Truthful(fold, s.race, s.tasks[i].(stage := stage))
    ensures Inv(fold, At(s, i, stage))
  {
    var t := s.tasks[i].(stage := stage);
    TruthStays(fold, s.race, s.tasks, i, t);
    EndsStay(s.race.rounds, s.tasks, i, t);
    TellsStay(s.announced, s.tasks, i, t);
    WinsStay(s.race.rounds, s.tasks, i, t);
    PaymentsStay(s.paid, s.tasks, i, t);
  }

  /** A task that owns its round keeps telling the truth while it goes on. */
  lemma OwnersStayTruthful(fold: Fold, race: WordRace, t: Task, stage: Stage)
    requires Truthful(fold, race, t) && Owns(t) && Owns(t.(stage := stage))
    requires stage.Unannounced? ==> t.Expiry?
    requires stage.Paid? ==> t.Submission?
    ensures Truthful(fold, race, t.(stage := stage))
  {
  }

  lemma TellIsCounted(announced: seq<Id>, tasks: seq<Task>, i: nat, t: Task)
    requires TellsCounted(announced, tasks) && i < |tasks| && !tasks[i].stage.Announced? && t.stage.Announced?
    ensures TellsCounted(announced + [t.roundId], tasks[i := t])
  {
    forall id ensures multiset(announced + [t.roundId])[id] == CountIf(tasks[i := t], ToldBy(id)) {
      CountAfter(tasks, i, t, ToldBy(id));
      assert multiset(announced)[id] == CountIf(tasks, ToldBy(id));
    }
  }

  lemma PaymentIsCounted(paid: map<Id, nat>, tasks: seq<Task>, i: nat, t: Task)
    requires PaymentsCounted(paid, tasks) && i < |tasks| && t.Submission? && t == tasks[i].(stage := t.stage)
    requires !Credited(tasks[i]) && Credited(t)
    ensures PaymentsCounted(OneMoreWin(paid, t.playerId), tasks[i := t])
  {
    var after := OneMoreWin(paid, t.playerId);
    forall p ensures WinsOf(after, p) == CountIf(tasks[i := t], PaidFor(p)) {
      CountAfter(tasks, i, t, PaidFor(p));
      assert WinsOf(paid, p) == CountIf(tasks, PaidFor(p));
    }
  }

  /** A task that tells of the round it ended. */
  lemma TellStep(fold: Fold, s: State, i: nat, accepted: bool)
    requires Inv(fold, s) && i < |s.tasks| && Owns(s.tasks[i]) && !s.tasks[i].stage.Announced?
    requires s.tasks[i].Submission? ==> s.tasks[i].stage == Paid(accepted)
    ensures Inv(fold, At(s.(announced := s.announced + [s.tasks[i].roundId]), i, Announced(accepted)))
  {
    var t := s.tasks[i].(stage := Announced(accepted));
    assert Truthful(fold, s.race, s.tasks[i]);
    OwnersStayTruthful(fold, s.race, s.tasks[i], Announced(accepted));
    TruthStays(fold, s.race, s.tasks, i, t);
    EndsStay(s.race.rounds, s.tasks, i, t);
    TellIsCounted(s.announced, s.tasks, i, t);
    WinsStay(s.race.rounds, s.tasks, i, t);
    PaymentsStay(s.paid, s.tasks, i, t);
  }

  /** No event but a bonus adds a word to a battle's table: a battle that goes on keeps
      its words, and a new one starts without any. */
  lemma WordsOnlyByBonus(fold: Fold, r: Room, e: RoomEvents.Event)
    requires RoomInvariant.Inv(fold, r) && !e.AwardWordBonus?
    ensures var n := RoomEvents.Next(fold, r, e);
            n.Some? && n.value.battle.Some? ==>
              forall p :: Scoring.WordsWonBy(n.value.battle.value, p)
                          == if r.battle.Some? then Scoring.WordsWonBy(r.battle.value, p) else 0
  {
    RoomInvariant.NextKeeps(fold, r, e);
    match r.status
    case Waiting => BattleRun.LobbyStep(fold, r, e);
    case Battling => BattleRun.RunningStep(fold, r, e);
    case Finished => BattleRun.FinishedStep(fold, r, e);
  }

  lemma BonusIsAnUpdate(fold: Fold, r: Room, p: Id)
    ensures RoomEvents.Next(fold, r, RoomEvents.AwardWordBonus(p)) == AfterBonus(r, p)
  {
    RoomEvents.NextCommits(fold, r, RoomEvents.AwardWordBonus(p));
    assert RoomEvents.Mutate(fold, r, RoomEvents.AwardWordBonus(p)) == RoomService.AwardWordBonus(r, p);
  }

  /** An accepted bonus is one word more for the winner, in the room's own table. */
  lemma BonusIsOneWord(r: Room, p: Id)
    requires BonusAccepted(Some(r), p)
    ensures var n := AfterBonus(r, p);
            && n.Some? && r.battle.Some? && n.value.battle.Some?
            && forall id :: Scoring.WordsWonBy(n.value.battle.value, id)
                            == Scoring.WordsWonBy(r.battle.value, id) + (if id == p then 1 else 0)
  {
  }

  lemma BonusIsCredited(fold: Fold, room: Option<Room>, p: Id)
    requires BonusAccepted(room, p) && RoomInvariant.Inv(fold, room.value)
    ensures var n := AfterBonus(room.value, p);
            && (n.Some? ==> RoomInvariant.Inv(fold, n.value))
            && forall id :: WordsInRoom(n, id) == WordsInRoom(room, id) + (if id == p then 1 else 0)
  {
    RoomInvariant.NextKeeps(fold, room.value, RoomEvents.AwardWordBonus(p));
    BonusIsAnUpdate(fold, room.value, p);
    BonusIsOneWord(room.value, p);
  }

  /** No other update adds a word: a battle that goes on keeps its words, and a new one
      starts without any. */
  lemma UpdateAddsNoWord(fold: Fold, r: Room, e: RoomEvents.Event)
    requires RoomInvariant.Inv(fold, r) && !e.AwardWordBonus?
    ensures var n := RoomEvents.Next(fold, r, e);
            && (n.Some? ==> RoomInvariant.Inv(fold, n.value))
            && forall p :: WordsInRoom(n, p) == if NoBattle(n) then 0 else WordsInRoom(Some(r), p)
  {
    RoomInvariant.NextKeeps(fold, r, e);
    WordsOnlyByBonus(fold, r, e);
  }

  predicate NoBattle(room: Option<Room>) { room.None? || room.value.battle.None? }

  lemma UpdateIsCredited(fold: Fold, s: State, e: RoomEvents.Event)
    requires Credits(fold, s.room, s.paid, s.others) && s.room.Some? && !e.AwardWordBonus?
    ensures Credits(fold, RoomEvents.Next(fold, s.room.value, e), s.paid, s.others)
  {
    UpdateAddsNoWord(fold, s.room.value, e);
  }

  lemma OthersBonusIsCredited(fold: Fold, s: State, p: Id)
    requires Credits(fold, s.room, s.paid, s.others) && BonusAccepted(s.room, p)
    ensures Credits(fold, RoomEvents.Next(fold, s.room.value, RoomEvents.AwardWordBonus(p)), s.paid, OneMoreWin(s.others, p))
  {
    BonusIsAnUpdate(fold, s.room.value, p);
    BonusIsCredited(fold, s.room, p);
  }

  lemma RefusedBonusIsNothing(fold: Fold, r: Room, p: Id)
    requires !BonusAccepted(Some(r), p)
    ensures RoomEvents.Next(fold, r, RoomEvents.AwardWordBonus(p)) == Some(r)
  {
    BonusIsAnUpdate(fold, r, p);
  }

  /** A step of the world changes the room alone, or neither the room nor the books. */
  ghost predicate KeepsBooks(s: State, n: State) {
    n.race == s.race && n.tasks == s.tasks && n.paid == s.paid && n.announced == s.announced
  }

  lemma UpdateStepCredits(fold: Fold, s: State, e: RoomEvents.Event)
    requires Credits(fold, s.room, s.paid, s.others) && s.room.Some? && !e.AwardWordBonus?
    ensures var n := RoomStep(fold, s, e); Credits(fold, n.room, n.paid, n.others) && KeepsBooks(s, n)
  {
    UpdateIsCredited(fold, s, e);
  }

  lemma BonusStepCredits(fold: Fold, s: State, p: Id)
    requires Credits(fold, s.room, s.paid, s.others) && s.room.Some?
    ensures var n := RoomStep(fold, s, RoomEvents.AwardWordBonus(p)); Credits(fold, n.room, n.paid, n.others) && KeepsBooks(s, n)
  {
    if BonusAccepted(s.room, p) {
      OthersBonusIsCredited(fold, s, p);
    } else {
      RefusedBonusIsNothing(fold, s.room.value, p);
    }
  }

  lemma RoomStepCredits(fold: Fold, s: State, e: RoomEvents.Event)
    requires Credits(fold, s.room, s.paid, s.others)
    ensures var n := RoomStep(fold, s, e); Credits(fold, n.room, n.paid, n.others) && KeepsBooks(s, n)
  {
    if s.room.Some? {
      if e.AwardWordBonus? { BonusStepCredits(fold, s, e.id); } else { UpdateStepCredits(fold, s, e); }
    }
  }

  lemma CreatedIsCredited(fold: Fold, s: State, a: Action)
    requires Creates(s, a)
    ensures Credits(fold, Some(RoomService.Create(a.id, a.displayName, a.code, a.createdAt).room), s.paid, s.others)
  {
    RoomInvariant.CreateEstablishes(fold, a.id, a.displayName, a.code, a.createdAt);
  }

  lemma BooksHold(fold: Fold, s: State, n: State)
    requires Inv(fold, s) && KeepsBooks(s, n) && Credits(fold, n.room, n.paid, n.others)
    ensures Inv(fold, n)
  {
  }

  lemma WorldStepKeeps(fold: Fold, s: State, a: Action)
    requires Inv(fold, s) && !OfTask(a)
    ensures Inv(fold, WorldStep(fold, s, a))
  {
    if a.Show? {
      if s.stored.Own? { OpenStep(fold, s, a.roundId); }
    } else {
      if a.RoomActs? {
        RoomStepCredits(fold, s, a.event);
      } else if Creates(s, a) {
        CreatedIsCredited(fold, s, a);
      }
      BooksHold(fold, s, WorldStep(fold, s, a));
    }
  }

  lemma PaymentKeeps(fold: Fold, s: State, i: nat)
    requires Inv(fold, s) && i < |s.tasks| && s.tasks[i].Submission? && s.tasks[i].stage.Ended?
    ensures Inv(fold, PaymentStep(s, i))
  {
    var accepted := BonusAccepted(s.room, s.tasks[i].playerId);
    var t := s.tasks[i].(stage := Paid(accepted));
    assert Truthful(fold, s.race, s.tasks[i]);
    OwnersStayTruthful(fold, s.race, s.tasks[i], Paid(accepted));
    TruthStays(fold, s.race, s.tasks, i, t);
    EndsStay(s.race.rounds, s.tasks, i, t);
    TellsStay(s.announced, s.tasks, i, t);
    WinsStay(s.race.rounds, s.tasks, i, t);
    if accepted {
      PaymentIsCounted(s.paid, s.tasks, i, t);
      BonusIsCredited(fold, s.room, t.playerId);
    } else {
      PaymentsStay(s.paid, s.tasks, i, t);
    }
  }

  /** An expiry that finds the race gone. */
  lemma SilentStep(fold: Fold, s: State, i: nat)
    requires Inv(fold, s) && i < |s.tasks| && s.tasks[i].Expiry? && s.tasks[i].stage.Ended?
    ensures Inv(fold, At(s, i, Unannounced))
  {
    var t := Expiry(s.tasks[i].roundId, Unannounced);
    assert Truthful(fold, s.race, s.tasks[i]);
    OwnersStayTruthful(fold, s.race, s.tasks[i], Unannounced);
    TruthStays(fold, s.race, s.tasks, i, t);
    EndsStay(s.race.rounds, s.tasks, i, t);
    TellsStay(s.announced, s.tasks, i, t);
    WinsStay(s.race.rounds, s.tasks, i, t);
    PaymentsStay(s.paid, s.tasks, i, t);
  }

  // ----- a task that moves a round -----

  /** Every round found before is found after, moved at most along its one direction. */
  lemma FoundAdvances(race: WordRace, op: Op, roundId: Id)
    requires RaceInv(race)
    ensures var before, after := FindRound(race.rounds, roundId), FindRound(Apply(race, op).rounds, roundId);
            && (before.Some? <==> after.Some?)
            && (before.Some? ==> Advances(before.value, after.value))
            && (before.Some? && Succeeds(race, op) && op.roundId == roundId ==> after.value == Moved(before.value, op))
            && Apply(race, op).participantIds == race.participantIds
  {
    OneRoundMoves(race, op);
    ApplyKeeps(race, op);
    var n := Apply(race, op);
    assert RoundIds(n.rounds) == RoundIds(race.rounds);
    if FindRound(race.rounds, roundId).Some? {
      var j := RoundIndex(race.rounds, roundId);
      var k := RoundIndex(n.rounds, roundId);
      assert RoundIds(race.rounds)[j] == RoundIds(race.rounds)[k];
      if Succeeds(race, op) && op.roundId == roundId {
        var m := SuccessReplacesOne(race, op);
        assert RoundIds(race.rounds)[m] == RoundIds(race.rounds)[j];
      }
    }
  }

  /** What was told of a round stays true when rounds move on. */
  lemma TruthLasts(fold: Fold, race: WordRace, op: Op, t: Task)
    requires RaceInv(race) && Truthful(fold, race, t)
    ensures Truthful(fold, Apply(race, op), t)
  {
    FoundAdvances(race, op, t.roundId);
  }

  lemma AllTruthLasts(fold: Fold, race: WordRace, op: Op, tasks: seq<Task>)
    requires RaceInv(race) && AllTruthful(fold, race, tasks)
    ensures AllTruthful(fold, Apply(race, op), tasks)
  {
    forall i | 0 <= i < |tasks| ensures Truthful(fold, Apply(race, op), tasks[i]) {
      TruthLasts(fold, race, op, tasks[i]);
    }
  }

  /** Opening a round ends none. */
  lemma OpeningEndsNothing(race: WordRace, roundId: Id, tasks: seq<Task>)
    requires RaceInv(race) && EndsCounted(race.rounds, tasks) && WinsCounted(race.rounds, tasks)
    ensures var n := Apply(race, OpenRound(roundId)); EndsCounted(n.rounds, tasks) && WinsCounted(n.rounds, tasks)
  {
    var n := Apply(race, OpenRound(roundId));
    OneRoundMoves(race, OpenRound(roundId));
    ApplyKeeps(race, OpenRound(roundId));
    forall k | 0 <= k < |n.rounds| ensures Count(WordRounds.Ended(n.rounds[k].status)) == Count(WordRounds.Ended(race.rounds[k].status)) {
      StatusAfter(race, OpenRound(roundId), k);
    }
    forall p ensures RoundsWonBy(n.rounds, p) == RoundsWonBy(race.rounds, p) {
      assert WinsOf(n.wins, p) == WinsOf(race.wins, p);
    }
  }

  lemma OpenStep(fold: Fold, s: State, roundId: Id)
    requires Inv(fold, s)
    ensures Inv(fold, s.(race := Apply(s.race, OpenRound(roundId))))
  {
    ApplyKeeps(s.race, OpenRound(roundId));
    AllTruthLasts(fold, s.race, OpenRound(roundId), s.tasks);
    OpeningEndsNothing(s.race, roundId, s.tasks);
  }

  /** The compare-and-set of a claim or an expiry takes effect. */
  ghost predicate EndsRound(race: WordRace, t: Task, op: Op) {
    && !Owns(t) && op.roundId == t.roundId && Succeeds(race, op)
    && (if t.Submission? then op.ClaimRound? && op.playerId == t.playerId else op.ExpireRound?)
  }

  lemma EndIsCounted(race: WordRace, tasks: seq<Task>, i: nat, op: Op)
    requires RaceInv(race) && EndsCounted(race.rounds, tasks) && i < |tasks| && EndsRound(race, tasks[i], op)
    ensures EndsCounted(Apply(race, op).rounds, tasks[i := tasks[i].(stage := Ended)])
  {
    var n := Apply(race, op);
    OneRoundMoves(race, op);
    forall k | 0 <= k < |n.rounds|
      ensures CountIf(tasks[i := tasks[i].(stage := Ended)], EndedBy(n.rounds[k].id)) == Count(WordRounds.Ended(n.rounds[k].status))
    {
      StatusAfter(race, op, k);
      assert n.rounds[k].id == race.rounds[k].id;
      CountAfter(tasks, i, tasks[i].(stage := Ended), EndedBy(race.rounds[k].id));
    }
  }

  lemma WinIsCounted(race: WordRace, tasks: seq<Task>, i: nat, op: Op)
    requires RaceInv(race) && WinsCounted(race.rounds, tasks) && i < |tasks| && EndsRound(race, tasks[i], op)
    ensures WinsCounted(Apply(race, op).rounds, tasks[i := tasks[i].(stage := Ended)])
  {
    var n := Apply(race, op);
    ApplyKeeps(race, op);
    forall p ensures CountIf(tasks[i := tasks[i].(stage := Ended)], WonFor(p)) == RoundsWonBy(n.rounds, p) {
      assert WinsOf(n.wins, p) == WinsOf(race.wins, p) + Count(op.ClaimRound? && op.playerId == p);
      CountAfter(tasks, i, tasks[i].(stage := Ended), WonFor(p));
    }
  }

  lemma EndStep(fold: Fold, s: State, i: nat, op: Op)
    requires Inv(fold, s) && i < |s.tasks| && EndsRound(s.race, s.tasks[i], op) && !s.tasks[i].stage.Announced?
    requires Truthful(fold, Apply(s.race, op), s.tasks[i].(stage := Ended))
    ensures Inv(fold, At(s.(race := Apply(s.race, op)), i, Ended))
  {
    var t := s.tasks[i].(stage := Ended);
    ApplyKeeps(s.race, op);
    AllTruthLasts(fold, s.race, op, s.tasks);
    TruthStays(fold, Apply(s.race, op), s.tasks, i, t);
    EndIsCounted(s.race, s.tasks, i, op);
    WinIsCounted(s.race, s.tasks, i, op);
    TellsStay(s.announced, s.tasks, i, t);
    PaymentsStay(s.paid, s.tasks, i, t);
  }

  lemma LostClaimIsTrue(fold: Fold, race: WordRace, t: Task)
    requires RaceInv(race) && Truthful(fold, race, t) && t.Submission? && t.stage.Judged?
    requires FindRound(race.rounds, t.roundId).Some? && !Succeeds(race, ClaimRound(t.roundId, t.playerId, t.stage.now))
    ensures Truthful(fold, race, t.(stage := LostClaim(FindRound(race.rounds, t.roundId).value, t.stage.now)))
  {
    var k := RoundIndex(race.rounds, t.roundId);
    assert RoundInv(race.rounds[k]);
  }

  lemma WinningClaimIsTrue(fold: Fold, race: WordRace, t: Task)
    requires RaceInv(race) && Truthful(fold, race, t) && t.Submission? && t.stage.Judged?
    requires Succeeds(race, ClaimRound(t.roundId, t.playerId, t.stage.now))
    ensures Truthful(fold, Apply(race, ClaimRound(t.roundId, t.playerId, t.stage.now)), t.(stage := Ended))
  {
    FoundAdvances(race, ClaimRound(t.roundId, t.playerId, t.stage.now), t.roundId);
  }

  lemma ClaimEnds(fold: Fold, s: State, i: nat)
    requires Inv(fold, s) && i < |s.tasks| && s.tasks[i].Submission? && s.tasks[i].stage.Judged?
    requires var t := s.tasks[i]; Succeeds(s.race, ClaimRound(t.roundId, t.playerId, t.stage.now))
    ensures var t := s.tasks[i];
            Inv(fold, At(s.(race := Apply(s.race, ClaimRound(t.roundId, t.playerId, t.stage.now))), i, Ended))
  {
    var t := s.tasks[i];
    assert Truthful(fold, s.race, t);
    WinningClaimIsTrue(fold, s.race, t);
    EndStep(fold, s, i, ClaimRound(t.roundId, t.playerId, t.stage.now));
  }

  lemma ClaimKeeps(fold: Fold, s: State, i: nat)
    requires Inv(fold, s) && i < |s.tasks| && s.tasks[i].Submission? && s.tasks[i].stage.Judged?
    ensures Inv(fold, ClaimStep(s, i))
  {
    var t := s.tasks[i];
    var op := ClaimRound(t.roundId, t.playerId, t.stage.now);
    assert Truthful(fold, s.race, t);
    if !s.stored.Own? {
      QuietStep(fold, s, i, Failed(WORD_RACE_NOT_ACTIVE));
    } else if Succeeds(s.race, op) {
      ClaimEnds(fold, s, i);
    } else {
      LostClaimIsTrue(fold, s.race, t);
      QuietStep(fold, s, i, LostClaim(FindRound(s.race.rounds, t.roundId).value, t.stage.now));
    }
  }

  /** What a claim is answered: that it won while the round is open, and otherwise that it came
      late for a round that is won, or that the round expired. */
  lemma ClaimsAreAnswered(fold: Fold, s: State, i: nat)
    requires Inv(fold, s) && i < |s.tasks| && s.tasks[i].Submission? && s.tasks[i].stage.Judged?
    ensures var t, n := s.tasks[i], Step(fold, s, Claim(i));
            var round := FindRound(s.race.rounds, t.roundId);
            if !s.stored.Own? then n == At(s, i, Failed(WORD_RACE_NOT_ACTIVE))
            else
              && round.Some? && |n.tasks| == |s.tasks|
              && match round.value.status
                 case Open => n.tasks[i].stage == Ended && n.race == Apply(s.race, ClaimRound(t.roundId, t.playerId, t.stage.now))
                 case Won => n == At(s, i, Answered(Late, t.stage.now))
                 case Expired => n == At(s, i, Answered(Over, t.stage.now))
                 case Scheduled => false
  {
    var t := s.tasks[i];
    ClaimIsItsStep(fold, s, i);
    assert Truthful(fold, s.race, t);
    var k := RoundIndex(s.race.rounds, t.roundId);
    assert RoundInv(s.race.rounds[k]);
  }

  lemma ClaimIsItsStep(fold: Fold, s: State, i: nat)
    requires i < |s.tasks| && s.tasks[i].Submission? && s.tasks[i].stage.Judged?
    ensures Step(fold, s, Claim(i)) == ClaimStep(s, i)
  {
    assert Step(fold, s, Claim(i)) == TaskStep(fold, s, Claim(i));
  }

  /** What the first read of a submission is answered. */
  lemma ReadsAreAnswered(fold: Fold, s: State, i: nat, now: int)
    requires i < |s.tasks| && s.tasks[i].Submission? && s.tasks[i].stage.Ready?
    ensures var t := s.tasks[i];
            var round := FindRound(s.race.rounds, t.roundId);
            Step(fold, s, Read(i, now)) == At(s, i,
              if s.stored.Nothing? then Failed(WORD_RACE_NOT_ACTIVE)
              else if s.stored.Another? || round.None? then Failed(WORD_ROUND_NOT_OPEN)
              else
                match Judge(fold, round.value, s.race.participantIds, t.playerId, t.text, now)
                case Correct => Judged(now)
                case Incorrect => Answered(Wrong, now)
                case TooLate => Answered(Over, now)
                case Rejected(error) => Failed(error))
  {
    assert Step(fold, s, Read(i, now)) == TaskStep(fold, s, Read(i, now));
  }

  lemma ExpireKeeps(fold: Fold, s: State, i: nat, now: int)
    requires Inv(fold, s) && i < |s.tasks| && s.tasks[i].Expiry? && s.tasks[i].stage.Ready?
    ensures Inv(fold, ExpireStep(s, i, now))
  {
    var op := ExpireRound(s.tasks[i].roundId, now);
    if s.stored.Own? && Succeeds(s.race, op) {
      FoundAdvances(s.race, op, s.tasks[i].roundId);
      EndStep(fold, s, i, op);
    } else {
      QuietStep(fold, s, i, Missed);
    }
  }

  lemma RereadKeeps(fold: Fold, s: State, i: nat)
    requires Inv(fold, s) && i < |s.tasks| && s.tasks[i].Expiry? && (s.tasks[i].stage.Ended? || s.tasks[i].stage.Missed?)
    ensures Inv(fold, RereadStep(s, i))
  {
    if s.tasks[i].stage.Ended? {
      if !s.stored.Nothing? { TellStep(fold, s, i, false); } else { SilentStep(fold, s, i); }
    } else {
      QuietStep(fold, s, i, Ready);
      QuietStep(fold, s, i, Settled);
    }
  }

  lemma TaskStepKeeps(fold: Fold, s: State, a: Action)
    requires Inv(fold, s) && OfTask(a) && a.task < |s.tasks|
    ensures Inv(fold, TaskStep(fold, s, a))
  {
    var i, t := a.task, s.tasks[a.task];
    assert Truthful(fold, s.race, t);
    match a
    case Read(_, now) => if t.Submission? && t.stage.Ready? { QuietStep(fold, s, i, ReadStage(fold, s, t, now)); }
    case Claim(_) => if t.Submission? && t.stage.Judged? { ClaimKeeps(fold, s, i); }
    case Pay(_) => if t.Submission? && t.stage.Ended? { PaymentKeeps(fold, s, i); }
    case Announce(_) => if t.Submission? && t.stage.Paid? { TellStep(fold, s, i, t.stage.accepted); }
    case Expire(_, now) => if t.Expiry? && t.stage.Ready? { ExpireKeeps(fold, s, i, now); }
    case Reread(_) => if t.Expiry? && (t.stage.Ended? || t.stage.Missed?) { RereadKeeps(fold, s, i); }
  }

  /** Every step of every task, and every change of the room and the store, keeps every
      promise made so far. */
  lemma StepKeeps(fold: Fold, s: State, a: Action)
    requires Inv(fold, s)
    ensures Inv(fold, Step(fold, s, a))
  {
    if !OfTask(a) {
      WorldStepKeeps(fold, s, a);
    } else if a.task < |s.tasks| {
      TaskStepKeeps(fold, s, a);
    }
  }

  lemma {:induction false} PerformKeeps(fold: Fold, s: State, actions: seq<Action>)
    requires Inv(fold, s)
    ensures Inv(fold, Perform(fold, s, actions))
    decreases |actions|
  {
    if actions != [] {
      StepKeeps(fold, s, actions[0]);
      PerformKeeps(fold, Step(fold, s, actions[0]), actions[1..]);
    }
  }

  // ----- what callers may rely on -----

  /** In every interleaving outcomes are truthful, every winner is a participant who typed
      the word, as many submissions win as rounds are won, and each round won is paid at
      most once; the room credits a player with nothing but these and the bonuses of
      other races. */
  lemma OutcomesAreTruthful(fold: Fold, start: State, actions: seq<Action>)
    requires Begins(fold, start)
    ensures var s := Perform(fold, start, actions);
            && AllTruthful(fold, s.race, s.tasks)
            && (forall p :: CountIf(s.tasks, WonFor(p)) == RoundsWonBy(s.race.rounds, p) == WinsOf(s.race.wins, p))
            && (forall p :: WinsOf(s.paid, p) <= RoundsWonBy(s.race.rounds, p))
            && (forall p :: WordsInRoom(s.room, p) <= RoundsWonBy(s.race.rounds, p) + WinsOf(s.others, p))
  {
    BeginsHolds(fold, start);
    PerformKeeps(fold, start, actions);
    var s := Perform(fold, start, actions);
    forall p ensures WinsOf(s.paid, p) <= RoundsWonBy(s.race.rounds, p) {
      CountLess(s.tasks, PaidFor(p), WonFor(p));
    }
  }

  // ----- single moments of a run -----

  /** Every state of a run, the first and the last included. */
  function States(fold: Fold, s: State, actions: seq<Action>): (r: seq<State>)
    ensures |r| == |actions| + 1
    decreases |actions|
  {
    if actions == [] then [s] else [s] + States(fold, Step(fold, s, actions[0]), actions[1..])
  }

  /** The state in which the n-th action is performed. */
  function StateAt(fold: Fold, start: State, actions: seq<Action>, n: nat): (s: State)
    requires n <= |actions|
  {
    States(fold, start, actions)[n]
  }

  lemma StateFirst(fold: Fold, start: State, actions: seq<Action>)
    ensures StateAt(fold, start, actions, 0) == start
  {
  }

  lemma {:induction false} StateAfter(fold: Fold, start: State, actions: seq<Action>, n: nat)
    requires n < |actions|
    ensures StateAt(fold, start, actions, n + 1) == Step(fold, StateAt(fold, start, actions, n), actions[n])
    decreases |actions|
  {
    var next := Step(fold, start, actions[0]);
    assert States(fold, start, actions) == [start] + States(fold, next, actions[1..]);
    if n == 0 {
      StateFirst(fold, next, actions[1..]);
    } else {
      StateAfter(fold, next, actions[1..], n - 1);
    }
  }

  lemma {:induction false} StateLast(fold: Fold, start: State, actions: seq<Action>)
    ensures StateAt(fold, start, actions, |actions|) == Perform(fold, start, actions)
    decreases |actions|
  {
    if actions != [] {
      StateLast(fold, Step(fold, start, actions[0]), actions[1..]);
    }
  }

  lemma PerformFirst(fold: Fold, s: State, a: Action, rest: seq<Action>, n: State)
    requires Step(fold, s, a) == n
    ensures Perform(fold, s, [a] + rest) == Perform(fold, n, rest)
  {
    assert ([a] + rest)[1..] == rest;
  }

  lemma {:induction false} PerformConcat(fold: Fold, s: State, a: seq<Action>, b: seq<Action>)
    ensures Perform(fold, s, a + b) == Perform(fold, Perform(fold, s, a), b)
    decreases |a|
  {
    if a == [] {
      assert a + b == b;
    } else {
      assert (a + b)[0] == a[0] && (a + b)[1..] == a[1..] + b;
      PerformConcat(fold, Step(fold, s, a[0]), a[1..], b);
    }
  }

  lemma SaveIsTaken(fold: Fold, s: State)
    requires !s.saved
    ensures Step(fold, s, Save) == s.(saved := true, stored := Own)
  {
  }

  lemma ShowIsTaken(fold: Fold, s: State, id: Id)
    requires s.stored.Own?
    ensures Step(fold, s, Show(id)) == s.(race := Apply(s.race, OpenRound(id)))
  {
  }

  lemma DeleteIsTaken(fold: Fold, s: State)
    ensures Step(fold, s, Delete) == s.(stored := Nothing)
  {
  }

  lemma SaveAnotherIsTaken(fold: Fold, s: State)
    ensures Step(fold, s, SaveAnother) == s.(stored := Another)
  {
  }

  lemma PerformTwo(fold: Fold, s: State, a: Action, m: State, b: Action, n: State)
    requires Step(fold, s, a) == m && Step(fold, m, b) == n
    ensures Perform(fold, s, [a, b]) == n
  {
    PerformFirst(fold, m, b, [], n);
    PerformFirst(fold, s, a, [b], m);
    assert [b] + [] == [b] && [a] + [b] == [a, b];
  }

  lemma PerformThree(fold: Fold, s: State, a: Action, m: State, b: Action, n: State, c: Action, o: State)
    requires Step(fold, s, a) == m && Step(fold, m, b) == n && Step(fold, n, c) == o
    ensures Perform(fold, s, [a, b, c]) == o
  {
    PerformTwo(fold, m, b, n, c, o);
    PerformFirst(fold, s, a, [b, c], m);
    assert [a] + [b, c] == [a, b, c];
  }
}
