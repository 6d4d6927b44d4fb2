/** The words in a battle's table: whose bonuses they are, of which battle, and how many
    there can be. A bonus names a room and no battle, so it counts in the battle that runs
    when it is paid. */
module WordBonuses {
  import opened Sequences
  import opened Text
  import opened Domain
  import opened WordRounds
  import opened WordSubmission
  import BattleRun
  import RoomEvents
  import RoomInvariant
  import RoomService
  import SampleRun

  // ----- the words of the battle that runs -----

  /** The bonuses accepted so far from the race, or from other races. */
  function Ledger(s: State, own: bool): map<Id, nat> { if own then s.paid else s.others }

  function Since(s: State, n: State, own: bool, p: Id, soFar: int): int {
    if NoBattle(n.room) then 0 else soFar + WinsOf(Ledger(n, own), p) - WinsOf(Ledger(s, own), p)
  }

  /** The bonuses of the race, or of other races, that a player was paid since the room last
      was without a battle, on top of those counted so far. */
  function PaidThisBattle(fold: Fold, s: State, actions: seq<Action>, own: bool, p: Id, soFar: int): int
    decreases |actions|
  {
    if actions == [] then soFar
    else
      var n := Step(fold, s, actions[0]);
      PaidThisBattle(fold, n, actions[1..], own, p, Since(s, n, own, p, soFar))
  }

  /** What a player's words are after a step: what they were and what was paid, or none. */
  predicate BalancesFor(s: State, n: State, p: Id) {
    && WinsOf(n.paid, p) >= WinsOf(s.paid, p) && WinsOf(n.others, p) >= WinsOf(s.others, p)
    && WordsInRoom(n.room, p) == if NoBattle(n.room) then 0
                                 else WordsInRoom(s.room, p) + WinsOf(n.paid, p) - WinsOf(s.paid, p) + WinsOf(n.others, p) - WinsOf(s.others, p)
  }

  ghost predicate Balances(s: State, n: State) {
    forall p :: BalancesFor(s, n, p)
  }

  lemma NothingIsBooked(s: State, n: State)
    requires n.paid == s.paid && n.others == s.others && (n.room == s.room || NoBattle(n.room))
    ensures Balances(s, n)
  {
  }

  lemma UpdateBalances(fold: Fold, s: State, e: RoomEvents.Event)
    requires s.room.Some? && RoomInvariant.Inv(fold, s.room.value) && !e.AwardWordBonus?
    ensures Balances(s, s.(room := RoomEvents.Next(fold, s.room.value, e)))
  {
    UpdateAddsNoWord(fold, s.room.value, e);
  }

  lemma BonusBalances(s: State, n: State, p: Id)
    requires BonusAccepted(s.room, p) && n.room == AfterBonus(s.room.value, p)
    requires (n.paid == OneMoreWin(s.paid, p) && n.others == s.others) || (n.paid == s.paid && n.others == OneMoreWin(s.others, p))
    ensures Balances(s, n)
  {
    BonusIsOneWord(s.room.value, p);
  }

  lemma OthersBonusBalances(fold: Fold, s: State, p: Id)
    requires BonusAccepted(s.room, p)
    ensures Balances(s, s.(room := RoomEvents.Next(fold, s.room.value, RoomEvents.AwardWordBonus(p)), others := OneMoreWin(s.others, p)))
  {
    BonusIsAnUpdate(fold, s.room.value, p);
    BonusBalances(s, s.(room := AfterBonus(s.room.value, p), others := OneMoreWin(s.others, p)), p);
  }

  lemma RoomStepBalances(fold: Fold, s: State, e: RoomEvents.Event)
    requires Inv(fold, s)
    ensures Balances(s, RoomStep(fold, s, e))
  {
    if s.room.Some? {
      if !e.AwardWordBonus? {
        UpdateBalances(fold, s, e);
      } else if BonusAccepted(s.room, e.id) {
        OthersBonusBalances(fold, s, e.id);
      } else {
        RefusedBonusIsNothing(fold, s.room.value, e.id);
      }
    }
  }

  lemma PaymentBalances(s: State, i: nat)
    requires i < |s.tasks| && s.tasks[i].Submission?
    ensures Balances(s, PaymentStep(s, i))
  {
    var p := s.tasks[i].playerId;
    if BonusAccepted(s.room, p) { BonusBalances(s, PaymentStep(s, i), p); } else { NothingIsBooked(s, PaymentStep(s, i)); }
  }

  predicate PaysNow(s: State, a: Action) {
    a.Pay? && a.task < |s.tasks| && s.tasks[a.task].Submission? && s.tasks[a.task].stage.Ended?
  }

  lemma PaymentIsTaken(fold: Fold, s: State, a: Action)
    requires PaysNow(s, a)
    ensures Step(fold, s, a) == PaymentStep(s, a.task)
  {
    assert Step(fold, s, a) == TaskStep(fold, s, a);
  }

  /** Only payments touch the room and the books. */
  lemma OtherTasksPayNothing(fold: Fold, s: State, a: Action)
    requires OfTask(a) && !PaysNow(s, a)
    ensures NothingPaid(s, Step(fold, s, a))
  {
    if a.task < |s.tasks| { assert Step(fold, s, a) == TaskStep(fold, s, a); }
  }

  lemma OtherWorldStepsPayNothing(fold: Fold, s: State, a: Action)
    requires !OfTask(a) && !a.RoomActs?
    ensures var n := WorldStep(fold, s, a); n.paid == s.paid && n.others == s.others && (n.room == s.room || (Creates(s, a) && NoBattle(n.room)))
  {
  }

  lemma WorldStepBalances(fold: Fold, s: State, a: Action)
    requires Inv(fold, s) && !OfTask(a)
    ensures Balances(s, WorldStep(fold, s, a))
  {
    if a.RoomActs? {
      RoomStepBalances(fold, s, a.event);
    } else {
      OtherWorldStepsPayNothing(fold, s, a);
      NothingIsBooked(s, WorldStep(fold, s, a));
    }
  }

  lemma StepBalances(fold: Fold, s: State, a: Action)
    requires Inv(fold, s)
    ensures Balances(s, Step(fold, s, a))
  {
    if !OfTask(a) {
      WorldStepBalances(fold, s, a);
    } else if PaysNow(s, a) {
      PaymentIsTaken(fold, s, a);
      PaymentBalances(s, a.task);
    } else {
      OtherTasksPayNothing(fold, s, a);
      NothingIsBooked(s, Step(fold, s, a));
    }
  }

  /** The books of a player while a battle runs. */
  ghost predicate Booked(s: State, p: Id, own: int, other: int) {
    && own + other == WordsInRoom(s.room, p) && 0 <= own <= WinsOf(s.paid, p) && 0 <= other <= WinsOf(s.others, p)
  }

  lemma BooksGoOn(s: State, n: State, p: Id, own: int, other: int)
    requires Booked(s, p, own, other) && Balances(s, n)
    ensures Booked(n, p, Since(s, n, true, p, own), Since(s, n, false, p, other))
  {
    assert BalancesFor(s, n, p);
  }

  lemma {:induction false} BooksAreKept(fold: Fold, s: State, actions: seq<Action>, p: Id, own: int, other: int)
    requires Inv(fold, s) && Booked(s, p, own, other)
    ensures Booked(Perform(fold, s, actions), p, PaidThisBattle(fold, s, actions, true, p, own), PaidThisBattle(fold, s, actions, false, p, other))
    decreases |actions|
  {
    if actions != [] {
      var n := Step(fold, s, actions[0]);
      StepKeeps(fold, s, actions[0]);
      StepBalances(fold, s, actions[0]);
      BooksGoOn(s, n, p, own, other);
      BooksAreKept(fold, n, actions[1..], p, Since(s, n, true, p, own), Since(s, n, false, p, other));
    }
  }

  function OwnBonuses(fold: Fold, start: State, actions: seq<Action>, p: Id): int {
    PaidThisBattle(fold, start, actions, true, p, 0)
  }

  /** Those of other races; the words in the table at the start are such. */
  function OtherBonuses(fold: Fold, start: State, actions: seq<Action>, p: Id): int {
    PaidThisBattle(fold, start, actions, false, p, WordsInRoom(start.room, p))
  }

  /** In every run the table of the stored battle credits a player with exactly the bonuses
      paid to them since that battle began, those of the race and those of other races; of
      the race never more than the rounds of it they won. */
  lemma WordsAreThisBattlesBonuses(fold: Fold, start: State, actions: seq<Action>, p: Id)
    requires Begins(fold, start)
    ensures var s := Perform(fold, start, actions);
            var own, other := OwnBonuses(fold, start, actions, p), OtherBonuses(fold, start, actions, p);
            && WordsInRoom(s.room, p) == own + other
            && 0 <= own <= RoundsWonBy(s.race.rounds, p) && 0 <= other <= WinsOf(s.others, p)
  {
    BeginsHolds(fold, start);
    BooksAreKept(fold, start, actions, p, 0, WordsInRoom(start.room, p));
    OutcomesAreTruthful(fold, start, actions);
  }

  // ----- how many there can be -----

  function RoundsWon(rounds: seq<WordRound>): nat {
    if rounds == [] then 0 else Count(rounds[0].status == Won) + RoundsWon(rounds[1..])
  }

  function WordsOfAll(room: Option<Room>, ids: seq<Id>): nat {
    if ids == [] then 0 else WordsInRoom(room, ids[0]) + WordsOfAll(room, ids[1..])
  }

  function RoundsWonByAll(rounds: seq<WordRound>, ids: seq<Id>): nat {
    if ids == [] then 0 else RoundsWonBy(rounds, ids[0]) + RoundsWonByAll(rounds, ids[1..])
  }

  lemma {:induction false} FirstRoundApart(rounds: seq<WordRound>, ids: seq<Id>)
    requires rounds != [] && Distinct(ids)
    ensures RoundsWonByAll(rounds, ids)
         == RoundsWonByAll(rounds[1..], ids) + Count(rounds[0].winnerId.Some? && rounds[0].winnerId.value in ids)
  {
    if ids != [] {
      assert ids[0] !in ids[1..];
      FirstRoundApart(rounds, ids[1..]);
    }
  }

  lemma {:induction false} NobodyElseWins(rounds: seq<WordRound>, ids: seq<Id>)
    requires Distinct(ids) && forall k :: 0 <= k < |rounds| ==> RoundInv(rounds[k])
    ensures RoundsWonByAll(rounds, ids) <= RoundsWon(rounds)
  {
    if rounds == [] {
      NothingToWin(ids);
    } else {
      FirstRoundApart(rounds, ids);
      assert RoundInv(rounds[0]);
      NobodyElseWins(rounds[1..], ids);
    }
  }

  lemma {:induction false} NothingToWin(ids: seq<Id>)
    ensures RoundsWonByAll([], ids) == 0
  {
    if ids != [] { NothingToWin(ids[1..]); }
  }

  function OthersOfAll(fold: Fold, start: State, actions: seq<Action>, ids: seq<Id>): int {
    if ids == [] then 0 else OtherBonuses(fold, start, actions, ids[0]) + OthersOfAll(fold, start, actions, ids[1..])
  }

  lemma {:induction false} WordsAddUp(fold: Fold, start: State, actions: seq<Action>, ids: seq<Id>)
    requires Begins(fold, start)
    ensures var s := Perform(fold, start, actions);
            WordsOfAll(s.room, ids) <= RoundsWonByAll(s.race.rounds, ids) + OthersOfAll(fold, start, actions, ids)
  {
    if ids != [] {
      WordsAreThisBattlesBonuses(fold, start, actions, ids[0]);
      WordsAddUp(fold, start, actions, ids[1..]);
    }
  }

  /** All words of a battle together: never more than the rounds of the race that were won and
      the bonuses of other races paid while it ran. */
  lemma WordsAreBoundedByRounds(fold: Fold, start: State, actions: seq<Action>, ids: seq<Id>)
    requires Begins(fold, start) && Distinct(ids)
    ensures var s := Perform(fold, start, actions);
            WordsOfAll(s.room, ids) <= RoundsWon(s.race.rounds) + OthersOfAll(fold, start, actions, ids)
  {
    BeginsHolds(fold, start);
    PerformKeeps(fold, start, actions);
    WordsAddUp(fold, start, actions, ids);
    NobodyElseWins(Perform(fold, start, actions).race.rounds, ids);
  }

  // ----- which battle a bonus counts in -----

  predicate Rematches(s: State, a: Action) {
    a.RoomActs? && a.event.Rematch? && s.room.Some? && RoomService.Rematch(s.room.value, a.event.requesterId).Changed?
  }

  /** An action that takes the room to a lobby: an accepted rematch, or a room made anew. */
  predicate Renews(s: State, a: Action) { Rematches(s, a) || Creates(s, a) }

  /** One of the first n actions does. */
  ghost predicate Renewed(fold: Fold, start: State, actions: seq<Action>, n: nat)
    requires n <= |actions|
  {
    exists k: nat | k < n :: Renews(StateAt(fold, start, actions, k), actions[k])
  }

  predicate StartsNamed(e: RoomEvents.Event) { e.StartBattle? || e.ChooseSong? || e.AutoPickSong? }

  /** Battle ids are generated: no battle started later has this one. */
  predicate OtherBattleIds(id: Id, actions: seq<Action>) {
    forall k :: 0 <= k < |actions| && actions[k].RoomActs? && StartsNamed(actions[k].event) ==> actions[k].event.battleId != id
  }

  predicate InBattle(room: Option<Room>, id: Id) {
    room.Some? ==> room.value.battle.Some? && room.value.battle.value.id == id
  }

  predicate OutOfBattle(room: Option<Room>, id: Id) {
    room.Some? && room.value.battle.Some? ==> room.value.battle.value.id != id
  }

  /** Without an accepted rematch a battle is replaced by no other. */
  lemma BattleGoesOn(fold: Fold, r: Room, e: RoomEvents.Event, id: Id)
    requires RoomInvariant.Inv(fold, r) && InBattle(Some(r), id)
    requires e.Rematch? ==> !RoomService.Rematch(r, e.requesterId).Changed?
    ensures InBattle(RoomEvents.Next(fold, r, e), id)
  {
    RoomInvariant.NextKeeps(fold, r, e);
    if r.status == Battling { BattleRun.RunningStep(fold, r, e); } else { BattleRun.FinishedStep(fold, r, e); }
  }

  /** A battle that starts has the id it was started with. */
  lemma NewBattleIsNamed(fold: Fold, r: Room, e: RoomEvents.Event)
    requires RoomInvariant.Inv(fold, r) && r.status == Waiting
    ensures var n := RoomEvents.Next(fold, r, e);
            n.Some? && n.value.battle.Some? ==> StartsNamed(e) && n.value.battle.value.id == e.battleId
  {
    if StartsNamed(e) {
      StartIsNamed(fold, r, e);
    } else {
      NothingElseStarts(fold, r, e);
    }
  }

  lemma StartIsNamed(fold: Fold, r: Room, e: RoomEvents.Event)
    requires RoomInvariant.Inv(fold, r) && r.status == Waiting && StartsNamed(e)
    ensures var n := RoomEvents.Next(fold, r, e); n.Some? && n.value.battle.Some? ==> n.value.battle.value.id == e.battleId
  {
    RoomEvents.NextCommits(fold, r, e);
    if !e.StartBattle? {
      var chosen := RoomEvents.Chosen(r, e);
      if chosen.Changed? { StartAfterIsNamed(chosen, e.options, e.battleId); }
    }
  }

  lemma StartAfterIsNamed(chosen: Domain.Outcome, options: RoomService.StartOptions, battleId: Id)
    requires chosen.Changed? && chosen.room.battle.None?
    ensures var o := RoomEvents.StartAfter(chosen, options, battleId);
            o.Changed? && o.room.battle.Some? ==> o.room.battle.value.id == battleId
  {
  }

  lemma NothingElseStarts(fold: Fold, r: Room, e: RoomEvents.Event)
    requires RoomInvariant.Inv(fold, r) && r.status == Waiting && !StartsNamed(e)
    ensures NoBattle(RoomEvents.Next(fold, r, e))
  {
    RoomEvents.NextCommits(fold, r, e);
  }

  lemma BattleStaysOther(fold: Fold, r: Room, e: RoomEvents.Event, id: Id)
    requires RoomInvariant.Inv(fold, r) && OutOfBattle(Some(r), id) && (StartsNamed(e) ==> e.battleId != id)
    ensures OutOfBattle(RoomEvents.Next(fold, r, e), id)
  {
    if r.status == Waiting {
      NewBattleIsNamed(fold, r, e);
    } else {
      RoomInvariant.NextKeeps(fold, r, e);
      if r.status == Battling { BattleRun.RunningStep(fold, r, e); } else { BattleRun.FinishedStep(fold, r, e); }
    }
  }

  lemma RoomStepIsAnUpdate(fold: Fold, s: State, e: RoomEvents.Event)
    requires s.room.Some?
    ensures RoomStep(fold, s, e).room == RoomEvents.Next(fold, s.room.value, e)
  {
  }

  /** A bonus stays in the battle that accepts it. */
  lemma BonusKeepsBattle(r: Room, p: Id)
    requires BonusAccepted(Some(r), p)
    ensures var n := AfterBonus(r, p); n.Some? && r.battle.Some? && n.value.battle.Some? && n.value.battle.value.id == r.battle.value.id
  {
  }

  lemma PaymentGoesOn(s: State, i: nat, id: Id)
    requires i < |s.tasks| && s.tasks[i].Submission?
    ensures InBattle(s.room, id) ==> InBattle(PaymentStep(s, i).room, id)
    ensures OutOfBattle(s.room, id) ==> OutOfBattle(PaymentStep(s, i).room, id)
  {
    var p := s.tasks[i].playerId;
    if BonusAccepted(s.room, p) { BonusKeepsBattle(s.room.value, p); }
  }

  lemma WorldGoesOn(fold: Fold, s: State, a: Action, id: Id)
    requires Inv(fold, s) && !OfTask(a) && !Renews(s, a) && InBattle(s.room, id)
    ensures InBattle(WorldStep(fold, s, a).room, id)
  {
    if !a.RoomActs? {
      OtherWorldStepsPayNothing(fold, s, a);
    } else if s.room.Some? {
      RoomStepIsAnUpdate(fold, s, a.event);
      BattleGoesOn(fold, s.room.value, a.event, id);
    }
  }

  lemma WorldStaysOther(fold: Fold, s: State, a: Action, id: Id)
    requires Inv(fold, s) && !OfTask(a) && OutOfBattle(s.room, id) && OtherBattleIds(id, [a])
    ensures OutOfBattle(WorldStep(fold, s, a).room, id)
  {
    if !a.RoomActs? {
      OtherWorldStepsPayNothing(fold, s, a);
    } else if s.room.Some? {
      assert [a][0] == a;
      RoomStepIsAnUpdate(fold, s, a.event);
      BattleStaysOther(fold, s.room.value, a.event, id);
    }
  }

  lemma StepGoesOn(fold: Fold, s: State, a: Action, id: Id)
    requires Inv(fold, s) && !Renews(s, a) && InBattle(s.room, id)
    ensures InBattle(Step(fold, s, a).room, id)
  {
    if !OfTask(a) {
      WorldGoesOn(fold, s, a, id);
    } else if PaysNow(s, a) {
      PaymentIsTaken(fold, s, a);
      PaymentGoesOn(s, a.task, id);
    } else {
      OtherTasksPayNothing(fold, s, a);
    }
  }

  lemma StepStaysOther(fold: Fold, s: State, a: Action, id: Id)
    requires Inv(fold, s) && OutOfBattle(s.room, id) && OtherBattleIds(id, [a])
    ensures OutOfBattle(Step(fold, s, a).room, id)
  {
    if !OfTask(a) {
      WorldStaysOther(fold, s, a, id);
    } else if PaysNow(s, a) {
      PaymentIsTaken(fold, s, a);
      PaymentGoesOn(s, a.task, id);
    } else {
      OtherTasksPayNothing(fold, s, a);
    }
  }

  lemma RematchEndsTheBattle(fold: Fold, s: State, a: Action)
    requires Rematches(s, a)
    ensures NoBattle(RoomStep(fold, s, a.event).room)
  {
    RoomStepIsAnUpdate(fold, s, a.event);
    RoomEvents.NextCommits(fold, s.room.value, a.event);
  }

  /** After a rematch, or in a room made anew, no battle runs. */
  lemma RenewalIsALobby(fold: Fold, s: State, a: Action)
    requires Renews(s, a)
    ensures NoBattle(Step(fold, s, a).room)
  {
    if Rematches(s, a) {
      RematchEndsTheBattle(fold, s, a);
      assert Step(fold, s, a) == RoomStep(fold, s, a.event);
    }
  }

  lemma {:induction false} InvAt(fold: Fold, start: State, actions: seq<Action>, n: nat)
    requires n <= |actions| && Inv(fold, start)
    ensures Inv(fold, StateAt(fold, start, actions, n))
  {
    if n == 0 {
      StateFirst(fold, start, actions);
    } else {
      InvAt(fold, start, actions, n - 1);
      StateAfter(fold, start, actions, n - 1);
      StepKeeps(fold, StateAt(fold, start, actions, n - 1), actions[n - 1]);
    }
  }

  lemma RenewedAfter(fold: Fold, start: State, actions: seq<Action>, n: nat)
    requires n < |actions|
    ensures Renewed(fold, start, actions, n + 1) <==> Renewed(fold, start, actions, n) || Renews(StateAt(fold, start, actions, n), actions[n])
  {
  }

  lemma GoesOnAt(fold: Fold, start: State, actions: seq<Action>, n: nat, id: Id)
    requires n < |actions| && Inv(fold, start) && InBattle(StateAt(fold, start, actions, n).room, id)
    requires !Renews(StateAt(fold, start, actions, n), actions[n])
    ensures InBattle(StateAt(fold, start, actions, n + 1).room, id)
  {
    InvAt(fold, start, actions, n);
    StateAfter(fold, start, actions, n);
    StepGoesOn(fold, StateAt(fold, start, actions, n), actions[n], id);
  }

  lemma StaysOtherAt(fold: Fold, start: State, actions: seq<Action>, n: nat, id: Id)
    requires n < |actions| && Inv(fold, start) && OutOfBattle(StateAt(fold, start, actions, n).room, id) && OtherBattleIds(id, actions)
    ensures OutOfBattle(StateAt(fold, start, actions, n + 1).room, id)
  {
    InvAt(fold, start, actions, n);
    StateAfter(fold, start, actions, n);
    assert [actions[n]][0] == actions[n];
    StepStaysOther(fold, StateAt(fold, start, actions, n), actions[n], id);
  }

  lemma RenewedAt(fold: Fold, start: State, actions: seq<Action>, n: nat, id: Id)
    requires n < |actions| && Renews(StateAt(fold, start, actions, n), actions[n])
    ensures OutOfBattle(StateAt(fold, start, actions, n + 1).room, id)
  {
    StateAfter(fold, start, actions, n);
    RenewalIsALobby(fold, StateAt(fold, start, actions, n), actions[n]);
  }

  /** As long as no rematch was accepted the room is in the battle of the race. */
  lemma {:induction false} InItsBattle(fold: Fold, start: State, actions: seq<Action>, n: nat)
    requires n <= |actions| && Begins(fold, start) && Inv(fold, start) && !Renewed(fold, start, actions, n)
    ensures InBattle(StateAt(fold, start, actions, n).room, start.race.battleId)
  {
    if n == 0 {
      StateFirst(fold, start, actions);
    } else {
      RenewedAfter(fold, start, actions, n - 1);
      InItsBattle(fold, start, actions, n - 1);
      GoesOnAt(fold, start, actions, n - 1, start.race.battleId);
    }
  }

  /** Once out of it the room never is in that battle again. */
  lemma {:induction false} OutOfItsBattle(fold: Fold, start: State, actions: seq<Action>, id: Id, k: nat, n: nat)
    requires k <= n <= |actions| && Inv(fold, start) && OutOfBattle(StateAt(fold, start, actions, k).room, id)
    requires OtherBattleIds(id, actions)
    ensures OutOfBattle(StateAt(fold, start, actions, n).room, id)
  {
    if k < n {
      OutOfItsBattle(fold, start, actions, id, k, n - 1);
      StaysOtherAt(fold, start, actions, n - 1, id);
    }
  }

  lemma OutOnceRenewed(fold: Fold, start: State, actions: seq<Action>, n: nat)
    requires n <= |actions| && Inv(fold, start) && Renewed(fold, start, actions, n)
    requires OtherBattleIds(start.race.battleId, actions)
    ensures OutOfBattle(StateAt(fold, start, actions, n).room, start.race.battleId)
  {
    var k: nat :| k < n && Renews(StateAt(fold, start, actions, k), actions[k]);
    RenewedAt(fold, start, actions, k, start.race.battleId);
    OutOfItsBattle(fold, start, actions, start.race.battleId, k + 1, n);
  }

  /** The n-th action pays a bonus of the race, and the room accepts it. */
  predicate PaidAt(fold: Fold, start: State, actions: seq<Action>, n: nat)
    requires n < |actions|
  {
    var s := StateAt(fold, start, actions, n);
    PaysNow(s, actions[n]) && BonusAccepted(s.room, s.tasks[actions[n].task].playerId)
  }

  /** A bonus the room accepts counts in the battle its round belongs to if and only if no
      rematch was accepted, and the room not made anew, before it is paid. A win that comes
      after its battle is over is ignored exactly as long as this holds, since a finished
      battle accepts no bonus. */
  lemma BonusCountsInItsBattle(fold: Fold, start: State, actions: seq<Action>, n: nat)
    requires n < |actions| && Begins(fold, start) && PaidAt(fold, start, actions, n)
    requires OtherBattleIds(start.race.battleId, actions)
    ensures var room := StateAt(fold, start, actions, n).room.value;
            && room.battle.Some? && room.status == Battling
            && (room.battle.value.id == start.race.battleId <==> !Renewed(fold, start, actions, n))
  {
    BeginsHolds(fold, start);
    if Renewed(fold, start, actions, n) {
      OutOnceRenewed(fold, start, actions, n);
    } else {
      InItsBattle(fold, start, actions, n);
    }
  }

  // ----- a bonus that counts in another battle -----

  function Acts(events: seq<RoomEvents.Event>): seq<Action> {
    if events == [] then [] else [RoomActs(events[0])] + Acts(events[1..])
  }

  lemma RoomActIsTaken(fold: Fold, s: State, e: RoomEvents.Event)
    requires s.room.Some? && !e.AwardWordBonus?
    ensures Step(fold, s, RoomActs(e)) == s.(room := RoomEvents.Next(fold, s.room.value, e))
  {
  }

  /** Without anybody winning a word, updates of the room are that many actions. */
  lemma {:induction false} ActsRun(fold: Fold, s: State, events: seq<RoomEvents.Event>, n: Room)
    requires s.room.Some? && SampleRun.NoBonus(events) && RoomEvents.Run(fold, s.room.value, events) == Some(n)
    ensures Perform(fold, s, Acts(events)) == s.(room := Some(n))
    decreases |events|
  {
    if events != [] {
      var m := s.(room := RoomEvents.Next(fold, s.room.value, events[0]));
      RoomActIsTaken(fold, s, events[0]);
      ActsRun(fold, m, events[1..], n);
      PerformFirst(fold, s, RoomActs(events[0]), Acts(events[1..]), m);
    }
  }

  lemma {:induction false} NoWordsWithoutBonus(fold: Fold, r: Room, events: seq<RoomEvents.Event>)
    requires RoomInvariant.Inv(fold, r) && SampleRun.NoBonus(events) && forall p :: WordsInRoom(Some(r), p) == 0
    ensures forall p :: WordsInRoom(RoomEvents.Run(fold, r, events), p) == 0
    decreases |events|
  {
    if events != [] {
      var n := RoomEvents.Next(fold, r, events[0]);
      UpdateAddsNoWord(fold, r, events[0]);
      if n.Some? { NoWordsWithoutBonus(fold, n.value, events[1..]); }
    }
  }

  lemma NoWordsOnTheWay(fold: Fold, r: Room, n: Room)
    requires RoomInvariant.Inv(fold, r) && SampleRun.LeadsTo(fold, r, n) && forall p :: WordsInRoom(Some(r), p) == 0
    ensures RoomInvariant.Inv(fold, n) && forall p :: WordsInRoom(Some(n), p) == 0
  {
    SampleRun.ReachedHolds(fold, r, n);
    var events: seq<RoomEvents.Event> :| SampleRun.NoBonus(events) && RoomEvents.Run(fold, r, events) == Some(n);
    NoWordsWithoutBonus(fold, r, events);
  }

  /** The first round is shown, and can be claimed. */
  lemma FirstRoundIsWon(race: WordRace, playerId: Id, now: int)
    requires Fresh(race) && Distinct(RoundIds(race.rounds)) && race.rounds != [] && now < race.rounds[0].closesAt
    ensures var id := race.rounds[0].id;
            var shown := Apply(race, OpenRound(id));
            && FindRound(shown.rounds, id) == Some(race.rounds[0].(status := WordRounds.Open))
            && shown.participantIds == race.participantIds
            && Succeeds(shown, ClaimRound(id, playerId, now))
  {
    var id := race.rounds[0].id;
    assert RoundIds(race.rounds)[0] == id;
    assert FindRound(race.rounds, id) == Some(race.rounds[0]);
    FreshRaceInv(race);
    FoundAdvances(race, OpenRound(id), id);
  }

  lemma ReadIsTaken(fold: Fold, s: State, now: int)
    requires s.tasks != [] && s.tasks[0].Submission? && s.tasks[0].stage.Ready?
    ensures Step(fold, s, Read(0, now)) == At(s, 0, ReadStage(fold, s, s.tasks[0], now))
  {
    assert Step(fold, s, Read(0, now)) == TaskStep(fold, s, Read(0, now));
  }

  lemma ClaimIsTaken(fold: Fold, s: State)
    requires s.tasks != [] && s.tasks[0].Submission? && s.tasks[0].stage.Judged?
    ensures Step(fold, s, Claim(0)) == ClaimStep(s, 0)
  {
    assert Step(fold, s, Claim(0)) == TaskStep(fold, s, Claim(0));
  }

  function OneTask(playerId: Id, roundId: Id, text: string, stage: Stage): seq<Task> {
    [Submission(playerId, roundId, text, stage)]
  }

  /** What a submission of the first round finds: the round open and the word as typed. */
  predicate Claimable(fold: Fold, s: State, playerId: Id, id: Id, text: string, now: int) {
    var round := FindRound(s.race.rounds, id);
    && s.stored.Own? && round.Some? && round.value.status == WordRounds.Open && now < round.value.closesAt
    && Matches(fold, text, round.value.word) && playerId in s.race.participantIds
    && Succeeds(s.race, ClaimRound(id, playerId, now))
  }

  lemma ReadIsCorrect(fold: Fold, s: State, playerId: Id, id: Id, text: string, now: int)
    requires Claimable(fold, s, playerId, id, text, now) && s.tasks == OneTask(playerId, id, text, Ready)
    ensures Step(fold, s, Read(0, now)) == s.(tasks := OneTask(playerId, id, text, Judged(now)))
  {
    ReadIsTaken(fold, s, now);
    assert s.tasks[0 := Submission(playerId, id, text, Judged(now))] == OneTask(playerId, id, text, Judged(now));
  }

  lemma ClaimWins(fold: Fold, s: State, playerId: Id, id: Id, text: string, now: int)
    requires Claimable(fold, s, playerId, id, text, now) && s.tasks == OneTask(playerId, id, text, Judged(now))
    ensures Step(fold, s, Claim(0))
         == s.(race := Apply(s.race, ClaimRound(id, playerId, now)), tasks := OneTask(playerId, id, text, WordSubmission.Ended))
  {
    ClaimIsTaken(fold, s);
    assert s.tasks[0 := Submission(playerId, id, text, WordSubmission.Ended)] == OneTask(playerId, id, text, WordSubmission.Ended);
  }

  lemma RestOfTheClaim(fold: Fold, s: State, playerId: Id, id: Id, text: string, now: int)
    requires Claimable(fold, s, playerId, id, text, now) && s.tasks == OneTask(playerId, id, text, Ready)
    ensures Perform(fold, s, [Read(0, now), Claim(0)])
         == s.(race := Apply(s.race, ClaimRound(id, playerId, now)), tasks := OneTask(playerId, id, text, WordSubmission.Ended))
  {
    var judged := s.(tasks := OneTask(playerId, id, text, Judged(now)));
    ReadIsCorrect(fold, s, playerId, id, text, now);
    ClaimWins(fold, judged, playerId, id, text, now);
    PerformTwo(fold, s, Read(0, now), judged, Claim(0),
               judged.(race := Apply(s.race, ClaimRound(id, playerId, now)), tasks := OneTask(playerId, id, text, WordSubmission.Ended)));
  }

  /** The race of a battle with one submission for its first round, both still to come. */
  function ToCome(race: WordRace, room: Room, playerId: Id, text: string): State
    requires race.rounds != []
  {
    State(race, false, Nothing, OneTask(playerId, race.rounds[0].id, text, Ready), Some(room), map[], map[], [])
  }

  function FirstRoundWon(race: WordRace, playerId: Id, now: int): WordRace
    requires race.rounds != []
  {
    Apply(Apply(race, OpenRound(race.rounds[0].id)), ClaimRound(race.rounds[0].id, playerId, now))
  }

  /** The race is saved, its first round shown, read and claimed. */
  lemma FirstRoundIsClaimed(fold: Fold, race: WordRace, room: Room, playerId: Id, text: string, now: int)
    requires Fresh(race) && Distinct(RoundIds(race.rounds)) && race.rounds != [] && now < race.rounds[0].closesAt
    requires playerId in race.participantIds && Matches(fold, text, race.rounds[0].word)
    ensures var id := race.rounds[0].id;
            Perform(fold, ToCome(race, room, playerId, text), [Save, Show(id)] + [Read(0, now), Claim(0)])
            == State(FirstRoundWon(race, playerId, now), true, Own, OneTask(playerId, id, text, WordSubmission.Ended), Some(room), map[], map[], [])
  {
    var id, start := race.rounds[0].id, ToCome(race, room, playerId, text);
    var saved := start.(saved := true, stored := Own);
    var shown := saved.(race := Apply(race, OpenRound(id)));
    FirstRoundIsWon(race, playerId, now);
    SaveIsTaken(fold, start);
    ShowIsTaken(fold, saved, id);
    PerformTwo(fold, start, Save, saved, Show(id), shown);
    RestOfTheClaim(fold, shown, playerId, id, text, now);
    PerformConcat(fold, start, [Save, Show(id)], [Read(0, now), Claim(0)]);
  }

  lemma ClaimIsOneWin(race: WordRace, playerId: Id, now: int)
    requires Fresh(race) && Distinct(RoundIds(race.rounds)) && race.rounds != [] && now < race.rounds[0].closesAt
    ensures RoundsWonBy(FirstRoundWon(race, playerId, now).rounds, playerId) == 1
  {
    var shown := Apply(race, OpenRound(race.rounds[0].id));
    FreshRaceInv(race);
    FirstRoundIsWon(race, playerId, now);
    ApplyKeeps(race, OpenRound(race.rounds[0].id));
    ApplyKeeps(shown, ClaimRound(race.rounds[0].id, playerId, now));
    NothingWon(race.rounds, playerId);
    assert WinsOf(race.wins, playerId) == 0;
  }

  lemma BonusIsPaid(fold: Fold, s: State, playerId: Id, id: Id, text: string)
    requires s.tasks == OneTask(playerId, id, text, WordSubmission.Ended) && BonusAccepted(s.room, playerId)
    ensures Step(fold, s, Pay(0))
         == s.(room := AfterBonus(s.room.value, playerId), paid := OneMoreWin(s.paid, playerId), tasks := OneTask(playerId, id, text, Paid(true)))
  {
    PaymentIsTaken(fold, s, Pay(0));
    assert s.tasks[0 := Submission(playerId, id, text, Paid(true))] == OneTask(playerId, id, text, Paid(true));
  }

  /** A word won in the race, its only one, stands in the table of another battle, and no other
      race paid a bonus. */
  ghost predicate CountsElsewhere(s: State, playerId: Id, nextId: Id) {
    && s.room.Some? && s.room.value.status == Battling && s.room.value.battle.Some? && s.room.value.battle.value.id == nextId
    && WordsInRoom(s.room, playerId) == 1 == RoundsWonBy(s.race.rounds, playerId) && s.others == map[] && s.race.battleId != nextId
  }

  lemma BattleIdStays(race: WordRace, playerId: Id, now: int)
    requires race.rounds != []
    ensures FirstRoundWon(race, playerId, now).battleId == race.battleId
  {
  }

  lemma PaidElsewhere(fold: Fold, s: State, playerId: Id, id: Id, text: string, nextId: Id)
    requires s.tasks == OneTask(playerId, id, text, WordSubmission.Ended) && s.others == map[]
    requires s.room.Some? && s.room.value.status == Battling && s.room.value.battle.Some?
    requires s.room.value.battle.value.id == nextId != s.race.battleId && playerId in s.room.value.battle.value.dancerIds
    requires WordsInRoom(s.room, playerId) == 0 && RoundsWonBy(s.race.rounds, playerId) == 1
    ensures CountsElsewhere(Step(fold, s, Pay(0)), playerId, nextId)
  {
    BonusIsPaid(fold, s, playerId, id, text);
    BonusIsOneWord(s.room.value, playerId);
    BonusKeepsBattle(s.room.value, playerId);
  }

  /** The host of a room wins a word; before the bonus is paid the song ends, a rematch is
      asked for, and the next battle starts: there the word counts. */
  lemma LateBonusCountsInTheNextBattle(fold: Fold, r: Room, options: RoomService.StartOptions, race: WordRace, nextId: Id, text: string, now: int)
    returns (running: Room, actions: seq<Action>)
    requires SampleRun.IsNew(r) && RoomInvariant.Inv(fold, r) && RoomService.SaneOptions(options) && race.battleId != nextId
    requires Fresh(race) && Distinct(RoundIds(race.rounds)) && race.rounds != [] && now < race.rounds[0].closesAt
    requires r.hostId in race.participantIds && Matches(fold, text, race.rounds[0].word)
    ensures SampleRun.LeadsTo(fold, r, running) && Begins(fold, ToCome(race, running, r.hostId, text))
    ensures CountsElsewhere(Perform(fold, ToCome(race, running, r.hostId, text), actions), r.hostId, nextId)
  {
    running := SampleRun.BattleIsReachable(fold, r, options, race.battleId);
    BattleBegins(fold, r, running, race, r.hostId, text);
    var again := SampleRun.NextBattleIsReachable(fold, r, running, options, race.battleId, nextId);
    NoWordsOnTheWay(fold, running, again);
    actions := PaidInTheNextBattle(fold, race, running, again, r.hostId, nextId, text, now);
  }

  lemma BattleBegins(fold: Fold, r: Room, running: Room, race: WordRace, playerId: Id, text: string)
    requires RoomInvariant.Inv(fold, r) && r.battle.None? && SampleRun.LeadsTo(fold, r, running)
    requires running.status == Battling && running.battle.Some? && running.battle.value.id == race.battleId
    requires Fresh(race) && Distinct(RoundIds(race.rounds)) && race.rounds != []
    ensures Begins(fold, ToCome(race, running, playerId, text))
    ensures RoomInvariant.Inv(fold, running) && forall p :: WordsInRoom(Some(running), p) == 0
  {
    NoWordsOnTheWay(fold, r, running);
  }

  lemma PaidInTheNextBattle(fold: Fold, race: WordRace, running: Room, again: Room, playerId: Id, nextId: Id, text: string, now: int)
    returns (actions: seq<Action>)
    requires SampleRun.LeadsTo(fold, running, again) && again.status == Battling && again.battle.Some?
    requires again.battle.value.id == nextId != race.battleId && playerId in again.battle.value.dancerIds && WordsInRoom(Some(again), playerId) == 0
    requires Fresh(race) && Distinct(RoundIds(race.rounds)) && race.rounds != [] && now < race.rounds[0].closesAt
    requires playerId in race.participantIds && Matches(fold, text, race.rounds[0].word)
    ensures CountsElsewhere(Perform(fold, ToCome(race, running, playerId, text), actions), playerId, nextId)
  {
    var id, start := race.rounds[0].id, ToCome(race, running, playerId, text);
    var events: seq<RoomEvents.Event> :| SampleRun.NoBonus(events) && RoomEvents.Run(fold, running, events) == Some(again);
    var claimed := [Save, Show(id)] + [Read(0, now), Claim(0)];
    var won := State(FirstRoundWon(race, playerId, now), true, Own, OneTask(playerId, id, text, WordSubmission.Ended), Some(running), map[], map[], []);
    FirstRoundIsClaimed(fold, race, running, playerId, text, now);
    ActsRun(fold, won, events, again);
    ClaimIsOneWin(race, playerId, now);
    BattleIdStays(race, playerId, now);
    PaidElsewhere(fold, won.(room := Some(again)), playerId, id, text, nextId);
    PerformConcat(fold, start, claimed, Acts(events));
    PerformConcat(fold, start, claimed + Acts(events), [Pay(0)]);
    PerformFirst(fold, won.(room := Some(again)), Pay(0), [], Step(fold, won.(room := Some(again)), Pay(0)));
    assert [Pay(0)] + [] == [Pay(0)];
    actions := claimed + Acts(events) + [Pay(0)];
  }
}
