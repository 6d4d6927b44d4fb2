/** A song challenge cannot go on forever: a measure every change uses up. */
module SelectionProgress {
  import opened Sequences
  import opened Text
  import opened Domain
  import opened SongSelecting
  import opened RoomEvents
  import opened RoomInvariant
  import RoomService

  function PresentSet(r: Room, sel: SongSelection): set<Id> {
    ToSet(sel.participantIds) * IdSet(r.players)
  }

  /** Attempts left plus turns left while the phrase is typed, turns left while a song is chosen. */
  function Work(r: Room): int {
    if !InProgress(r) then 0
    else
      var sel := r.songSelection.value;
      |PresentSet(r, sel)| + (if sel.phase == Typing then |sel.participantIds| - |sel.failedIds| else 0)
  }

  /** A player who left and takes part in the running challenge comes back. */
  predicate Rejoins(r: Room, e: Event) {
    InProgress(r) && e.Join? && e.id in r.songSelection.value.participantIds && !Seated(r.players, e.id)
  }

  /** What an update of a room with a challenge in progress may do: use up work
      whenever the selection changes, and never create any. */
  ghost predicate Advances(r: Room, n: Room) {
    && Work(n) >= 0
    && Work(n) <= Work(r)
    && (n.songSelection != r.songSelection ==> Work(n) < Work(r))
    && (InProgress(r) && InProgress(n) ==>
          && n.songSelection.value.participantIds == r.songSelection.value.participantIds
          && n.songSelection.value.challenge == r.songSelection.value.challenge)
  }

  lemma WorkIsPositive(fold: Fold, r: Room)
    requires Inv(fold, r) && InProgress(r)
    ensures Work(r) >= 1
  {
    var sel := r.songSelection.value;
    if sel.phase == Choosing {
      assert sel.chooserId.value in PresentSet(r, sel);
    }
  }

  lemma FallbackAdvances(fold: Fold, r: Room, sel: SongSelection, reason: ChooserReason, draw: nat, now: int)
    requires Inv(fold, r) && IsTyping(r)
    requires sel == r.songSelection.value.(failedIds := sel.failedIds)
    ensures Advances(r, FallbackChooser(r, sel, reason, draw, now))
  {
    WorkIsPositive(fold, r);
    var n := FallbackChooser(r, sel, reason, draw, now);
    if n.songSelection.Some? {
      assert PresentSet(n, n.songSelection.value) == PresentSet(r, r.songSelection.value);
    }
  }

  lemma SubmitAdvances(fold: Fold, r: Room, playerId: Id, text: string, now: int, draw: nat)
    requires Inv(fold, r) && Submit(r, playerId, text, now, draw).Changed?
    ensures Advances(r, Submit(r, playerId, text, now, draw).room)
  {
    var sel := r.songSelection.value;
    var failed := sel.(failedIds := sel.failedIds + [playerId]);
    var n := Submit(r, playerId, text, now, draw).room;
    WorkIsPositive(fold, r);
    match SubmitVerdict(r, text, now)
    case Expired => FallbackAdvances(fold, r, sel, Timeout, draw, now);
    case Accepted => assert PresentSet(n, n.songSelection.value) == PresentSet(r, sel);
    case Incorrect =>
      if EveryoneFailed(r, failed) {
        FallbackAdvances(fold, r, failed, AllFailed, draw, now);
      } else {
        assert PresentSet(n, failed) == PresentSet(r, sel);
        SubmitKeeps(fold, r, playerId, text, now, draw);
      }
  }

  lemma LeaveAdvances(fold: Fold, r: Room, gone: Id, now: int, draw: nat)
    requires Inv(fold, r) && InProgress(r) && Seated(r.players, gone)
    ensures Advances(r, RoomService.Leave(r, gone, now, draw).room)
  {
    var sel, n := r.songSelection.value, RoomService.Leave(r, gone, now, draw).room;
    var vacated := RoomService.Vacate(r, gone);
    assert n == HandlePlayerLeft(vacated, gone, draw, now);
    WithoutIds(r.players, gone);
    assert IdSet(n.players) == IdSet(r.players) - {gone};
    assert PresentSet(n, sel) == PresentSet(r, sel) - {gone};
    WorkIsPositive(fold, r);
    if IsChoosing(r) && sel.chooserId == Some(gone) {
      assert gone in PresentSet(r, sel);
    }
  }

  lemma SeatsStay(r: Room, n: Room)
    requires InProgress(r) && n.songSelection == r.songSelection
    requires PresentSet(n, r.songSelection.value) == PresentSet(r, r.songSelection.value)
    requires Work(r) >= 0
    ensures Advances(r, n)
  {
  }

  lemma PresentAfterJoin(sel: SongSelection, r: Room, n: Room, id: Id)
    requires Ids(n.players) == Ids(r.players) + [id] && id !in sel.participantIds
    ensures PresentSet(n, sel) == PresentSet(r, sel)
  {
    assert IdSet(n.players) == IdSet(r.players) + {id};
  }

  lemma JoinAdvances(fold: Fold, r: Room, id: Id, displayName: string)
    requires Inv(fold, r) && InProgress(r) && id !in r.songSelection.value.participantIds
    requires RoomService.Join(fold, r, id, displayName).Changed?
    ensures Advances(r, RoomService.Join(fold, r, id, displayName).room)
  {
    var n := RoomService.Join(fold, r, id, displayName).room;
    WorkIsPositive(fold, r);
    PresentAfterJoin(r.songSelection.value, r, n, id);
    SeatsStay(r, n);
  }

  lemma LobbyAdvances(fold: Fold, r: Room, e: Event)
    requires Inv(fold, r) && InProgress(r) && (e.SelectRole? || e.SetReady?)
    ensures var o := Mutate(fold, r, e); o.Changed? ==> Advances(r, o.room)
  {
    var o := Mutate(fold, r, e);
    if o.Changed? {
      WorkIsPositive(fold, r);
      assert Ids(o.room.players) == Ids(r.players);
      SeatsStay(r, o.room);
    }
  }

  lemma StartingKeepsItOver(chosen: Outcome, options: RoomService.StartOptions, battleId: Id)
    requires chosen.Changed? && !InProgress(chosen.room) && StartAfter(chosen, options, battleId).Changed?
    ensures !InProgress(StartAfter(chosen, options, battleId).room)
  {
  }

  lemma ChosenIsOver(r: Room, e: Event)
    requires (e.ChooseSong? || e.AutoPickSong?) && Chosen(r, e).Changed?
    ensures !InProgress(Chosen(r, e).room)
  {
  }

  lemma PickAdvances(fold: Fold, r: Room, e: Event)
    requires Inv(fold, r) && InProgress(r) && (e.ChooseSong? || e.AutoPickSong?) && Mutate(fold, r, e).Changed?
    ensures Advances(r, Mutate(fold, r, e).room)
  {
    ChosenIsOver(r, e);
    StartingKeepsItOver(Chosen(r, e), e.options, e.battleId);
    WorkIsPositive(fold, r);
    ChallengeOver(r, Mutate(fold, r, e).room);
  }

  lemma ChallengeOver(r: Room, n: Room)
    requires Work(r) >= 1 && !InProgress(n)
    ensures Advances(r, n)
  {
  }

  /** What else can act on a room with a challenge in progress. */
  lemma ActsDuringChallenge(fold: Fold, r: Room, e: Event)
    requires Inv(fold, r) && InProgress(r)
    ensures Mutate(fold, r, e).Changed? ==>
              e.Join? || e.SelectRole? || e.SetReady? || e.Leave? || e.Kick? || e.SubmitPhrase? || e.ExpireChallenge?
              || e.ChooseSong? || e.AutoPickSong?
  {
  }

  lemma StepAdvances(fold: Fold, r: Room, e: Event)
    requires Inv(fold, r) && InProgress(r) && !Rejoins(r, e)
    ensures var o := Mutate(fold, r, e); o.Changed? ==> Advances(r, o.room)
  {
    if Mutate(fold, r, e).Changed? {
      ActsDuringChallenge(fold, r, e);
      if e.Join? {
        JoinAdvances(fold, r, e.id, Trim(e.displayName));
      } else if e.SelectRole? || e.SetReady? {
        LobbyAdvances(fold, r, e);
      } else if e.Leave? || e.Kick? {
        LeaveAdvances(fold, r, e.id, e.now, e.draw);
      } else if e.SubmitPhrase? {
        SubmitAdvances(fold, r, e.id, e.text, e.now, e.draw);
      } else if e.ExpireChallenge? {
        FallbackAdvances(fold, r, r.songSelection.value, Timeout, e.draw, e.now);
      } else {
        PickAdvances(fold, r, e);
      }
    }
  }

  /** How often a run changes the selection before the challenge is done or cancelled. */
  function Changes(fold: Fold, r: Room, events: seq<Event>): nat
    decreases |events|
  {
    if events == [] || !InProgress(r) then 0
    else
      var n := Next(fold, r, events[0]);
      if n.None? then 0
      else (if n.value.songSelection != r.songSelection then 1 else 0) + Changes(fold, n.value, events[1..])
  }

  ghost predicate NobodyRejoins(fold: Fold, r: Room, events: seq<Event>)
    decreases |events|
  {
    events != [] ==>
      && !Rejoins(r, events[0])
      && (Next(fold, r, events[0]).Some? ==> NobodyRejoins(fold, Next(fold, r, events[0]).value, events[1..]))
  }

  lemma {:induction false} ChangesAreBounded(fold: Fold, r: Room, events: seq<Event>)
    requires Inv(fold, r) && NobodyRejoins(fold, r, events)
    ensures Work(r) >= 0 && Changes(fold, r, events) <= Work(r)
    decreases |events|
  {
    if InProgress(r) { WorkIsPositive(fold, r); }
    if events != [] && InProgress(r) {
      NextKeeps(fold, r, events[0]);
      StepAdvances(fold, r, events[0]);
      var n := Next(fold, r, events[0]);
      if n.Some? {
        ChangesAreBounded(fold, n.value, events[1..]);
        assert Mutate(fold, r, events[0]).Changed? ==> Work(n.value) == Work(Mutate(fold, r, events[0]).room);
      }
    }
  }

  /** One challenge with n participants changes its selection at most 2n times before
      it is done or cancelled, as long as nobody who left comes back. */
  lemma ChallengeTerminates(fold: Fold, r: Room, now: int, options: ChallengeOptions, challengeId: Id, draw: nat, events: seq<Event>)
    requires Inv(fold, r) && Start(r, now, options, challengeId, draw).Changed?
    requires NobodyRejoins(fold, Start(r, now, options, challengeId, draw).room, events)
    ensures var started := Start(r, now, options, challengeId, draw).room;
            Changes(fold, started, events) <= 2 * |started.songSelection.value.participantIds|
  {
    StartKeeps(fold, r, now, options, challengeId, draw);
    var started := Start(r, now, options, challengeId, draw).room;
    ChangesAreBounded(fold, started, events);
    var ids := started.songSelection.value.participantIds;
    DistinctBySize(ids);
    SubsetSize(PresentSet(started, started.songSelection.value), ToSet(ids));
  }

  /** The chooser of n is a participant still in the room, and one who misspelled only
      if every participant still in the room did. */
  ghost predicate EntitledChooser(n: Room) {
    IsChoosing(n) ==>
      var sel := n.songSelection.value;
      && sel.chooserId.Some? && sel.chooserId.value in sel.participantIds && Seated(n.players, sel.chooserId.value)
      && (sel.chooserId.value in sel.failedIds ==> EveryoneFailed(n, sel))
  }

  lemma SubmitEntitles(fold: Fold, r: Room, e: Event)
    requires e.SubmitPhrase? || e.ExpireChallenge?
    requires Mutate(fold, r, e).Changed?
    ensures EntitledChooser(Mutate(fold, r, e).room)
  {
  }

  lemma LeaveEntitles(fold: Fold, r: Room, e: Event)
    requires Inv(fold, r) && InProgress(r) && (e.Leave? || e.Kick?) && Mutate(fold, r, e).Changed?
    ensures var n := Mutate(fold, r, e).room; EntitledChooser(n) || n.songSelection == r.songSelection
  {
    assert Mutate(fold, r, e).room == HandlePlayerLeft(RoomService.Vacate(r, e.id), e.id, e.draw, e.now);
  }

  lemma OthersKeepChooser(fold: Fold, r: Room, e: Event)
    requires Inv(fold, r) && InProgress(r) && Mutate(fold, r, e).Changed?
    requires e.Join? || e.SelectRole? || e.SetReady? || e.ChooseSong? || e.AutoPickSong?
    ensures var n := Mutate(fold, r, e).room; !IsChoosing(n) || n.songSelection == r.songSelection
  {
  }

  /** Whoever an update makes the chooser is entitled to it. */
  lemma ChooserIsEntitled(fold: Fold, r: Room, e: Event)
    requires Inv(fold, r) && Mutate(fold, r, e).Changed?
    ensures EntitledChooser(Mutate(fold, r, e).room) || Mutate(fold, r, e).room.songSelection == r.songSelection
  {
    if !InProgress(r) {
      IdleStaysIdle(fold, r, e);
    } else {
      ActsDuringChallenge(fold, r, e);
      if e.SubmitPhrase? || e.ExpireChallenge? {
        SubmitEntitles(fold, r, e);
      } else if e.Leave? || e.Kick? {
        LeaveEntitles(fold, r, e);
      } else {
        OthersKeepChooser(fold, r, e);
      }
    }
  }

  /** The moment of an update that can pass the turn on. */
  function TurnPassedAt(e: Event): Option<int> {
    match e
    case SubmitPhrase(_, _, now, _) => Some(now)
    case ExpireChallenge(_, now, _) => Some(now)
    case Leave(_, now, _) => Some(now)
    case Kick(_, _, now, _) => Some(now)
    case _ => None
  }

  /** The chooser of a room has the whole choosing time left at a given moment. */
  ghost predicate FullTime(r: Room, n: Room, now: Option<int>) {
    IsChoosing(n) ==>
      && r.songSelection.Some? && now.Some?
      && n.songSelection.value.chooseDeadline == Some(now.value + r.songSelection.value.chooseMs)
  }

  lemma PassingGivesTime(r: Room, room: Room, sel: SongSelection, reason: ChooserReason, draw: nat, now: int)
    requires r.songSelection.Some? && sel.chooseMs == r.songSelection.value.chooseMs
    ensures FullTime(r, FallbackChooser(room, sel, reason, draw, now), Some(now))
  {
  }

  lemma PhraseGivesTime(r: Room, id: Id, text: string, now: int, draw: nat)
    requires Submit(r, id, text, now, draw).Changed?
    ensures FullTime(r, Submit(r, id, text, now, draw).room, Some(now))
  {
    var sel := r.songSelection.value;
    PassingGivesTime(r, r, sel, Timeout, draw, now);
    PassingGivesTime(r, r, sel.(failedIds := sel.failedIds + [id]), AllFailed, draw, now);
  }

  lemma SubmitGivesTime(fold: Fold, r: Room, e: Event)
    requires (e.SubmitPhrase? || e.ExpireChallenge?) && Mutate(fold, r, e).Changed?
    ensures FullTime(r, Mutate(fold, r, e).room, TurnPassedAt(e))
  {
    if e.SubmitPhrase? {
      PhraseGivesTime(r, e.id, e.text, e.now, e.draw);
    } else {
      PassingGivesTime(r, r, r.songSelection.value, Timeout, e.draw, e.now);
    }
  }

  lemma LeftGivesTime(r: Room, id: Id, draw: nat, now: int)
    ensures var n := HandlePlayerLeft(RoomService.Vacate(r, id), id, draw, now);
            FullTime(r, n, Some(now)) || n.songSelection == r.songSelection
  {
    var left := RoomService.Vacate(r, id);
    if IsChoosing(left) { PassingGivesTime(r, left, r.songSelection.value, ChooserLeft, draw, now); }
  }

  lemma LeaveGivesTime(fold: Fold, r: Room, e: Event)
    requires Inv(fold, r) && InProgress(r) && (e.Leave? || e.Kick?) && Mutate(fold, r, e).Changed?
    ensures var n := Mutate(fold, r, e).room; FullTime(r, n, TurnPassedAt(e)) || n.songSelection == r.songSelection
  {
    LeftGivesTime(r, e.id, e.draw, e.now);
    assert Mutate(fold, r, e).room == HandlePlayerLeft(RoomService.Vacate(r, e.id), e.id, e.draw, e.now);
  }

  /** Whoever a phrase, an expiry or a departure hands the turn to, also from a chooser who
      left, gets the whole choosing time counted from that update; no other update moves
      the deadline of a turn. */
  lemma ChooserGetsFullTime(fold: Fold, r: Room, e: Event)
    requires Inv(fold, r) && Mutate(fold, r, e).Changed?
    ensures var n := Mutate(fold, r, e).room; FullTime(r, n, TurnPassedAt(e)) || n.songSelection == r.songSelection
  {
    if !InProgress(r) {
      IdleStaysIdle(fold, r, e);
    } else {
      ActsDuringChallenge(fold, r, e);
      if e.SubmitPhrase? || e.ExpireChallenge? {
        SubmitGivesTime(fold, r, e);
      } else if e.Leave? || e.Kick? {
        LeaveGivesTime(fold, r, e);
      } else {
        OthersKeepChooser(fold, r, e);
      }
    }
  }

  lemma IdleStaysIdle(fold: Fold, r: Room, e: Event)
    requires Inv(fold, r) && !InProgress(r) && Mutate(fold, r, e).Changed?
    ensures !IsChoosing(Mutate(fold, r, e).room)
  {
  }

  // ----- what is not promised -----

  /** A timer of the chooser or of the battle changes nothing before its deadline. The timer
      of the phrase does not look at the deadline again: it resolves the challenge it was
      set for whenever it fires. */
  lemma TimersLookAgain(fold: Fold, r: Room, e: Event)
    requires e.AutoPickSong? || e.FinishAtDeadline? || e.ExpireChallenge?
    ensures var o := Mutate(fold, r, e);
            && (e.AutoPickSong? && o.Changed? ==> AutoPickDue(r, e.challengeId, e.options.now))
            && (e.FinishAtDeadline? && o.Changed? ==>
                  r.battle.Some? && r.battle.value.id == e.battleId && e.now >= r.battle.value.endsAt)
            && (e.ExpireChallenge? ==> (o.Changed? <==> IsTyping(r) && r.songSelection.value.challenge.id == e.challengeId))
  {
  }

  /** So a phrase can time out before its time is up: then a chooser is named, for the
      reason of a timeout, although the participant could still have typed. */
  lemma PhraseCanTimeOutEarly(fold: Fold, r: Room, draw: nat)
    requires Inv(fold, r) && IsTyping(r) && PresentSet(r, r.songSelection.value) != {}
    ensures var sel := r.songSelection.value;
            var early := sel.challenge.expiresAt - 1;
            var n := Next(fold, r, ExpireChallenge(sel.challenge.id, early, draw));
            && n.Some? && IsChoosing(n.value) && n.value.songSelection.value.chooserReason == Some(Timeout)
  {
    var id :| id in PresentSet(r, r.songSelection.value);
    assert id in r.songSelection.value.participantIds && Seated(r.players, id);
  }

  /** While a phrase is typed a departure only takes the leaver away. Afterwards someone can
      still type it exactly if another participant in the room has not failed; otherwise
      the challenge waits for its timer. */
  lemma DepartureCanStrandTheChallenge(fold: Fold, r: Room, gone: Id, now: int, draw: nat)
    requires Inv(fold, r) && IsTyping(r) && Seated(r.players, gone)
    ensures var sel, o := r.songSelection.value, RoomService.Leave(r, gone, now, draw);
            && o.Changed? && o.room.songSelection == r.songSelection
            && (EveryoneFailed(o.room, sel) <==>
                  forall id :: id in sel.participantIds && Seated(r.players, id) && id != gone ==> id in sel.failedIds)
  {
    WithoutIds(r.players, gone);
    assert forall id :: Seated(Without(r.players, gone), id) <==> Seated(r.players, id) && id != gone;
  }
}
