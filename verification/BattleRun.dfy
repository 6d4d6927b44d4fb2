/** Single steps of a running and of a finished battle, and what follows for its
    end, its votes and its final table. */
module BattleRun {
  import opened Sequences
  import opened Text
  import opened Domain
  import opened RoomService
  import opened RoomEvents
  import opened RoomInvariant
  import SongSelecting
  import Scoring

  // ----- one step -----

  /** A departure takes the leaver's vote, the votes for them and their place. */
  ghost predicate Departs(r: Room, n: Room, gone: Id)
    requires r.battle.Some? && n.battle.Some?
  {
    var b, c := r.battle.value, n.battle.value;
    && IdSet(n.players) == IdSet(r.players) - {gone}
    && c.dancerIds == Drop(b.dancerIds, gone)
    && c.votes == VotesWithout(b.votes, gone)
    && c.wordsWon == b.wordsWon
  }

  ghost predicate SameContest(b: Battle, c: Battle) {
    && c.id == b.id && c.roster == b.roster && c.audience == b.audience && c.song == b.song
    && c.scoring == b.scoring && c.startedAt == b.startedAt && c.endsAt == b.endsAt
  }

  lemma LobbyActsRefused(fold: Fold, r: Room, e: Event)
    requires r.status != Waiting && r.players != []
    requires e.Join? || e.SelectRole? || e.SetReady? || e.Kick? || e.StartBattle? || e.StartChallenge? || e.DeleteIfEmpty?
    ensures Next(fold, r, e) == Some(r)
  {
  }

  lemma SelectionActsRefused(fold: Fold, r: Room, e: Event)
    requires !SongSelecting.InProgress(r)
    requires e.SubmitPhrase? || e.ExpireChallenge? || e.ChooseSong? || e.AutoPickSong?
    ensures Next(fold, r, e) == Some(r)
  {
  }

  lemma BattleActsRefused(fold: Fold, r: Room, e: Event)
    requires r.status == Finished && (e.AwardWordBonus? || e.CastVote? || e.FinishAtDeadline?)
    ensures Next(fold, r, e) == Some(r)
  {
  }

  /** Outside the lobby only departures, the running battle's own events and, once it
      is finished, a rematch do anything. */
  lemma ActsOutsideLobby(fold: Fold, r: Room, e: Event)
    requires Inv(fold, r) && r.status != Waiting && !e.Leave?
    requires r.status == Battling ==> !e.AwardWordBonus? && !e.CastVote? && !e.FinishAtDeadline?
    requires r.status == Finished ==> !e.Rematch?
    ensures Next(fold, r, e) == Some(r)
  {
    if e.SubmitPhrase? || e.ExpireChallenge? || e.ChooseSong? || e.AutoPickSong? {
      SelectionActsRefused(fold, r, e);
    } else if e.AwardWordBonus? || e.CastVote? || e.FinishAtDeadline? {
      BattleActsRefused(fold, r, e);
    } else if !e.Rematch? {
      LobbyActsRefused(fold, r, e);
    }
  }

  lemma LeaveWhileRunning(fold: Fold, r: Room, gone: Id, now: int, draw: nat)
    requires Inv(fold, r) && r.status == Battling && Seated(r.players, gone)
    ensures var o := RoomService.Leave(r, gone, now, draw);
            && o.Changed? && o.room.players != []
            && o.room.battle.Some?
            && SameContest(r.battle.value, o.room.battle.value)
            && Departs(r, o.room, gone)
            && (o.room.status == Battling || o.room.status == Finished)
            && (o.room.status == Battling ==> o.room.lastResult == r.lastResult)
  {
    LeaveKeepsRunning(fold, r, gone, now);
    VacatedSeats(fold, r, gone);
    assert !SongSelecting.InProgress(r);
  }

  /** The same people and dancers, and no vote lost or moved but by an accepted vote. */
  ghost predicate StaysPut(r: Room, n: Room, e: Event)
    requires r.battle.Some? && n.battle.Some?
  {
    && n.players == r.players && n.spectators == r.spectators
    && n.battle.value.dancerIds == r.battle.value.dancerIds
    && ((e.CastVote? && CanVote(r, e.id, e.choice, e.now)) || n.battle.value.votes == r.battle.value.votes)
    && (e.AwardWordBonus? || n.battle.value.wordsWon == r.battle.value.wordsWon)
  }

  /** From a running battle an update leads to the same battle, running or finished,
      and touches it only by an accepted departure, word win, vote or deadline. */
  ghost predicate Continues(r: Room, n: Room, e: Event)
    requires r.battle.Some?
  {
    && n.battle.Some?
    && SameContest(r.battle.value, n.battle.value)
    && (n.status == Battling || n.status == Finished)
    && (if e.Leave? && Seated(r.players, e.id) then Departs(r, n, e.id) else StaysPut(r, n, e))
    && (n.status == Battling ==> n.lastResult == r.lastResult)
  }

  lemma NextAfterChange(fold: Fold, r: Room, e: Event, n: Room)
    requires Mutate(fold, r, e) == Changed(n) && r.battle.Some? && Continues(r, n, e)
    ensures Next(fold, r, e) == Some(n.(version := r.version + 1)) && Continues(r, Next(fold, r, e).value, e)
  {
  }

  lemma LeaveIsTheChange(fold: Fold, r: Room, e: Event)
    requires e.Leave? && Seated(r.players, e.id) && RoomService.Leave(r, e.id, e.now, e.draw).room.players != []
    ensures Mutate(fold, r, e) == RoomService.Leave(r, e.id, e.now, e.draw)
  {
  }

  lemma LeaveContinues(fold: Fold, r: Room, e: Event)
    requires Inv(fold, r) && r.status == Battling && e.Leave? && Seated(r.players, e.id)
    ensures var n := Next(fold, r, e); n.Some? && Continues(r, n.value, e)
  {
    LeaveWhileRunning(fold, r, e.id, e.now, e.draw);
    LeaveIsTheChange(fold, r, e);
    NextAfterChange(fold, r, e, RoomService.Leave(r, e.id, e.now, e.draw).room);
  }

  lemma LeaveOfStranger(fold: Fold, r: Room, e: Event)
    requires e.Leave? && !Seated(r.players, e.id)
    ensures Next(fold, r, e) == Some(r)
  {
  }

  lemma VoteContinues(fold: Fold, r: Room, e: Event)
    requires Inv(fold, r) && r.status == Battling && e.CastVote?
    ensures var n := Next(fold, r, e); n.Some? && Continues(r, n.value, e) && n.value.status == Battling
  {
    var o := RoomService.CastVote(r, e.id, e.choice, e.now);
    assert Mutate(fold, r, e) == o;
  }

  lemma AwardContinues(fold: Fold, r: Room, e: Event)
    requires Inv(fold, r) && r.status == Battling && e.AwardWordBonus?
    ensures var n := Next(fold, r, e); n.Some? && Continues(r, n.value, e) && n.value.status == Battling
  {
    var o := RoomService.AwardWordBonus(r, e.id);
    assert Mutate(fold, r, e) == o;
  }

  lemma DeadlineContinues(fold: Fold, r: Room, e: Event)
    requires Inv(fold, r) && r.status == Battling && e.FinishAtDeadline?
    ensures var n := Next(fold, r, e); n.Some? && Continues(r, n.value, e)
  {
  }

  lemma RunningStep(fold: Fold, r: Room, e: Event)
    requires Inv(fold, r) && r.status == Battling
    ensures var n := Next(fold, r, e); n.Some? && Continues(r, n.value, e)
  {
    if e.Leave? {
      if Seated(r.players, e.id) { LeaveContinues(fold, r, e); } else { LeaveOfStranger(fold, r, e); }
    } else if e.CastVote? {
      VoteContinues(fold, r, e);
    } else if e.AwardWordBonus? {
      AwardContinues(fold, r, e);
    } else if e.FinishAtDeadline? {
      DeadlineContinues(fold, r, e);
    } else {
      ActsOutsideLobby(fold, r, e);
    }
  }

  // ----- the end of a battle is reported once -----

  /** The flag a use case hands to whoever announces the end of a battle. */
  predicate Reports(r: Room, e: Event) {
    match e
    case Leave(id, now, draw) =>
      var o := RoomService.Leave(r, id, now, draw);
      o.Changed? && r.status == Battling && o.room.status == Finished
    case FinishAtDeadline(battleId, now) =>
      r.battle.Some? && r.battle.value.id == battleId && RoomService.FinishAtDeadline(r, now).Changed?
    case _ => false
  }

  lemma LeaveReports(fold: Fold, r: Room, e: Event)
    requires Inv(fold, r) && e.Leave?
    ensures Reports(r, e) <==>
              r.status == Battling && Next(fold, r, e).Some? && Next(fold, r, e).value.status == Finished
  {
    if r.status == Battling && Seated(r.players, e.id) {
      LeaveWhileRunning(fold, r, e.id, e.now, e.draw);
      LeaveIsTheChange(fold, r, e);
    }
  }

  lemma DeadlineReports(fold: Fold, r: Room, e: Event)
    requires Inv(fold, r) && e.FinishAtDeadline?
    ensures Reports(r, e) <==>
              r.status == Battling && Next(fold, r, e).Some? && Next(fold, r, e).value.status == Finished
  {
  }

  /** An end is reported exactly when the stored status really moves to finished. */
  lemma ReportedExactlyWhenFinished(fold: Fold, r: Room, e: Event)
    requires Inv(fold, r)
    ensures Reports(r, e) <==>
              r.status == Battling && Next(fold, r, e).Some? && Next(fold, r, e).value.status == Finished
  {
    if e.Leave? {
      LeaveReports(fold, r, e);
    } else if e.FinishAtDeadline? {
      DeadlineReports(fold, r, e);
    } else if r.status == Battling {
      if e.CastVote? {
        VoteContinues(fold, r, e);
      } else if e.AwardWordBonus? {
        AwardContinues(fold, r, e);
      } else {
        ActsOutsideLobby(fold, r, e);
      }
    }
  }

  lemma LeaveRecordsItsEnd(fold: Fold, r: Room, gone: Id, now: int, draw: nat)
    requires Inv(fold, r) && r.status == Battling && Seated(r.players, gone)
    ensures var o := RoomService.Leave(r, gone, now, draw);
            && o.Changed? && o.room.battle.Some?
            && (o.room.status == Finished <==> |Drop(r.battle.value.dancerIds, gone)| < MIN_DANCERS_PER_BATTLE)
            && (o.room.status == Finished ==>
                  o.room.battle.value.finishedAt == Some(now) && o.room.battle.value.endReason == Some(NotEnoughDancers))
  {
    assert !SongSelecting.InProgress(r);
  }

  /** A reported end records the moment and the kind of the update that brought it: the
      end of the song, never early, or a departure that left too few dancers. A departure
      during the countdown thus ends a battle before it started. */
  lemma ReportedEndIsRecorded(fold: Fold, r: Room, e: Event)
    requires Inv(fold, r) && Reports(r, e)
    ensures (e.Leave? || e.FinishAtDeadline?) && r.battle.Some?
    ensures var n := Next(fold, r, e);
            && n.Some? && n.value.battle.Some? && n.value.battle.value.finishedAt == Some(e.now)
            && (e.FinishAtDeadline? ==>
                  e.now >= r.battle.value.endsAt && n.value.battle.value.endReason == Some(SongEnd))
            && (e.Leave? ==>
                  && n.value.battle.value.endReason == Some(NotEnoughDancers)
                  && |Drop(r.battle.value.dancerIds, e.id)| < MIN_DANCERS_PER_BATTLE)
  {
    if e.Leave? {
      LeaveRecordsItsEnd(fold, r, e.id, e.now, e.draw);
      LeaveWhileRunning(fold, r, e.id, e.now, e.draw);
      LeaveIsTheChange(fold, r, e);
    }
  }

  lemma RemovedByTheLastLeaver(fold: Fold, r: Room, e: Event)
    requires Inv(fold, r) && Mutate(fold, r, e).Removed?
    ensures e.Leave? && Seated(r.players, e.id) && Without(r.players, e.id) == []
  {
  }

  /** Deleting a room never ends a battle: whoever announces a deleted room drops no finish. */
  lemma DeletionEndsNoBattle(fold: Fold, r: Room, e: Event)
    requires Inv(fold, r) && Next(fold, r, e).None?
    ensures r.status != Battling && !Reports(r, e)
    ensures e.Leave? && IdSet(r.players) == {e.id}
  {
    RemovedByTheLastLeaver(fold, r, e);
    if r.status == Battling { RunningStep(fold, r, e); }
    WithoutIds(r.players, e.id);
    DroppedAll(Ids(r.players), e.id);
  }

  function RunningNow(r: Room, battleId: Id): nat {
    if r.status == Battling && r.battle.Some? && r.battle.value.id == battleId then 1 else 0
  }

  /** How many updates of a run report the end of battle `battleId`. */
  function ReportsOf(fold: Fold, r: Room, events: seq<Event>, battleId: Id): nat
    decreases |events|
  {
    if events == [] then 0
    else
      var here := if Reports(r, events[0]) && r.battle.Some? && r.battle.value.id == battleId then 1 else 0;
      var n := Next(fold, r, events[0]);
      here + (if n.Some? then ReportsOf(fold, n.value, events[1..], battleId) else 0)
  }

  /** How many updates of a run start battle `battleId`. */
  function StartsOf(fold: Fold, r: Room, events: seq<Event>, battleId: Id): nat
    decreases |events|
  {
    if events == [] then 0
    else
      var n := Next(fold, r, events[0]);
      if n.None? then 0
      else
        (if r.status != Battling && RunningNow(n.value, battleId) == 1 then 1 else 0)
        + StartsOf(fold, n.value, events[1..], battleId)
  }

  lemma StepBalance(fold: Fold, r: Room, e: Event, battleId: Id)
    requires Inv(fold, r)
    ensures var n := Next(fold, r, e);
            var reported := if Reports(r, e) && r.battle.Some? && r.battle.value.id == battleId then 1 else 0;
            if n.None? then RunningNow(r, battleId) == 0 && reported == 0
            else
              reported + RunningNow(n.value, battleId)
              == RunningNow(r, battleId) + (if r.status != Battling && RunningNow(n.value, battleId) == 1 then 1 else 0)
  {
    ReportedExactlyWhenFinished(fold, r, e);
    if r.status == Battling {
      RunningStep(fold, r, e);
    } else if Next(fold, r, e).None? {
      DeletionEndsNoBattle(fold, r, e);
    }
  }

  /** Every battle that starts is reported as ended exactly once or is still running:
      over any run, reports plus running equal starts plus initially running. A
      battle whose id is used for one start is therefore reported at most once. */
  lemma {:induction false} EndsAreConserved(fold: Fold, r: Room, events: seq<Event>, battleId: Id)
    requires Inv(fold, r)
    ensures var n := Run(fold, r, events);
            ReportsOf(fold, r, events, battleId) + (if n.Some? then RunningNow(n.value, battleId) else 0)
            == StartsOf(fold, r, events, battleId) + RunningNow(r, battleId)
    decreases |events|
  {
    if events != [] {
      StepBalance(fold, r, events[0], battleId);
      NextKeeps(fold, r, events[0]);
      var n := Next(fold, r, events[0]);
      if n.Some? { EndsAreConserved(fold, n.value, events[1..], battleId); }
    }
  }

  /** An end for lack of dancers leaves exactly one dancer, and that dancer wins. */
  lemma LastDancerStanding(fold: Fold, r: Room)
    requires Inv(fold, r) && r.status == Finished && r.battle.value.endReason == Some(NotEnoughDancers)
    ensures |r.battle.value.dancerIds| == 1
    ensures r.battle.value.result.value.winnerId == Some(r.battle.value.dancerIds[0])
    ensures r.lastResult == r.battle.value.result
  {
    var b := r.battle.value;
    Scoring.LastDancerWins(b);
  }

  // ----- votes -----

  /** A vote accepted by the room: cast, moved or (with no choice) withdrawn. */
  datatype Ballot = Ballot(voter: Id, choice: Option<Id>, at: int)

  function Accepted(r: Room, e: Event): seq<Ballot> {
    if e.CastVote? && CanVote(r, e.id, e.choice, e.now) then [Ballot(e.id, e.choice, e.now)] else []
  }

  /** The votes a run of updates accepts, in order. */
  function Ballots(fold: Fold, r: Room, events: seq<Event>): seq<Ballot>
    decreases |events|
  {
    if events == [] then []
    else
      var n := Next(fold, r, events[0]);
      Accepted(r, events[0]) + (if n.Some? then Ballots(fold, n.value, events[1..]) else [])
  }

  /** One voter's choices, in the order they were accepted. */
  function ChoicesOf(ballots: seq<Ballot>, voter: Id): seq<Option<Id>> {
    if ballots == [] then []
    else (if ballots[0].voter == voter then [ballots[0].choice] else []) + ChoicesOf(ballots[1..], voter)
  }

  function LastChoice(before: Option<Id>, choices: seq<Option<Id>>): Option<Id> {
    if choices == [] then before else choices[|choices| - 1]
  }

  /** A choice counts while the voter and the dancer are both still in. */
  function CountedChoice(r: Room, voter: Id, choice: Option<Id>): Option<Id>
    requires r.battle.Some?
  {
    if choice.Some? && Seated(r.players, voter) && choice.value in r.battle.value.dancerIds then choice else None
  }

  /** The battle runs from the first to the last state of the run. */
  ghost predicate StaysBattling(fold: Fold, r: Room, events: seq<Event>)
    decreases |events|
  {
    && r.status == Battling
    && (events != [] ==> Next(fold, r, events[0]).Some? && StaysBattling(fold, Next(fold, r, events[0]).value, events[1..]))
  }

  lemma DepartureStep(r: Room, n: Room, gone: Id, voter: Id, choice: Option<Id>)
    requires r.battle.Some? && n.battle.Some? && Departs(r, n, gone)
    requires VoteOf(r, voter) == CountedChoice(r, voter, choice)
    ensures VoteOf(n, voter) == CountedChoice(n, voter, choice)
  {
    assert Seated(n.players, voter) <==> voter in IdSet(n.players);
    assert Seated(r.players, voter) <==> voter in IdSet(r.players);
  }

  lemma BallotStep(fold: Fold, r: Room, e: Event, voter: Id, choice: Option<Id>)
    requires Inv(fold, r) && r.status == Battling && e.CastVote? && CanVote(r, e.id, e.choice, e.now)
    requires VoteOf(r, voter) == CountedChoice(r, voter, choice)
    ensures var n := Next(fold, r, e);
            && n.Some? && n.value.battle.Some?
            && VoteOf(n.value, voter) == CountedChoice(n.value, voter, if e.id == voter then e.choice else choice)
  {
    SpectatorsAreSeated(r, e.id);
    NextOfVote(fold, r, e);
    BallotMoves(r, e, voter, choice);
  }

  lemma BallotMoves(r: Room, e: Event, voter: Id, choice: Option<Id>)
    requires e.CastVote? && CanVote(r, e.id, e.choice, e.now) && Seated(r.players, e.id)
    requires VoteOf(r, voter) == CountedChoice(r, voter, choice)
    ensures var o, latest := RoomService.CastVote(r, e.id, e.choice, e.now), if e.id == voter then e.choice else choice;
            && (o.Changed? ==> o.room.battle.Some? && VoteOf(o.room, voter) == CountedChoice(o.room, voter, latest))
            && (!o.Changed? ==> VoteOf(r, voter) == CountedChoice(r, voter, latest))
  {
  }

  lemma NextOfVote(fold: Fold, r: Room, e: Event)
    requires e.CastVote?
    ensures var o := RoomService.CastVote(r, e.id, e.choice, e.now);
            Next(fold, r, e) == Some(if o.Changed? then o.room.(version := r.version + 1) else r)
  {
  }

  lemma OtherStep(fold: Fold, r: Room, e: Event, voter: Id, choice: Option<Id>)
    requires Inv(fold, r) && r.status == Battling && Accepted(r, e) == []
    requires VoteOf(r, voter) == CountedChoice(r, voter, choice)
    ensures var n := Next(fold, r, e);
            n.Some? && n.value.battle.Some? && VoteOf(n.value, voter) == CountedChoice(n.value, voter, choice)
  {
    RunningStep(fold, r, e);
    if e.Leave? && Seated(r.players, e.id) {
      DepartureStep(r, Next(fold, r, e).value, e.id, voter, choice);
    }
  }

  lemma VoteStep(fold: Fold, r: Room, e: Event, voter: Id, choice: Option<Id>)
    requires Inv(fold, r) && r.status == Battling
    requires VoteOf(r, voter) == CountedChoice(r, voter, choice)
    ensures var n := Next(fold, r, e);
            && n.Some? && n.value.battle.Some?
            && VoteOf(n.value, voter) == CountedChoice(n.value, voter, LastChoice(choice, ChoicesOf(Accepted(r, e), voter)))
  {
    var ballots := Accepted(r, e);
    if ballots != [] {
      assert ballots[1..] == [];
      assert ChoicesOf(ballots, voter) == if e.id == voter then [e.choice] else [];
      BallotStep(fold, r, e, voter, choice);
    } else {
      OtherStep(fold, r, e, voter, choice);
    }
  }

  lemma {:induction false} ChoicesOfBoth(a: seq<Ballot>, b: seq<Ballot>, voter: Id)
    ensures ChoicesOf(a + b, voter) == ChoicesOf(a, voter) + ChoicesOf(b, voter)
  {
    if a == [] {
      assert a + b == b;
    } else {
      var first := if a[0].voter == voter then [a[0].choice] else [];
      assert (a + b)[1..] == a[1..] + b && (a + b)[0] == a[0];
      ChoicesOfBoth(a[1..], b, voter);
      assert first + (ChoicesOf(a[1..], voter) + ChoicesOf(b, voter))
          == (first + ChoicesOf(a[1..], voter)) + ChoicesOf(b, voter);
    }
  }

  /** No vote is lost or kept wrongly: while the battle runs, each voter's stored vote
      is their last accepted choice if the voter and the dancer are both still in,
      and nothing otherwise, however the votes and departures interleave. */
  lemma {:induction false} VoteIsLastChoice(fold: Fold, r: Room, events: seq<Event>, voter: Id, before: Option<Id>)
    requires Inv(fold, r) && StaysBattling(fold, r, events)
    requires VoteOf(r, voter) == CountedChoice(r, voter, before)
    ensures var n := Run(fold, r, events);
            && n.Some? && n.value.battle.Some?
            && VoteOf(n.value, voter)
               == CountedChoice(n.value, voter, LastChoice(before, ChoicesOf(Ballots(fold, r, events), voter)))
    decreases |events|
  {
    if events != [] {
      var e, n := events[0], Next(fold, r, events[0]).value;
      NextKeeps(fold, r, e);
      VoteStep(fold, r, e, voter, before);
      var now := LastChoice(before, ChoicesOf(Accepted(r, e), voter));
      VoteIsLastChoice(fold, n, events[1..], voter, now);
      ChoicesOfBoth(Accepted(r, e), Ballots(fold, n, events[1..]), voter);
    } else {
      assert ChoicesOf([], voter) == [];
    }
  }

  lemma {:induction false} DancersWhoStayed(fold: Fold, r: Room, events: seq<Event>)
    requires Inv(fold, r) && StaysBattling(fold, r, events)
    ensures var n := Run(fold, r, events);
            && n.Some? && n.value.battle.Some? && IdSet(n.value.players) <= IdSet(r.players)
            && SameContest(r.battle.value, n.value.battle.value)
            && n.value.battle.value.dancerIds == Keep(r.battle.value.dancerIds, IdSet(n.value.players))
            && Inv(fold, n.value) && n.value.status == Battling
    decreases |events|
  {
    if events == [] {
      KeepAll(r.battle.value.dancerIds, IdSet(r.players));
    } else {
      var e, n := events[0], Next(fold, r, events[0]).value;
      NextKeeps(fold, r, e);
      RunningStep(fold, r, e);
      DancersWhoStayed(fold, n, events[1..]);
      var last := IdSet(Run(fold, n, events[1..]).value.players);
      if e.Leave? && Seated(r.players, e.id) {
        var ids := r.battle.value.dancerIds;
        DropIsKeep(ids, e.id, ToSet(ids) - {e.id});
        KeepTwice(ids, ToSet(ids) - {e.id}, last);
        KeepSame(ids, (ToSet(ids) - {e.id}) * last, last);
      }
    }
  }

  lemma VotesStandInitially(fold: Fold, r: Room, voter: Id)
    requires Inv(fold, r) && r.status == Battling
    ensures VoteOf(r, voter) == CountedChoice(r, voter, VoteOf(r, voter))
  {
    if VoteOf(r, voter).Some? { SpectatorsAreSeated(r, voter); }
  }

  lemma SameChoicesSameVote(fold: Fold, r: Room, first: seq<Event>, second: seq<Event>, voter: Id)
    requires Inv(fold, r) && StaysBattling(fold, r, first) && StaysBattling(fold, r, second)
    requires ChoicesOf(Ballots(fold, r, first), voter) == ChoicesOf(Ballots(fold, r, second), voter)
    requires Run(fold, r, first).Some? && Run(fold, r, second).Some?
    requires IdSet(Run(fold, r, first).value.players) == IdSet(Run(fold, r, second).value.players)
    ensures VoteOf(Run(fold, r, first).value, voter) == VoteOf(Run(fold, r, second).value, voter)
  {
    var a, b := Run(fold, r, first).value, Run(fold, r, second).value;
    VotesStandInitially(fold, r, voter);
    VoteIsLastChoice(fold, r, first, voter, VoteOf(r, voter));
    VoteIsLastChoice(fold, r, second, voter, VoteOf(r, voter));
    DancersWhoStayed(fold, r, first);
    DancersWhoStayed(fold, r, second);
    assert Seated(a.players, voter) <==> voter in IdSet(a.players);
    assert Seated(b.players, voter) <==> voter in IdSet(b.players);
  }

  /** Two runs that accept the same choices of each voter, in whatever merge, and end
      with the same people present hold the same votes, so every total is the same. */
  lemma MergeOrderIsIrrelevant(fold: Fold, r: Room, first: seq<Event>, second: seq<Event>)
    requires Inv(fold, r) && StaysBattling(fold, r, first) && StaysBattling(fold, r, second)
    requires forall v :: ChoicesOf(Ballots(fold, r, first), v) == ChoicesOf(Ballots(fold, r, second), v)
    requires Run(fold, r, first).Some? && Run(fold, r, second).Some?
    requires IdSet(Run(fold, r, first).value.players) == IdSet(Run(fold, r, second).value.players)
    ensures var a, b := Run(fold, r, first).value, Run(fold, r, second).value;
            && a.battle.Some? && b.battle.Some?
            && a.battle.value.votes == b.battle.value.votes
            && forall d :: Scoring.VotesFor(a.battle.value, d) == Scoring.VotesFor(b.battle.value, d)
  {
    forall v ensures VoteOf(Run(fold, r, first).value, v) == VoteOf(Run(fold, r, second).value, v) {
      SameChoicesSameVote(fold, r, first, second, v);
    }
    BattleStays(fold, r, first);
    BattleStays(fold, r, second);
    SameVotesSameTotals(Run(fold, r, first).value, Run(fold, r, second).value);
  }

  lemma BattleStays(fold: Fold, r: Room, events: seq<Event>)
    requires Inv(fold, r) && StaysBattling(fold, r, events) && Run(fold, r, events).Some?
    ensures Run(fold, r, events).value.battle.Some?
  {
    DancersWhoStayed(fold, r, events);
  }

  lemma SameVotesSameTotals(a: Room, b: Room)
    requires a.battle.Some? && b.battle.Some? && forall v :: VoteOf(a, v) == VoteOf(b, v)
    ensures a.battle.value.votes == b.battle.value.votes
    ensures forall d :: Scoring.VotesFor(a.battle.value, d) == Scoring.VotesFor(b.battle.value, d)
  {
    var x, y := a.battle.value.votes, b.battle.value.votes;
    assert forall v :: v in x ==> VoteOf(a, v) == Some(x[v]);
    assert forall v :: v in y ==> VoteOf(b, v) == Some(y[v]);
    assert forall v :: v in x ==> VoteOf(b, v).Some? && v in y && y[v] == x[v];
    assert forall v :: v in y ==> VoteOf(a, v).Some? && v in x;
    assert x == y;
  }

  // ----- the final table -----

  ghost predicate StaysFinal(r: Room, n: Room) {
    && n.lastResult == r.lastResult
    && (n.status == Finished ==> n.battle == r.battle)
    && (n.status == Finished || n.status == Waiting)
  }

  lemma LeaveWhenFinished(fold: Fold, r: Room, e: Event)
    requires Inv(fold, r) && r.status == Finished && e.Leave?
    ensures var n := Next(fold, r, e); n.Some? ==> StaysFinal(r, n.value) && n.value.status == Finished
  {
    assert !SongSelecting.InProgress(r);
  }

  lemma RematchWhenFinished(fold: Fold, r: Room, e: Event)
    requires Inv(fold, r) && r.status == Finished && e.Rematch?
    ensures var n := Next(fold, r, e); n.Some? && StaysFinal(r, n.value) && (n.value.status == Waiting <==> e.requesterId == r.hostId)
  {
  }

  /** Nothing but a rematch by the host touches a finished battle, and nothing its result. */
  lemma FinishedStep(fold: Fold, r: Room, e: Event)
    requires Inv(fold, r) && r.status == Finished
    ensures var n := Next(fold, r, e);
            n.Some? ==> StaysFinal(r, n.value) && (n.value.status == Waiting <==> e.Rematch? && e.requesterId == r.hostId)
  {
    if e.Leave? {
      LeaveWhenFinished(fold, r, e);
    } else if e.Rematch? {
      RematchWhenFinished(fold, r, e);
    } else {
      ActsOutsideLobby(fold, r, e);
    }
  }

  /** A battle at its start: nobody has voted or won a word. */
  ghost predicate Untouched(n: Room) {
    n.battle.Some? ==> n.battle.value.votes == map[] && forall id :: Scoring.WordsWonBy(n.battle.value, id) == 0
  }

  ghost predicate StaysOpen(r: Room, n: Room) {
    && n.lastResult == r.lastResult && (n.status == Waiting || n.status == Battling)
    && Untouched(n)
  }

  lemma SeatActsStayOpen(fold: Fold, r: Room, e: Event)
    requires Inv(fold, r) && r.status == Waiting
    requires e.Join? || e.SelectRole? || e.SetReady? || e.Leave? || e.Kick? || e.DeleteIfEmpty?
    ensures var n := Next(fold, r, e); n.Some? ==> StaysOpen(r, n.value)
  {
  }

  lemma BattleActsStayOpen(fold: Fold, r: Room, e: Event)
    requires Inv(fold, r) && r.status == Waiting
    requires e.StartBattle? || e.AwardWordBonus? || e.CastVote? || e.FinishAtDeadline? || e.Rematch?
    ensures var n := Next(fold, r, e); n.Some? ==> StaysOpen(r, n.value)
  {
  }

  lemma StartAfterStaysOpen(r: Room, chosen: Outcome, options: StartOptions, battleId: Id)
    requires chosen.Changed? ==> chosen.room.status == Waiting && chosen.room.lastResult == r.lastResult && chosen.room.battle.None?
    ensures var o := StartAfter(chosen, options, battleId); o.Changed? ==> StaysOpen(r, o.room)
  {
  }

  lemma PickActsStayOpen(fold: Fold, r: Room, e: Event)
    requires r.status == Waiting && r.battle.None? && (e.ChooseSong? || e.AutoPickSong?)
    ensures var n := Next(fold, r, e); n.Some? ==> StaysOpen(r, n.value)
  {
    var chosen := Chosen(r, e);
    assert chosen.Changed? ==> chosen.room.status == Waiting && chosen.room.lastResult == r.lastResult && chosen.room.battle.None?;
    StartAfterStaysOpen(r, chosen, e.options, e.battleId);
  }

  lemma ChallengeActsStayOpen(fold: Fold, r: Room, e: Event)
    requires r.status == Waiting && r.battle.None? && (e.StartChallenge? || e.SubmitPhrase? || e.ExpireChallenge?)
    ensures var n := Next(fold, r, e); n.Some? ==> StaysOpen(r, n.value)
  {
  }

  lemma LobbyStep(fold: Fold, r: Room, e: Event)
    requires Inv(fold, r) && r.status == Waiting
    ensures var n := Next(fold, r, e); n.Some? ==> StaysOpen(r, n.value)
  {
    if e.StartBattle? || e.AwardWordBonus? || e.CastVote? || e.FinishAtDeadline? || e.Rematch? {
      BattleActsStayOpen(fold, r, e);
    } else if e.StartChallenge? || e.SubmitPhrase? || e.ExpireChallenge? {
      ChallengeActsStayOpen(fold, r, e);
    } else if e.ChooseSong? || e.AutoPickSong? {
      PickActsStayOpen(fold, r, e);
    } else {
      SeatActsStayOpen(fold, r, e);
    }
  }

  /** The last result on show changes only by a battle finishing. */
  lemma LastResultPersists(fold: Fold, r: Room, e: Event)
    requires Inv(fold, r)
    ensures var n := Next(fold, r, e); n.Some? && n.value.lastResult != r.lastResult ==> Reports(r, e)
  {
    match r.status
    case Battling =>
      RunningStep(fold, r, e);
      ReportedExactlyWhenFinished(fold, r, e);
    case Finished => FinishedStep(fold, r, e);
    case Waiting => LobbyStep(fold, r, e);
  }

  ghost predicate NoRematch(fold: Fold, r: Room, events: seq<Event>)
    decreases |events|
  {
    && r.status == Finished
    && (events != [] && Next(fold, r, events[0]).Some? ==> NoRematch(fold, Next(fold, r, events[0]).value, events[1..]))
  }

  /** Until a rematch, the stored result stays what scoring the frozen battle gives. */
  lemma {:induction false} FinalTableIsFinal(fold: Fold, r: Room, events: seq<Event>)
    requires Inv(fold, r) && NoRematch(fold, r, events)
    ensures var n := Run(fold, r, events);
            n.Some? ==>
              && n.value.battle == r.battle
              && n.value.lastResult == r.lastResult == r.battle.value.result == Some(Scoring.ResultOf(r.battle.value))
    decreases |events|
  {
    if events != [] {
      NextKeeps(fold, r, events[0]);
      FinishedStep(fold, r, events[0]);
      var n := Next(fold, r, events[0]);
      if n.Some? { FinalTableIsFinal(fold, n.value, events[1..]); }
    }
  }

  // ----- what clients are sent -----

  datatype BattleDto = BattleDto(battle: Battle, startsInMs: int, endsInMs: Option<int>,
                                 standings: seq<Domain.Standing>, voteCounts: map<Id, nat>)

  function CountsFrom(standings: seq<Domain.Standing>): (r: map<Id, nat>)
    ensures forall id :: id in r <==> id in Scoring.StandingIds(standings)
  {
    if standings == [] then map[]
    else
      assert forall k :: 0 <= k < |standings| - 1 ==> Scoring.StandingIds(standings)[k] == Scoring.StandingIds(standings[..|standings| - 1])[k];
      assert Scoring.StandingIds(standings) == Scoring.StandingIds(standings[..|standings| - 1]) + [standings[|standings| - 1].dancerId];
      CountsFrom(standings[..|standings| - 1])[standings[|standings| - 1].dancerId := standings[|standings| - 1].votes]
  }

  /** The battle as sent: without the votes, with the table and the totals. */
  function ToBattleDto(b: Battle, running: bool, at: int): BattleDto {
    var standings := if b.result.Some? then b.result.value.standings else Scoring.Standings(b, b.scoring);
    BattleDto(b.(votes := map[]), b.startedAt - at, if running then Some(b.endsAt - at) else None,
              standings, CountsFrom(standings))
  }

  lemma {:induction false} CountsAreVotes(b: Battle, standings: seq<Domain.Standing>)
    requires forall k :: 0 <= k < |standings| ==> standings[k].votes == Scoring.VotesFor(b, standings[k].dancerId)
    ensures forall id :: id in CountsFrom(standings) ==> CountsFrom(standings)[id] == Scoring.VotesFor(b, id)
  {
    if standings != [] {
      CountsAreVotes(b, standings[..|standings| - 1]);
    }
  }

  /** In every state the table sent equals scoring the battle afresh, live or frozen,
      its totals are the stored votes, and together they count every vote once. */
  lemma SentTableIsFresh(fold: Fold, r: Room, at: int)
    requires Inv(fold, r) && r.battle.Some?
    ensures var b := r.battle.value;
            var dto := ToBattleDto(b, r.status == Battling, at);
            && dto.standings == Scoring.Standings(b, b.scoring)
            && dto.voteCounts.Keys == ToSet(b.dancerIds)
            && (forall id :: id in b.dancerIds ==> dto.voteCounts[id] == Scoring.VotesFor(b, id))
            && Scoring.TotalVotes(dto.standings) == |b.votes|
            && dto.battle == b.(votes := map[])
            && dto.startsInMs + at == b.startedAt
            && dto.endsInMs == (if r.status == Battling then Some(b.endsAt - at) else None)
  {
    var b := r.battle.value;
    DancersDistinct(r.code, b);
    FreshTableTotals(b);
    assert b.result.Some? ==> b.result.value.standings == Scoring.Standings(b, b.scoring);
  }

  lemma FreshTableTotals(b: Battle)
    requires Distinct(b.dancerIds) && forall v :: v in b.votes ==> b.votes[v] in b.dancerIds
    ensures var s := Scoring.Standings(b, b.scoring);
            && CountsFrom(s).Keys == ToSet(b.dancerIds)
            && (forall id :: id in b.dancerIds ==> CountsFrom(s)[id] == Scoring.VotesFor(b, id))
            && Scoring.TotalVotes(s) == |b.votes|
  {
    Scoring.StandingsDescribeDancers(b, b.scoring);
    CountsAreVotes(b, Scoring.Standings(b, b.scoring));
    Scoring.EveryVoteCounted(b, b.scoring);
  }
}
