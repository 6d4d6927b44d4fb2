/** What a departure does to the choice of a song, which is nothing unless the chooser leaves,
    and to a running battle. */
module Departures {
  import opened Sequences
  import opened Domain
  import opened RoomEvents
  import opened RoomInvariant
  import opened SongSelecting
  import RoomService
  import opened Text

  predicate ChooserLeaves(r: Room, id: Id) {
    && r.songSelection.Some? && r.songSelection.value.phase == Choosing
    && r.songSelection.value.chooserId == Some(id)
  }

  /** Somebody other than the leaver took part in the challenge and is in the room. */
  ghost predicate AnotherIsLeft(r: Room, sel: SongSelection, id: Id) {
    exists other :: other in sel.participantIds && other != id && Seated(r.players, other)
  }

  /** The turn as it was, but for its chooser, the reason and the deadline: the new chooser is
      another participant in the room, and one who failed only when all the others there did. */
  ghost predicate PassedOn(r: Room, sel: SongSelection, after: SongSelection, id: Id, now: int) {
    && after == sel.(chooserId := after.chooserId, chooserReason := Some(ChooserReason.ChooserLeft), chooseDeadline := Some(now + sel.chooseMs))
    && after.chooserId.Some? && after.chooserId.value in sel.participantIds && after.chooserId.value != id
    && Seated(r.players, after.chooserId.value)
    && (after.chooserId.value in sel.failedIds ==>
          forall other :: other in sel.participantIds && other != id && Seated(r.players, other) ==> other in sel.failedIds)
  }

  /** The selection after a departure: the same; or, when the chooser left, passed on to
      another participant, and cancelled exactly when there is none in the room. */
  ghost predicate SelectionAfter(r: Room, after: Option<SongSelection>, id: Id, now: int) {
    if !ChooserLeaves(r, id) then after == r.songSelection
    else
      && (after.None? <==> !AnotherIsLeft(r, r.songSelection.value, id))
      && (after.Some? ==> PassedOn(r, r.songSelection.value, after.value, id, now))
  }

  lemma OthersStaySeated(r: Room, id: Id, other: Id)
    ensures Seated(Without(r.players, id), other) <==> other != id && Seated(r.players, other)
  {
    WithoutIds(r.players, id);
  }

  lemma PassingOn(r: Room, n: Room, id: Id, now: int, draw: nat)
    requires ChooserLeaves(r, id) && n.players == Without(r.players, id)
    ensures SelectionAfter(r, FallbackChooser(n, r.songSelection.value, ChooserReason.ChooserLeft, draw, now).songSelection, id, now)
  {
    forall other ensures Seated(n.players, other) <==> other != id && Seated(r.players, other) {
      OthersStaySeated(r, id, other);
    }
  }

  lemma LeaveSelection(r: Room, id: Id, now: int, draw: nat)
    requires Seated(r.players, id)
    ensures SelectionAfter(r, RoomService.Leave(r, id, now, draw).room.songSelection, id, now)
  {
    var settled := RoomService.SettleBattle(RoomService.Vacate(r, id), id, now);
    if ChooserLeaves(r, id) {
      PassingOn(r, settled, id, now, draw);
      assert RoomService.Leave(r, id, now, draw).room == HandlePlayerLeft(settled, id, draw, now);
    }
  }

  lemma KickIsLeave(fold: Fold, r: Room, e: Event)
    requires e.Kick? && Mutate(fold, r, e).Changed?
    ensures Mutate(fold, r, e) == RoomService.Leave(r, e.id, e.now, e.draw) && Seated(r.players, e.id)
  {
  }

  lemma LeaveIsLeave(fold: Fold, r: Room, e: Event)
    requires e.Leave? && Mutate(fold, r, e).Changed?
    ensures Mutate(fold, r, e) == RoomService.Leave(r, e.id, e.now, e.draw) && Seated(r.players, e.id)
  {
  }

  /** For every departure by the player or by the host's hand: unless it is the chooser who
      goes while a song is being chosen, the selection stays exactly as it is. */
  lemma DepartureAndTheSelection(fold: Fold, r: Room, e: Event)
    requires e.Leave? || e.Kick?
    ensures var n := Next(fold, r, e);
            n.Some? ==> if Mutate(fold, r, e).Changed? then SelectionAfter(r, n.value.songSelection, e.id, e.now) else n.value == r
  {
    NextCommits(fold, r, e);
    if Mutate(fold, r, e).Changed? {
      if e.Kick? { KickIsLeave(fold, r, e); } else { LeaveIsLeave(fold, r, e); }
      LeaveSelection(r, e.id, e.now, e.draw);
    }
  }

  /** Every other participant in the room who did not fail can be the next chooser, and, when
      all of them failed, every one of them. */
  lemma AnyOtherCanBeNext(r: Room, id: Id, now: int, next: Id) returns (draw: nat)
    requires Seated(r.players, id) && r.status == Waiting && ChooserLeaves(r, id)
    requires next in r.songSelection.value.participantIds && next != id && Seated(r.players, next)
    requires next in r.songSelection.value.failedIds ==>
               forall other :: other in r.songSelection.value.participantIds && other != id && Seated(r.players, other) ==>
                 other in r.songSelection.value.failedIds
    ensures var n := RoomService.Leave(r, id, now, draw).room;
            n.songSelection.Some? && n.songSelection.value.chooserId == Some(next)
  {
    var n := RoomService.Vacate(r, id);
    forall other ensures Seated(n.players, other) <==> other != id && Seated(r.players, other) {
      OthersStaySeated(r, id, other);
    }
    draw := EveryoneEntitledCanBeChosen(n, r.songSelection.value, ChooserReason.ChooserLeft, now, next);
    assert RoomService.Leave(r, id, now, draw).room == HandlePlayerLeft(n, id, draw, now);
  }

  // ----- a running battle -----

  /** The votes without the leaver's and without those for the leaver. */
  ghost predicate VotesAfter(r: Room, n: Room, id: Id) {
    forall v :: RoomService.VoteOf(n, v) ==
      if v == id || RoomService.VoteOf(r, v) == Some(id) then None else RoomService.VoteOf(r, v)
  }

  /** The battle after a departure: one dancer and some votes fewer, at an end exactly when
      fewer than two dancers are left, and otherwise the same. */
  ghost predicate BattleAfter(r: Room, n: Room, id: Id, now: int)
    requires r.battle.Some?
  {
    var b, others := r.battle.value, ToSet(r.battle.value.dancerIds) - {id};
    && n.battle.Some? && VotesAfter(r, n, id)
    && var c := n.battle.value;
       && c == b.(dancerIds := c.dancerIds, votes := c.votes, finishedAt := c.finishedAt, endReason := c.endReason, result := c.result)
       && c.dancerIds == Keep(b.dancerIds, others)
       && (if |others| < 2
           then n.status == Finished && c.finishedAt == Some(now) && c.endReason == Some(NotEnoughDancers) && n.lastResult == c.result && c.result.Some?
           else n.status == Battling && c.finishedAt == b.finishedAt && c.endReason == b.endReason && c.result == b.result
                && n.lastResult == r.lastResult)
  }

  lemma DropIsOthers(s: seq<Id>, id: Id)
    requires Distinct(s)
    ensures Drop(s, id) == Keep(s, ToSet(s) - {id}) && |Drop(s, id)| == |ToSet(s) - {id}|
  {
    var others := ToSet(s) - {id};
    KeepAll(s, ToSet(s));
    DropFromKeep(s, ToSet(s), id);
    KeepDistinct(s, others);
    DistinctBySize(Keep(s, others));
    assert ToSet(Keep(s, others)) == others;
  }

  lemma SettledBattle(r: Room, id: Id, now: int)
    requires r.status == Battling && r.battle.Some? && Distinct(r.battle.value.dancerIds)
    ensures BattleAfter(r, RoomService.SettleBattle(RoomService.Vacate(r, id), id, now), id, now)
  {
    DropIsOthers(r.battle.value.dancerIds, id);
  }

  /** For every departure from a running battle. */
  lemma DepartureAndTheBattle(fold: Fold, r: Room, id: Id, now: int, draw: nat)
    requires Inv(fold, r) && r.status == Battling && Seated(r.players, id)
    ensures r.battle.Some? && BattleAfter(r, RoomService.Leave(r, id, now, draw).room, id, now)
  {
    DancersDistinct(r.code, r.battle.value);
    SettledBattle(r, id, now);
  }
}
