/** How soon after its creation a room can have its first deadline. */
module EarlyLife {
  import opened Sequences
  import opened Text
  import opened Domain
  import opened RoomEvents
  import opened RoomInvariant
  import RoomService

  /** No state of a room before this version has a deadline: a guest has to join, two
      players choose to dance and become ready, and the host starts a challenge. */
  const FIRST_DEADLINE := 6

  /** What the players have done so far: one for the seat, one for a role, one for being ready. */
  function Effort(players: seq<Player>): nat {
    if players == [] then 0 else SeatEffort(players[0]) + Effort(players[1..])
  }

  function SeatEffort(p: Player): nat {
    1 + (if p.role != Undecided then 1 else 0) + (if p.ready then 1 else 0)
  }

  /** A room before its first challenge, whose version counts at least what was done in it. */
  ghost predicate Early(r: Room) {
    r.status == Waiting && r.songSelection.None? && r.battle.None? && Effort(r.players) <= r.version + 1
  }

  lemma {:induction false} EffortAppend(players: seq<Player>, p: Player)
    ensures Effort(players + [p]) == Effort(players) + SeatEffort(p)
  {
    if players == [] {
      assert [] + [p] == [p];
      assert [p][1..] == [];
    } else {
      EffortAppend(players[1..], p);
      assert (players + [p])[1..] == players[1..] + [p];
    }
  }

  lemma {:induction false} EffortWithout(players: seq<Player>, gone: Id)
    ensures Effort(Without(players, gone)) <= Effort(players)
  {
    if players != [] {
      EffortWithout(players[1..], gone);
      if players[0].id != gone {
        assert ([players[0]] + Without(players[1..], gone))[1..] == Without(players[1..], gone);
      }
    }
  }

  /** One seat changed at most, by at most one. */
  ghost predicate OneSeatMore(before: seq<Player>, after: seq<Player>, id: Id) {
    && |after| == |before|
    && forall k :: 0 <= k < |before| ==>
         if before[k].id == id then SeatEffort(after[k]) <= SeatEffort(before[k]) + 1 else after[k] == before[k]
  }

  lemma {:induction false} SameEffort(before: seq<Player>, after: seq<Player>, id: Id)
    requires OneSeatMore(before, after, id) && id !in Ids(before)
    ensures Effort(after) == Effort(before)
  {
    assert forall k :: 0 <= k < |before| ==> Ids(before)[k] == before[k].id;
    assert after == before;
  }

  lemma {:induction false} EffortOfChange(before: seq<Player>, after: seq<Player>, id: Id)
    requires OneSeatMore(before, after, id) && Distinct(Ids(before))
    ensures Effort(after) <= Effort(before) + 1
  {
    if before != [] {
      assert Ids(before) == [before[0].id] + Ids(before[1..]);
      assert forall i :: 0 <= i < |before| - 1 ==> Ids(before)[i + 1] == Ids(before[1..])[i];
      if before[0].id == id {
        SameEffort(before[1..], after[1..], id);
      } else {
        EffortOfChange(before[1..], after[1..], id);
      }
    }
  }

  lemma {:induction false} EffortOfReady(players: seq<Player>)
    requires forall k :: 0 <= k < |players| ==> players[k].ready
    ensures Effort(players) >= 2 * |players| + |InRole(players, Dancer)|
    ensures |players| >= |InRole(players, Dancer)|
  {
    if players != [] {
      EffortOfReady(players[1..]);
    }
  }

  lemma JoinStaysEarly(fold: Fold, r: Room, id: Id, displayName: string)
    requires Early(r) && RoomService.Join(fold, r, id, displayName).Changed?
    ensures Effort(RoomService.Join(fold, r, id, displayName).room.players) <= r.version + 2
  {
    EffortAppend(r.players, RoomService.NewSeat(fold, r.players, id, Trim(displayName)));
  }

  lemma SeatActsStayEarly(fold: Fold, r: Room, e: Event)
    requires Inv(fold, r) && Early(r) && (e.SelectRole? || e.SetReady?)
    ensures var o := Mutate(fold, r, e); o.Changed? ==> Early(o.room.(version := r.version + 1))
  {
    var o := Mutate(fold, r, e);
    if o.Changed? {
      assert OneSeatMore(r.players, o.room.players, e.id);
      EffortOfChange(r.players, o.room.players, e.id);
    }
  }

  lemma DeparturesStayEarly(fold: Fold, r: Room, e: Event)
    requires Early(r) && (e.Leave? || e.Kick?)
    ensures var o := Mutate(fold, r, e); o.Changed? ==> Early(o.room.(version := r.version + 1))
  {
    EffortWithout(r.players, e.id);
  }

  lemma JoinEventStaysEarly(fold: Fold, r: Room, e: Event)
    requires Early(r) && e.Join?
    ensures var o := Mutate(fold, r, e); o.Changed? ==> Early(o.room.(version := r.version + 1))
  {
    if RoomService.Join(fold, r, e.id, Trim(e.displayName)).Changed? { JoinStaysEarly(fold, r, e.id, Trim(e.displayName)); }
  }

  lemma ChallengeTakesFive(fold: Fold, r: Room, e: Event)
    requires Early(r) && e.StartChallenge? && Mutate(fold, r, e).Changed?
    ensures r.version + 1 >= FIRST_DEADLINE
  {
    EffortOfReady(r.players);
  }

  lemma OthersRefused(fold: Fold, r: Room, e: Event)
    requires Inv(fold, r) && Early(r)
    requires !e.Join? && !e.SelectRole? && !e.SetReady? && !e.Leave? && !e.Kick? && !e.StartChallenge?
    ensures !Mutate(fold, r, e).Changed?
  {
    assert r.selectedSong.None?;
  }

  /** An update of an early room leaves it early, or is at least the sixth. */
  lemma EarlyStep(fold: Fold, r: Room, e: Event)
    requires Inv(fold, r) && (Early(r) || r.version >= FIRST_DEADLINE)
    ensures var n := Next(fold, r, e); n.Some? ==> Early(n.value) || n.value.version >= FIRST_DEADLINE
  {
    var o := Mutate(fold, r, e);
    NextCommits(fold, r, e);
    if o.Changed? && Early(r) {
      if e.Join? {
        JoinEventStaysEarly(fold, r, e);
      } else if e.SelectRole? || e.SetReady? {
        SeatActsStayEarly(fold, r, e);
      } else if e.Leave? || e.Kick? {
        DeparturesStayEarly(fold, r, e);
      } else if e.StartChallenge? {
        ChallengeTakesFive(fold, r, e);
      } else {
        OthersRefused(fold, r, e);
      }
    }
  }
}
