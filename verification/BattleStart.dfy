/** What the start of a battle freezes: who dances, who watches, and under which names. */
module BattleStart {
  import opened Sequences
  import opened Text
  import opened Domain
  import opened RoomInvariant
  import opened RoomService
  import SongSelecting

  function Entry(p: Player): RosterEntry { RosterEntry(p.id, p.displayName) }

  lemma SelectedIsOnRoster(players: seq<Player>, ids: seq<Id>, p: Player)
    requires Distinct(Ids(players)) && p in players && p.id in ids && forall id :: id in ids ==> Seated(players, id)
    ensures Entry(p) in Entries(DancersOf(players, ids))
  {
    FindsThatPlayer(players, p);
    var k :| 0 <= k < |ids| && ids[k] == p.id;
    assert Entries(DancersOf(players, ids))[k] == Entry(p);
  }

  lemma OthersAreAudience(players: seq<Player>, ids: seq<Id>, p: Player)
    requires p in players && p.id !in ids
    ensures Entry(p) in Entries(InRole(SeatAll(players, ids), Spectator))
  {
    var seats := SeatAll(players, ids);
    var j :| 0 <= j < |players| && players[j] == p;
    assert seats[j] == p.(role := Spectator);
    InRoleMembers(seats, Spectator);
    var watching := InRole(seats, Spectator);
    assert seats[j] in watching;
    var k :| 0 <= k < |watching| && watching[k] == seats[j];
    assert Entries(watching)[k] == Entry(p);
  }

  /** A battle starts exactly in the lobby, with no song being chosen any more and one chosen,
      everyone ready, and at least two different dancers, all of them in the room. */
  lemma BattleStartsExactly(r: Room, dancerIds: Option<seq<Id>>, options: StartOptions, battleId: Id)
    ensures var ids := if dancerIds.Some? then dancerIds.value else Ids(InRole(r.players, Dancer));
            StartBattle(r, dancerIds, options, battleId).Changed? <==>
              && options.countdownMs >= 0 && options.fallbackDurationMs >= 0
              && options.scoring.votePoints >= 0 && options.scoring.wordBonusPoints >= 0
              && r.status == Waiting && (r.songSelection.None? || r.songSelection.value.phase == Done) && r.selectedSong.Some?
              && (forall p :: p in r.players ==> p.ready)
              && Distinct(ids) && |ids| >= 2 && (forall id :: id in ids ==> IsIn(r.players, id))
  {
    var ids := SelectedIds(r, dancerIds);
    AllDifferent(ids);
    AllReady(r);
    AllSeated(r, ids);
  }

  lemma AllDifferent(ids: seq<Id>)
    ensures |ToSet(ids)| == |ids| <==> Distinct(ids)
  {
    if Distinct(ids) { DistinctBySize(ids); } else {
      var i, j :| 0 <= i < j < |ids| && ids[i] == ids[j];
      FewerThanListed(ids, i, j);
    }
  }

  lemma FewerThanListed(ids: seq<Id>, i: nat, j: nat)
    requires i < j < |ids| && ids[i] == ids[j]
    ensures |ToSet(ids)| < |ids|
  {
    var rest := ids[..j] + ids[j + 1..];
    assert rest[i] == ids[i];
    assert ToSet(ids) == ToSet(rest) by {
      forall x | x in ids ensures x in rest {
        var k :| 0 <= k < |ids| && ids[k] == x;
        if k < j { assert rest[k] == x; } else if k > j { assert rest[k - 1] == x; }
      }
    }
    SetIsNoLonger(rest);
  }

  lemma {:induction false} SetIsNoLonger(ids: seq<Id>)
    ensures |ToSet(ids)| <= |ids|
  {
    if ids != [] {
      SetIsNoLonger(ids[1..]);
      assert ToSet(ids) == ToSet(ids[1..]) + {ids[0]};
    } else {
      assert ToSet(ids) == {};
    }
  }

  lemma AllReady(r: Room)
    ensures SongSelecting.EveryoneReady(r) <==> forall p :: p in r.players ==> p.ready
  {
  }

  predicate IsIn(players: seq<Player>, id: Id) { exists p :: p in players && p.id == id }

  lemma SeatedMeansIn(players: seq<Player>, id: Id)
    ensures Seated(players, id) <==> IsIn(players, id)
  {
    if Seated(players, id) {
      var k :| 0 <= k < |Ids(players)| && Ids(players)[k] == id;
      assert players[k] in players;
    }
    if p :| p in players && p.id == id {
      var k :| 0 <= k < |players| && players[k] == p;
      assert Ids(players)[k] == id;
    }
  }

  lemma AllSeated(r: Room, ids: seq<Id>)
    ensures (forall k :: 0 <= k < |ids| ==> Seated(r.players, ids[k])) <==> forall id :: id in ids ==> IsIn(r.players, id)
  {
    forall id ensures Seated(r.players, id) <==> IsIn(r.players, id) { SeatedMeansIn(r.players, id); }
    if forall k :: 0 <= k < |ids| ==> Seated(r.players, ids[k]) {
      forall id | id in ids ensures IsIn(r.players, id) { assert Seated(r.players, id); }
    }
    if forall id :: id in ids ==> IsIn(r.players, id) {
      forall k | 0 <= k < |ids| ensures Seated(r.players, ids[k]) { assert IsIn(r.players, ids[k]); }
    }
  }

  /** As many are cast as there are players. */
  lemma CastSize(fold: Fold, n: Room)
    requires Inv(fold, n) && n.status == Battling && n.battle.Some?
    requires EntryIds(n.battle.value.audience) == Ids(n.spectators) && EntryIds(n.battle.value.roster) == n.battle.value.dancerIds
    ensures |n.battle.value.roster| + |n.battle.value.audience| == |n.players|
  {
    BattlePartitionsPlayers(fold, n);
    var cast := CastIds(n.battle.value);
    assert ToSet(cast) == IdSet(n.players);
    DistinctBySize(cast);
    DistinctBySize(Ids(n.players));
  }

  /** The start casts every player exactly once: the selected ones as dancers, everyone else
      as audience, each under the name they have in the room. Names and readiness stay, and
      so do host, song selection and everything else of the room; the points and the song are
      frozen, nobody has a vote or a word yet, and the battle lasts exactly the song. */
  lemma StartCastsEveryone(fold: Fold, r: Room, dancerIds: Option<seq<Id>>, options: StartOptions, battleId: Id)
    requires Inv(fold, r) && StartBattle(r, dancerIds, options, battleId).Changed?
    ensures var n, ids := StartBattle(r, dancerIds, options, battleId).room, SelectedIds(r, dancerIds);
            var b := n.battle.value;
            && (forall p :: p in r.players ==> Entry(p) in (if p.id in ids then b.roster else b.audience))
            && |b.roster| + |b.audience| == |r.players| == |n.players|
            && (forall k :: 0 <= k < |r.players| ==> n.players[k] == r.players[k].(role := if r.players[k].id in ids then Dancer else Spectator))
            && n == r.(players := n.players, dancers := n.dancers, spectators := n.spectators, status := Battling, battle := Some(b))
            && b.roomCode == r.code && b.votes == map[] && (forall id :: id in ids ==> id in b.wordsWon && b.wordsWon[id] == 0)
            && b.scoring == options.scoring && b.song == r.selectedSong && b.song.Some?
            && b.startedAt - options.now == options.countdownMs && b.endsAt - b.startedAt == b.song.value.durationSeconds * 1000
  {
    var n, ids := StartBattle(r, dancerIds, options, battleId).room, SelectedIds(r, dancerIds);
    var b := n.battle.value;
    assert b.roster == Entries(DancersOf(r.players, ids));
    assert b.audience == Entries(InRole(SeatAll(r.players, ids), Spectator));
    forall p | p in r.players ensures Entry(p) in (if p.id in ids then b.roster else b.audience) {
      if p.id in ids { SelectedIsOnRoster(r.players, ids, p); } else { OthersAreAudience(r.players, ids, p); }
    }
    StartBattleKeeps(fold, r, dancerIds, options, battleId);
    CastSize(fold, n);
  }
}
