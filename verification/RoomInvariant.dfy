/** What holds of every stored room, whatever happened to it. */
module RoomInvariant {
  import opened Sequences
  import opened Text
  import opened Domain
  import opened SongSelecting
  import opened RoomService
  import opened RoomEvents
  import Scoring

  function IdSet(players: seq<Player>): set<Id> {
    ToSet(Ids(players))
  }

  // ----- the invariant -----

  ghost predicate SeatsInv(r: Room) {
    && 1 <= |r.players| <= MAX_PLAYERS
    && Distinct(Ids(r.players))
    && r.hostId in Ids(r.players)
    && r.spectators == InRole(r.players, Spectator)
    && (r.status == Waiting <==> r.battle.None?)
    && (r.status == Waiting <==> r.dancers.None?)
  }

  ghost predicate NamesInv(fold: Fold, players: seq<Player>) {
    && (forall k :: 0 <= k < |players| ==> ValidName(players[k].displayName))
    && (forall i, j :: 0 <= i < j < |players| ==>
          Lower(fold, players[i].displayName) != Lower(fold, players[j].displayName))
  }

  /** Dancers and spectators of the start, no one twice. */
  function CastIds(b: Battle): seq<Id> {
    EntryIds(b.roster) + EntryIds(b.audience)
  }

  /** What holds of a battle by itself. */
  ghost predicate BattleShape(code: string, b: Battle) {
    && b.roomCode == code
    && Distinct(CastIds(b))
    && b.dancerIds == Keep(EntryIds(b.roster), ToSet(b.dancerIds))
    && 1 <= |b.dancerIds|
    && b.wordsWon.Keys == ToSet(EntryIds(b.roster))
    && (forall v :: v in b.votes ==> v in EntryIds(b.audience) && b.votes[v] in b.dancerIds)
    && b.song.Some? && b.endsAt == b.startedAt + b.song.value.durationSeconds * 1000
    && b.scoring.votePoints >= 0 && b.scoring.wordBonusPoints >= 0
  }

  /** Everyone in the room was there at the start, as a dancer or as a spectator. */
  ghost predicate RolesAgree(players: seq<Player>, b: Battle) {
    forall p :: p in players ==>
      && p.role != Undecided
      && (p.role == Dancer <==> p.id in b.dancerIds)
      && (p.role == Spectator ==> p.id in EntryIds(b.audience))
  }

  ghost predicate DancersAgree(r: Room, b: Battle)
    requires r.dancers.Some?
  {
    && Ids(r.dancers.value) == Keep(b.dancerIds, IdSet(r.players))
    && (forall d :: d in r.dancers.value ==> d in r.players)
  }

  ghost predicate RunningInv(r: Room, b: Battle) {
    && MIN_DANCERS_PER_BATTLE <= |b.dancerIds|
    && ToSet(b.dancerIds) <= IdSet(r.players)
    && (forall v :: v in b.votes ==> Seated(r.spectators, v))
    && b.finishedAt.None? && b.endReason.None? && b.result.None?
  }

  ghost predicate FinishedInv(r: Room, b: Battle) {
    && b.finishedAt.Some? && b.endReason.Some?
    && b.result == Some(Scoring.ResultOf(b)) == r.lastResult
    && (b.endReason.value == NotEnoughDancers <==> |b.dancerIds| < MIN_DANCERS_PER_BATTLE)
  }

  ghost predicate BattleInv(r: Room) {
    r.battle.Some? ==>
      var b := r.battle.value;
      && BattleShape(r.code, b)
      && RolesAgree(r.players, b)
      && r.dancers.Some? && DancersAgree(r, b)
      && (r.status == Battling ==> RunningInv(r, b))
      && (r.status == Finished ==> FinishedInv(r, b))
  }

  ghost predicate SelectionShape(sel: SongSelection) {
    && Distinct(sel.participantIds) && |sel.participantIds| >= MIN_DANCERS_PER_BATTLE
    && Distinct(sel.failedIds)
    && (forall id :: id in sel.failedIds ==> id in sel.participantIds)
    && (sel.phase == Typing ==>
          sel.chooserId.None? && sel.chooserReason.None? && |sel.failedIds| < |sel.participantIds|)
    && (sel.phase != Typing ==>
          sel.chooserId.Some? && sel.chooserReason.Some? && sel.chooserId.value in sel.participantIds)
    && (sel.phase == Choosing <==> sel.chooseDeadline.Some?)
    && (sel.autoPicked ==> sel.phase == Done)
  }

  ghost predicate SelectionInv(r: Room) {
    && (r.selectedSong.Some? <==> r.songSelection.Some? && r.songSelection.value.phase == Done)
    && (InProgress(r) ==> r.status == Waiting)
    && (r.songSelection.Some? ==> SelectionShape(r.songSelection.value))
    && (IsChoosing(r) ==> Seated(r.players, r.songSelection.value.chooserId.value))
    && (r.selectedSong.Some? ==> r.selectedSong.value in r.songSelection.value.songOptions)
  }

  ghost predicate Inv(fold: Fold, r: Room) {
    SeatsInv(r) && NamesInv(fold, r.players) && BattleInv(r) && SelectionInv(r)
  }

  // ----- readings of the invariant -----

  lemma SpectatorOrDancer(r: Room, id: Id)
    requires SeatsInv(r) && r.battle.Some? && RolesAgree(r.players, r.battle.value) && Seated(r.players, id)
    ensures id in r.battle.value.dancerIds <==> !Seated(r.spectators, id)
  {
    IdInRole(r.players, Spectator, id);
    var k :| 0 <= k < |r.players| && Ids(r.players)[k] == id;
    assert r.players[k] in r.players;
    forall j | 0 <= j < |r.players| && r.players[j].id == id ensures j == k {
      assert Ids(r.players)[j] == Ids(r.players)[k];
    }
  }

  lemma SpectatorsAreSeated(r: Room, id: Id)
    requires SeatsInv(r) && Seated(r.spectators, id)
    ensures Seated(r.players, id)
  {
    IdInRole(r.players, Spectator, id);
    var k :| 0 <= k < |r.players| && r.players[k].id == id && r.players[k].role == Spectator;
    assert Ids(r.players)[k] == id;
  }

  /** The dancers of a battle are never listed twice. */
  lemma DancersDistinct(code: string, b: Battle)
    requires BattleShape(code, b)
    ensures Distinct(b.dancerIds)
  {
    RosterDistinct(b);
    KeepDistinct(EntryIds(b.roster), ToSet(b.dancerIds));
  }

  lemma PlayersSplit(r: Room)
    requires SeatsInv(r) && r.battle.Some? && RolesAgree(r.players, r.battle.value)
    requires ToSet(r.battle.value.dancerIds) <= IdSet(r.players)
    ensures IdSet(r.players) == ToSet(r.battle.value.dancerIds) + IdSet(r.spectators)
    ensures ToSet(r.battle.value.dancerIds) !! IdSet(r.spectators)
  {
    forall id | id in IdSet(r.players) ensures id in ToSet(r.battle.value.dancerIds) <==> id !in IdSet(r.spectators) {
      SpectatorOrDancer(r, id);
    }
    forall id | id in IdSet(r.spectators) ensures id in IdSet(r.players) {
      SpectatorsAreSeated(r, id);
    }
  }

  /** While a battle runs, its dancers and the spectators are the players, each in
      exactly one of the two, and the room's dancer list is the battle's. */
  lemma BattlePartitionsPlayers(fold: Fold, r: Room)
    requires Inv(fold, r) && r.status == Battling
    ensures r.battle.Some? && r.dancers.Some?
    ensures IdSet(r.players) == ToSet(r.battle.value.dancerIds) + IdSet(r.spectators)
    ensures ToSet(r.battle.value.dancerIds) !! IdSet(r.spectators)
    ensures Ids(r.dancers.value) == r.battle.value.dancerIds
    ensures Distinct(r.battle.value.dancerIds)
  {
    PlayersSplit(r);
    KeepAll(r.battle.value.dancerIds, IdSet(r.players));
    DancersDistinct(r.code, r.battle.value);
  }

  lemma RosterDistinct(b: Battle)
    requires Distinct(CastIds(b))
    ensures Distinct(EntryIds(b.roster)) && Distinct(EntryIds(b.audience))
    ensures forall id :: id in EntryIds(b.roster) ==> id !in EntryIds(b.audience)
  {
    var x, y := EntryIds(b.roster), EntryIds(b.audience);
    forall i, j | 0 <= i < j < |x| ensures x[i] != x[j] {
      assert CastIds(b)[i] == x[i] && CastIds(b)[j] == x[j];
    }
    forall i, j | 0 <= i < j < |y| ensures y[i] != y[j] {
      assert CastIds(b)[|x| + i] == y[i] && CastIds(b)[|x| + j] == y[j];
    }
    forall i, j | 0 <= i < |x| && 0 <= j < |y| ensures x[i] != y[j] {
      assert CastIds(b)[i] == x[i] && CastIds(b)[|x| + j] == y[j];
    }
  }

  // ----- creation -----

  lemma CreateEstablishes(fold: Fold, id: Id, displayName: string, code: string, createdAt: int)
    ensures var o := Create(id, displayName, code, createdAt); o.Changed? ==> Inv(fold, o.room) && o.room.version == 0
  {
    var o := Create(id, displayName, code, createdAt);
    if o.Changed? {
      assert Ids(o.room.players) == [id];
    }
  }

  // ----- names -----

  lemma NamesWithLast(fold: Fold, players: seq<Player>, last: Player)
    requires NamesInv(fold, players) && ValidName(last.displayName)
    requires Lower(fold, last.displayName) !in TakenNames(fold, players)
    ensures NamesInv(fold, players + [last])
  {
    forall k | 0 <= k < |players| ensures Lower(fold, players[k].displayName) != Lower(fold, last.displayName) {
      assert Lower(fold, players[k].displayName) in TakenNames(fold, players);
    }
  }

  lemma NewNameIsValid(fold: Fold, players: seq<Player>, name: string)
    requires |players| <= MAX_PLAYERS && ValidName(name)
    ensures ValidName(UniqueName(fold, TakenNames(fold, players), name))
  {
    TakenSize(fold, players, |players|);
    assert TakenNames(fold, players) == TakenUpTo(fold, players, |players|);
    UniqueNameIsValid(fold, TakenNames(fold, players), name);
  }

  function TakenUpTo(fold: Fold, players: seq<Player>, n: nat): set<string>
    requires n <= |players|
  {
    set k | 0 <= k < n :: Lower(fold, players[k].displayName)
  }

  lemma {:induction false} TakenSize(fold: Fold, players: seq<Player>, n: nat)
    requires n <= |players|
    ensures |TakenUpTo(fold, players, n)| <= n
  {
    if n > 0 {
      TakenSize(fold, players, n - 1);
      assert TakenUpTo(fold, players, n) == TakenUpTo(fold, players, n - 1) + {Lower(fold, players[n - 1].displayName)};
    } else {
      assert TakenUpTo(fold, players, 0) == {};
    }
  }

  lemma SameNames(fold: Fold, before: seq<Player>, after: seq<Player>)
    requires NamesInv(fold, before) && |after| == |before|
    requires forall k :: 0 <= k < |after| ==> after[k].displayName == before[k].displayName
    ensures NamesInv(fold, after)
  {
  }

  ghost predicate NameFree(fold: Fold, name: string, players: seq<Player>) {
    forall k :: 0 <= k < |players| ==> Lower(fold, name) != Lower(fold, players[k].displayName)
  }

  lemma {:induction false} WithoutKeepsFree(fold: Fold, name: string, players: seq<Player>, gone: Id)
    requires NameFree(fold, name, players)
    ensures NameFree(fold, name, Without(players, gone))
  {
    if players != [] {
      WithoutKeepsFree(fold, name, players[1..], gone);
    }
  }

  lemma NamesOfRest(fold: Fold, players: seq<Player>)
    requires NamesInv(fold, players) && players != []
    ensures NamesInv(fold, players[1..]) && NameFree(fold, players[0].displayName, players[1..])
  {
  }

  lemma NamesWithFirst(fold: Fold, first: Player, rest: seq<Player>)
    requires NamesInv(fold, rest) && ValidName(first.displayName) && NameFree(fold, first.displayName, rest)
    ensures NamesInv(fold, [first] + rest)
  {
  }

  lemma {:induction false} WithoutKeepsNames(fold: Fold, players: seq<Player>, gone: Id)
    requires NamesInv(fold, players)
    ensures NamesInv(fold, Without(players, gone))
  {
    if players != [] {
      NamesOfRest(fold, players);
      WithoutKeepsNames(fold, players[1..], gone);
      WithoutKeepsFree(fold, players[0].displayName, players[1..], gone);
      NamesWithFirst(fold, players[0], Without(players[1..], gone));
    }
  }

  // ----- the lobby -----

  lemma JoinKeeps(fold: Fold, r: Room, id: Id, displayName: string)
    requires Inv(fold, r) && RoomService.Join(fold, r, id, displayName).Changed?
    ensures Inv(fold, RoomService.Join(fold, r, id, displayName).room)
  {
    var joined := NewSeat(fold, r.players, id, Trim(displayName));
    NewNameIsValid(fold, r.players, Trim(displayName));
    NamesWithLast(fold, r.players, joined);
    InRoleAppend(r.players, joined, Spectator);
    JoinedInv(fold, r, r.players + [joined]);
  }

  lemma JoinedInv(fold: Fold, r: Room, players: seq<Player>)
    requires Inv(fold, r) && r.status == Waiting && |r.players| < MAX_PLAYERS && NamesInv(fold, players)
    requires |players| == |r.players| + 1 && Ids(players) == Ids(r.players) + [players[|r.players|].id]
    requires !Seated(r.players, players[|r.players|].id) && InRole(players, Spectator) == r.spectators
    ensures Inv(fold, r.(players := players))
  {
    assert forall id :: Seated(r.players, id) ==> Seated(players, id);
  }

  lemma {:induction false} InRoleAppend(players: seq<Player>, p: Player, role: Role)
    ensures InRole(players + [p], role) == InRole(players, role) + (if p.role == role then [p] else [])
  {
    if players != [] {
      InRoleAppend(players[1..], p, role);
      assert (players + [p])[1..] == players[1..] + [p];
    }
  }

  lemma LobbyChangeKeeps(fold: Fold, r: Room, players: seq<Player>)
    requires Inv(fold, r) && r.status == Waiting && |players| == |r.players|
    requires forall k :: 0 <= k < |players| ==>
               players[k].id == r.players[k].id && players[k].displayName == r.players[k].displayName
    ensures Inv(fold, r.(players := players, spectators := InRole(players, Spectator)))
  {
    assert Ids(players) == Ids(r.players);
    SameNames(fold, r.players, players);
  }

  // ----- song selection -----

  lemma SubmitKeeps(fold: Fold, r: Room, playerId: Id, text: string, now: int, draw: nat)
    requires Inv(fold, r)
    ensures var o := Submit(r, playerId, text, now, draw); o.Changed? ==> Inv(fold, o.room)
  {
    var o := Submit(r, playerId, text, now, draw);
    if o.Changed? {
      var sel := r.songSelection.value;
      assert InProgress(r);
      var failed := sel.(failedIds := sel.failedIds + [playerId]);
      if SubmitVerdict(r, text, now) == Incorrect && !EveryoneFailed(r, failed) {
        var other :| other in sel.participantIds && Seated(r.players, other) && other !in failed.failedIds;
        DistinctBySize(failed.failedIds);
        DistinctBySize(sel.participantIds);
        SubsetSize(ToSet(failed.failedIds), ToSet(sel.participantIds));
        assert other in ToSet(sel.participantIds) && other !in ToSet(failed.failedIds);
      }
    }
  }

  lemma ExpireKeeps(fold: Fold, r: Room, challengeId: Id, draw: nat, now: int)
    requires Inv(fold, r)
    ensures var o := Expire(r, challengeId, draw, now); o.Changed? ==> Inv(fold, o.room)
  {
    if Expire(r, challengeId, draw, now).Changed? {
      assert InProgress(r);
    }
  }

  lemma StartKeeps(fold: Fold, r: Room, now: int, options: ChallengeOptions, challengeId: Id, draw: nat)
    requires Inv(fold, r)
    ensures var o := Start(r, now, options, challengeId, draw); o.Changed? ==> Inv(fold, o.room)
  {
    InRoleDistinct(r.players, Dancer);
  }

  lemma ChooseKeeps(fold: Fold, r: Room, playerId: Id, songId: Id)
    requires Inv(fold, r)
    ensures var o := Choose(r, playerId, songId); o.Changed? ==> Inv(fold, o.room) && o.room.status == Waiting
  {
    if Choose(r, playerId, songId).Changed? {
      assert InProgress(r);
    }
  }

  lemma AutoPickKeeps(fold: Fold, r: Room, challengeId: Id, now: int, draw: nat)
    requires Inv(fold, r)
    ensures var o := AutoPick(r, challengeId, now, draw); o.Changed? ==> Inv(fold, o.room) && o.room.status == Waiting
  {
    if AutoPick(r, challengeId, now, draw).Changed? {
      assert InProgress(r);
    }
  }

  // ----- starting a battle -----

  lemma StartedBattle(r: Room, dancerIds: Option<seq<Id>>, options: StartOptions, battleId: Id)
    requires SeatsInv(r) && RoomService.StartBattle(r, dancerIds, options, battleId).Changed?
    ensures BattleInv(RoomService.StartBattle(r, dancerIds, options, battleId).room)
  {
    var n := RoomService.StartBattle(r, dancerIds, options, battleId).room;
    var b, ids := n.battle.value, SelectedIds(r, dancerIds);
    DistinctBySize(ids);
    CastOfStart(n.players, ids, b);
    RolesOfStart(n.players, b);
    KeepAll(ids, ToSet(ids));
    KeepAll(ids, IdSet(n.players));
    DancersAreSeated(r.players, ids);
    assert n.dancers.value == DancersOf(r.players, ids);
  }

  lemma StartedSeats(fold: Fold, r: Room, dancerIds: Option<seq<Id>>, options: StartOptions, battleId: Id)
    requires SeatsInv(r) && NamesInv(fold, r.players) && RoomService.StartBattle(r, dancerIds, options, battleId).Changed?
    ensures var n := RoomService.StartBattle(r, dancerIds, options, battleId).room; SeatsInv(n) && NamesInv(fold, n.players)
  {
    var players := SeatAll(r.players, SelectedIds(r, dancerIds));
    SameNames(fold, r.players, players);
  }

  lemma StartedSelection(r: Room, dancerIds: Option<seq<Id>>, options: StartOptions, battleId: Id)
    requires SelectionInv(r) && RoomService.StartBattle(r, dancerIds, options, battleId).Changed?
    ensures SelectionInv(RoomService.StartBattle(r, dancerIds, options, battleId).room)
  {
    assert !InProgress(r);
  }

  lemma StartBattleKeeps(fold: Fold, r: Room, dancerIds: Option<seq<Id>>, options: StartOptions, battleId: Id)
    requires Inv(fold, r) && RoomService.StartBattle(r, dancerIds, options, battleId).Changed?
    ensures Inv(fold, RoomService.StartBattle(r, dancerIds, options, battleId).room)
  {
    StartedSeats(fold, r, dancerIds, options, battleId);
    StartedBattle(r, dancerIds, options, battleId);
    StartedSelection(r, dancerIds, options, battleId);
  }

  lemma DancersAreSeated(players: seq<Player>, ids: seq<Id>)
    requires Distinct(Ids(players)) && forall id :: id in ids ==> Seated(players, id)
    ensures forall d :: d in DancersOf(players, ids) ==> d in SeatAll(players, ids)
  {
    forall k | 0 <= k < |ids| ensures DancersOf(players, ids)[k] in SeatAll(players, ids) {
      var p := Find(players, ids[k]).value;
      var j :| 0 <= j < |players| && players[j] == p;
      assert SeatAll(players, ids)[j] == Seat(p, ids);
      assert Seat(p, ids) == p.(role := Dancer);
    }
  }

  lemma CastOfStart(players: seq<Player>, ids: seq<Id>, b: Battle)
    requires Distinct(Ids(players)) && Distinct(ids)
    requires forall k :: 0 <= k < |players| ==> players[k].role == if players[k].id in ids then Dancer else Spectator
    requires EntryIds(b.roster) == ids
    requires EntryIds(b.audience) == Ids(InRole(players, Spectator))
    ensures Distinct(CastIds(b))
  {
    InRoleDistinct(players, Spectator);
    forall id | id in ids ensures id !in EntryIds(b.audience) {
      IdInRole(players, Spectator, id);
    }
    DistinctConcat(ids, EntryIds(b.audience));
  }

  lemma RolesOfStart(players: seq<Player>, b: Battle)
    requires forall k :: 0 <= k < |players| ==> players[k].role == if players[k].id in b.dancerIds then Dancer else Spectator
    requires EntryIds(b.audience) == Ids(InRole(players, Spectator))
    ensures RolesAgree(players, b)
  {
    forall p | p in players && p.role == Spectator ensures p.id in EntryIds(b.audience) {
      IdInRole(players, Spectator, p.id);
    }
  }

  // ----- the running battle -----

  lemma AwardKeeps(fold: Fold, r: Room, playerId: Id)
    requires Inv(fold, r)
    ensures var o := RoomService.AwardWordBonus(r, playerId); o.Changed? ==> Inv(fold, o.room)
  {
    var o := RoomService.AwardWordBonus(r, playerId);
    if o.Changed? {
      var b, c := r.battle.value, o.room.battle.value;
      assert playerId in EntryIds(b.roster);
      assert CastIds(c) == CastIds(b);
      assert DancersAgree(o.room, c);
    }
  }

  lemma CastVoteKeeps(fold: Fold, r: Room, voterId: Id, choice: Option<Id>, now: int)
    requires Inv(fold, r)
    ensures var o := RoomService.CastVote(r, voterId, choice, now); o.Changed? ==> Inv(fold, o.room)
  {
    var o := RoomService.CastVote(r, voterId, choice, now);
    if o.Changed? {
      var b, c := r.battle.value, o.room.battle.value;
      assert CastIds(c) == CastIds(b);
      InRoleMembers(r.players, Spectator);
      var k :| 0 <= k < |r.spectators| && Ids(r.spectators)[k] == voterId;
      assert r.spectators[k] in r.players;
      assert forall v :: v in c.votes ==> VoteOf(o.room, v) == Some(c.votes[v]);
      assert forall v :: v in b.votes ==> VoteOf(r, v) == Some(b.votes[v]);
      assert DancersAgree(o.room, c);
    }
  }

  lemma FinishKeeps(fold: Fold, r: Room, reason: EndReason, now: int)
    requires Inv(fold, r)
    requires r.battle.Some? ==> (reason == NotEnoughDancers <==> |r.battle.value.dancerIds| < MIN_DANCERS_PER_BATTLE)
    ensures var o := FinishBattle(r, reason, now); o.Changed? ==> Inv(fold, o.room)
  {
    var o := FinishBattle(r, reason, now);
    if o.Changed? {
      FinishedBattleInv(r, o.room, reason, now);
    }
  }

  lemma FinishedBattleInv(r: Room, n: Room, reason: EndReason, now: int)
    requires r.battle.Some? && r.dancers.Some? && r.status == Battling
    requires BattleShape(r.code, r.battle.value) && RolesAgree(r.players, r.battle.value) && DancersAgree(r, r.battle.value)
    requires reason == NotEnoughDancers <==> |r.battle.value.dancerIds| < MIN_DANCERS_PER_BATTLE
    requires n == FinishBattle(r, reason, now).room
    ensures BattleInv(n)
  {
    var b, c := r.battle.value, n.battle.value;
    Scoring.ScoringIgnoresTheEnd(b, c.finishedAt, c.endReason, c.result);
    assert CastIds(c) == CastIds(b);
  }

  // ----- departures -----

  lemma VacatedSeats(fold: Fold, r: Room, gone: Id)
    requires SeatsInv(r) && NamesInv(fold, r.players) && Seated(r.players, gone)
    ensures var n := Vacate(r, gone);
            && IdSet(n.players) == IdSet(r.players) - {gone}
            && n.spectators == InRole(n.players, Spectator)
            && NamesInv(fold, n.players)
            && (n.players != [] ==> SeatsInv(n))
  {
    var n := Vacate(r, gone);
    WithoutIds(r.players, gone);
    WithoutInRole(r.players, gone, Spectator);
    WithoutKeepsNames(fold, r.players, gone);
    DropIsKeep(Ids(r.players), gone, IdSet(r.players) - {gone});
    KeepDistinct(Ids(r.players), IdSet(r.players) - {gone});
    if n.players != [] {
      assert Ids(n.players)[0] == n.players[0].id;
    }
  }

  lemma SettledShape(code: string, b: Battle, gone: Id)
    requires BattleShape(code, b)
    requires Drop(b.dancerIds, gone) != []
    ensures BattleShape(code, b.(dancerIds := Drop(b.dancerIds, gone), votes := VotesWithout(b.votes, gone)))
  {
    var c := b.(dancerIds := Drop(b.dancerIds, gone), votes := VotesWithout(b.votes, gone));
    assert CastIds(c) == CastIds(b);
    DropFromKeep(EntryIds(b.roster), ToSet(b.dancerIds), gone);
    assert ToSet(c.dancerIds) == ToSet(b.dancerIds) - {gone};
  }

  lemma SettledDancers(r: Room, gone: Id)
    requires SeatsInv(r) && r.battle.Some? && r.dancers.Some? && DancersAgree(r, r.battle.value)
    requires Seated(r.players, gone)
    ensures var n, b := Vacate(r, gone), r.battle.value;
            && DancersAgree(n, b)
            && DancersAgree(n, b.(dancerIds := Drop(b.dancerIds, gone), votes := VotesWithout(b.votes, gone)))
  {
    var n, b := Vacate(r, gone), r.battle.value;
    WithoutIds(r.players, gone);
    WithoutIds(r.dancers.value, gone);
    assert IdSet(n.players) == IdSet(r.players) - {gone};
    DropFromKeep(b.dancerIds, IdSet(r.players), gone);
    DropIsKeep(b.dancerIds, gone, ToSet(b.dancerIds) - {gone});
    KeepTwice(b.dancerIds, ToSet(b.dancerIds) - {gone}, IdSet(n.players));
    KeepSame(b.dancerIds, (ToSet(b.dancerIds) - {gone}) * IdSet(n.players), IdSet(n.players));
  }

  lemma {:induction false} DropDistinct(s: seq<Id>, gone: Id)
    requires Distinct(s)
    ensures |Drop(s, gone)| == if gone in s then |s| - 1 else |s|
  {
    if s != [] {
      assert forall x :: x in s[1..] ==> x != s[0];
      DropDistinct(s[1..], gone);
    }
  }

  /** The running battle after a departure, before its end is decided. */
  function Remaining(b: Battle, gone: Id): Battle {
    b.(dancerIds := Drop(b.dancerIds, gone), votes := VotesWithout(b.votes, gone))
  }

  lemma RemainingDancers(fold: Fold, r: Room, gone: Id)
    requires Inv(fold, r) && r.status == Battling && Seated(r.players, gone)
    ensures |Remaining(r.battle.value, gone).dancerIds| >= 1
    ensures BattleShape(r.code, Remaining(r.battle.value, gone))
  {
    var b := r.battle.value;
    DancersDistinct(r.code, b);
    DropDistinct(b.dancerIds, gone);
    SettledShape(r.code, b, gone);
  }

  lemma RemainingAgrees(fold: Fold, r: Room, gone: Id)
    requires Inv(fold, r) && r.status == Battling && Seated(r.players, gone)
    ensures var n, c := Vacate(r, gone), Remaining(r.battle.value, gone);
            && RolesAgree(n.players, c)
            && ToSet(c.dancerIds) <= IdSet(n.players)
            && (forall v :: v in c.votes ==> Seated(n.spectators, v))
  {
    WithoutIds(r.players, gone);
    WithoutIds(r.spectators, gone);
    VacatedSeats(fold, r, gone);
  }

  lemma LeaveKeepsRunning(fold: Fold, r: Room, gone: Id, now: int)
    requires Inv(fold, r) && r.status == Battling && Seated(r.players, gone)
    ensures BattleInv(SettleBattle(Vacate(r, gone), gone, now))
    ensures Vacate(r, gone).players != []
  {
    var n, c := Vacate(r, gone), Remaining(r.battle.value, gone);
    SettledDancers(r, gone);
    RemainingDancers(fold, r, gone);
    RemainingAgrees(fold, r, gone);
    assert c.dancerIds[0] in IdSet(n.players);
    var continuing := n.(battle := Some(c));
    if |c.dancerIds| < MIN_DANCERS_PER_BATTLE {
      FinishedBattleInv(continuing, FinishBattle(continuing, NotEnoughDancers, now).room, NotEnoughDancers, now);
    }
  }

  lemma LeaveKeepsBattle(fold: Fold, r: Room, gone: Id, now: int)
    requires Inv(fold, r) && Seated(r.players, gone)
    ensures BattleInv(SettleBattle(Vacate(r, gone), gone, now))
    ensures r.status == Battling ==> Vacate(r, gone).players != []
  {
    if r.status == Battling {
      LeaveKeepsRunning(fold, r, gone, now);
    } else if r.status == Finished {
      WithoutIds(r.players, gone);
      SettledDancers(r, gone);
    }
  }

  /** The battle part of the invariant does not look at the song selection. */
  lemma SelectionIsApart(r: Room, selection: Option<SongSelection>)
    requires BattleInv(r)
    ensures BattleInv(r.(songSelection := selection))
  {
    if r.battle.Some? {
      assert DancersAgree(r.(songSelection := selection), r.battle.value);
    }
  }

  lemma LeaveKeepsSelection(r: Room, settled: Room, gone: Id, now: int, draw: nat)
    requires SelectionInv(r) && settled.songSelection == r.songSelection && settled.selectedSong == r.selectedSong
    requires r.status == Waiting ==> settled.status == Waiting
    requires settled.players == Without(r.players, gone)
    ensures SelectionInv(HandlePlayerLeft(settled, gone, draw, now))
  {
    WithoutIds(r.players, gone);
    var n := HandlePlayerLeft(settled, gone, draw, now);
    if InProgress(r) {
      assert settled.status == Waiting;
    }
  }

  lemma SettledStatus(n: Room, gone: Id, now: int)
    requires n.status == Waiting <==> n.battle.None?
    ensures var s := SettleBattle(n, gone, now);
            (s.status == Waiting <==> n.status == Waiting) && (s.battle.None? <==> n.battle.None?)
  {
  }

  /** The seats do not depend on the state of the battle. */
  lemma SeatsAreApart(n: Room, s: Room)
    requires SeatsInv(n) && s == n.(status := s.status, battle := s.battle, lastResult := s.lastResult)
    requires (s.status == Waiting <==> n.status == Waiting) && (s.battle.None? <==> n.battle.None?)
    ensures SeatsInv(s) && s.players == n.players
  {
  }

  lemma SettledSeats(fold: Fold, r: Room, gone: Id, now: int)
    requires Inv(fold, r) && Seated(r.players, gone) && Without(r.players, gone) != []
    ensures var s := SettleBattle(Vacate(r, gone), gone, now); SeatsInv(s) && NamesInv(fold, s.players)
  {
    VacatedSeats(fold, r, gone);
    SettledStatus(Vacate(r, gone), gone, now);
    SeatsAreApart(Vacate(r, gone), SettleBattle(Vacate(r, gone), gone, now));
  }

  lemma LeaveKeeps(fold: Fold, r: Room, gone: Id, now: int, draw: nat)
    requires Inv(fold, r) && Seated(r.players, gone) && Without(r.players, gone) != []
    ensures Inv(fold, RoomService.Leave(r, gone, now, draw).room)
  {
    var settled := SettleBattle(Vacate(r, gone), gone, now);
    var n := HandlePlayerLeft(settled, gone, draw, now);
    SettledSeats(fold, r, gone, now);
    LeaveKeepsBattle(fold, r, gone, now);
    LeaveKeepsSelection(r, settled, gone, now, draw);
    SelectionIsApart(settled, n.songSelection);
  }

  lemma RematchKeeps(fold: Fold, r: Room, requesterId: Id)
    requires Inv(fold, r)
    ensures var o := RoomService.Rematch(r, requesterId); o.Changed? ==> Inv(fold, o.room)
  {
    var o := RoomService.Rematch(r, requesterId);
    if o.Changed? {
      SameNames(fold, r.players, o.room.players);
    }
  }

  // ----- every step, every run -----

  lemma StartAfterKeeps(fold: Fold, chosen: Outcome, options: StartOptions, battleId: Id)
    requires chosen.Changed? ==> Inv(fold, chosen.room)
    ensures var o := StartAfter(chosen, options, battleId); o.Changed? ==> Inv(fold, o.room)
  {
    if chosen.Changed? && RoomService.StartBattle(chosen.room, None, options, battleId).Changed? {
      StartBattleKeeps(fold, chosen.room, None, options, battleId);
    }
  }

  lemma LeaveEventKeeps(fold: Fold, r: Room, e: Event)
    requires Inv(fold, r) && (e.Leave? || e.Kick?)
    ensures var o := Mutate(fold, r, e); o.Changed? ==> Inv(fold, o.room)
  {
    if Mutate(fold, r, e).Changed? {
      if e.Kick? { KickLeavesTheHost(r, e.requesterId, e.id); }
      LeaveKeeps(fold, r, e.id, e.now, e.draw);
    }
  }

  lemma SongEventKeeps(fold: Fold, r: Room, e: Event)
    requires Inv(fold, r) && (e.ChooseSong? || e.AutoPickSong?)
    ensures var o := Mutate(fold, r, e); o.Changed? ==> Inv(fold, o.room)
  {
    if e.ChooseSong? {
      ChooseKeeps(fold, r, e.id, e.songId);
    } else {
      AutoPickKeeps(fold, r, e.challengeId, e.options.now, e.draw);
    }
    StartAfterKeeps(fold, Chosen(r, e), e.options, e.battleId);
  }

  lemma RoleEventKeeps(fold: Fold, r: Room, e: Event)
    requires Inv(fold, r) && (e.SelectRole? || e.SetReady?)
    ensures var o := Mutate(fold, r, e); o.Changed? ==> Inv(fold, o.room)
  {
    var o := Mutate(fold, r, e);
    if o.Changed? { LobbyChangeKeeps(fold, r, o.room.players); }
  }

  lemma JoinEventKeeps(fold: Fold, r: Room, e: Event)
    requires Inv(fold, r) && e.Join?
    ensures var o := Mutate(fold, r, e); o.Changed? ==> Inv(fold, o.room)
  {
    if Mutate(fold, r, e).Changed? { JoinKeeps(fold, r, e.id, Trim(e.displayName)); }
  }

  lemma AwardEventKeeps(fold: Fold, r: Room, e: Event)
    requires Inv(fold, r) && e.AwardWordBonus?
    ensures var o := Mutate(fold, r, e); o.Changed? ==> Inv(fold, o.room)
  {
    AwardKeeps(fold, r, e.id);
  }

  lemma VoteEventKeeps(fold: Fold, r: Room, e: Event)
    requires Inv(fold, r) && e.CastVote?
    ensures var o := Mutate(fold, r, e); o.Changed? ==> Inv(fold, o.room)
  {
    CastVoteKeeps(fold, r, e.id, e.choice, e.now);
  }

  lemma DeadlineEventKeeps(fold: Fold, r: Room, e: Event)
    requires Inv(fold, r) && e.FinishAtDeadline?
    ensures var o := Mutate(fold, r, e); o.Changed? ==> Inv(fold, o.room)
  {
    if Mutate(fold, r, e).Changed? { FinishKeeps(fold, r, SongEnd, e.now); }
  }

  lemma StartEventKeeps(fold: Fold, r: Room, e: Event)
    requires Inv(fold, r) && (e.StartBattle? || e.Rematch?)
    ensures var o := Mutate(fold, r, e); o.Changed? ==> Inv(fold, o.room)
  {
    if e.StartBattle? {
      if Mutate(fold, r, e).Changed? { StartBattleKeeps(fold, r, e.dancerIds, e.options, e.battleId); }
    } else {
      RematchKeeps(fold, r, e.requesterId);
    }
  }

  lemma ChallengeEventKeeps(fold: Fold, r: Room, e: Event)
    requires Inv(fold, r) && (e.StartChallenge? || e.SubmitPhrase? || e.ExpireChallenge?)
    ensures var o := Mutate(fold, r, e); o.Changed? ==> Inv(fold, o.room)
  {
    match e
    case StartChallenge(_, now, challenge, challengeId, draw) => StartKeeps(fold, r, now, challenge, challengeId, draw);
    case SubmitPhrase(id, text, now, draw) => SubmitKeeps(fold, r, id, text, now, draw);
    case ExpireChallenge(challengeId, now, draw) => ExpireKeeps(fold, r, challengeId, draw, now);
  }

  /** Every update keeps the invariant. */
  lemma MutateKeeps(fold: Fold, r: Room, e: Event)
    requires Inv(fold, r)
    ensures var o := Mutate(fold, r, e); o.Changed? ==> Inv(fold, o.room)
  {
    match e
    case Join(_, _) => JoinEventKeeps(fold, r, e);
    case SelectRole(_, _) => RoleEventKeeps(fold, r, e);
    case SetReady(_, _) => RoleEventKeeps(fold, r, e);
    case Leave(_, _, _) => LeaveEventKeeps(fold, r, e);
    case Kick(_, _, _, _) => LeaveEventKeeps(fold, r, e);
    case StartBattle(_, _, _, _) => StartEventKeeps(fold, r, e);
    case AwardWordBonus(_) => AwardEventKeeps(fold, r, e);
    case CastVote(_, _, _) => VoteEventKeeps(fold, r, e);
    case FinishAtDeadline(_, _) => DeadlineEventKeeps(fold, r, e);
    case Rematch(_) => StartEventKeeps(fold, r, e);
    case StartChallenge(_, _, _, _, _) => ChallengeEventKeeps(fold, r, e);
    case SubmitPhrase(_, _, _, _) => ChallengeEventKeeps(fold, r, e);
    case ExpireChallenge(_, _, _) => ChallengeEventKeeps(fold, r, e);
    case ChooseSong(_, _, _, _) => SongEventKeeps(fold, r, e);
    case AutoPickSong(_, _, _, _) => SongEventKeeps(fold, r, e);
    case DeleteIfEmpty =>
  }

  lemma KickLeavesTheHost(r: Room, requesterId: Id, id: Id)
    requires SeatsInv(r) && r.hostId == requesterId && id != requesterId
    ensures Without(r.players, id) != []
  {
    WithoutIds(r.players, id);
    assert requesterId in Drop(Ids(r.players), id);
  }

  lemma VersionIsApart(fold: Fold, r: Room, version: nat)
    requires Inv(fold, r)
    ensures Inv(fold, r.(version := version))
  {
    if r.battle.Some? {
      assert DancersAgree(r.(version := version), r.battle.value);
    }
  }

  lemma NextKeeps(fold: Fold, r: Room, e: Event)
    requires Inv(fold, r)
    ensures var n := Next(fold, r, e); n.Some? ==> Inv(fold, n.value)
  {
    MutateKeeps(fold, r, e);
    StoringKeeps(fold, r, Mutate(fold, r, e));
    NextCommits(fold, r, e);
  }

  lemma StoringKeeps(fold: Fold, r: Room, o: Outcome)
    requires Inv(fold, r) && (o.Changed? ==> Inv(fold, o.room))
    ensures RowAfter(r, o).Some? ==> Inv(fold, RowAfter(r, o).value)
  {
    if o.Changed? { VersionIsApart(fold, o.room, r.version + 1); }
  }

  /** Every room that any series of updates makes of a new room satisfies the invariant. */
  lemma {:induction false} RunKeeps(fold: Fold, r: Room, events: seq<Event>)
    requires Inv(fold, r)
    ensures var n := Run(fold, r, events); n.Some? ==> Inv(fold, n.value)
    decreases |events|
  {
    if events != [] {
      NextKeeps(fold, r, events[0]);
      var n := Next(fold, r, events[0]);
      if n.Some? { RunKeeps(fold, n.value, events[1..]); }
    }
  }

  ghost predicate Reachable(fold: Fold, r: Room) {
    exists id: Id, name: string, code: string, at: int, events: seq<Event> ::
      var created := Create(id, name, code, at);
      created.Changed? && Run(fold, created.room, events) == Some(r)
  }

  lemma ReachableInv(fold: Fold, r: Room)
    requires Reachable(fold, r)
    ensures Inv(fold, r)
  {
    var id: Id, name: string, code: string, at: int, events: seq<Event> :|
      var created := Create(id, name, code, at);
      created.Changed? && Run(fold, created.room, events) == Some(r);
    CreateEstablishes(fold, id, name, code, at);
    RunKeeps(fold, Create(id, name, code, at).room, events);
  }
}
