/** Under which names the dancers of a battle appear in its table: those they had in the room
    when it started. */
module BattleNames {
  import opened Sequences
  import opened Text
  import opened Domain
  import opened RoomEvents
  import opened RoomInvariant
  import opened BattleRun
  import RoomService
  import Scoring
  import SongSelecting

  /** Everyone cast in a battle is in the room, under the name they are cast with. */
  ghost predicate CastFrom(players: seq<Player>, b: Battle) {
    && (forall entry :: entry in b.roster ==> IsNamed(players, entry))
    && (forall entry :: entry in b.audience ==> IsNamed(players, entry))
  }

  lemma EntriesAreNames(players: seq<Player>, entry: RosterEntry) returns (p: Player)
    requires entry in RoomService.Entries(players)
    ensures p in players && p.id == entry.id && p.displayName == entry.displayName
  {
    var k :| 0 <= k < |players| && RoomService.Entries(players)[k] == entry;
    p := players[k];
  }

  ghost predicate IsNamed(players: seq<Player>, entry: RosterEntry) {
    exists p :: p in players && p.id == entry.id && p.displayName == entry.displayName
  }

  lemma DancersAreNamed(players: seq<Player>, ids: seq<Id>, entry: RosterEntry)
    requires forall id :: id in ids ==> Seated(players, id)
    requires entry in RoomService.Entries(RoomService.DancersOf(players, ids))
    ensures IsNamed(players, entry)
  {
    var dancer := EntriesAreNames(RoomService.DancersOf(players, ids), entry);
    var k :| 0 <= k < |ids| && RoomService.DancersOf(players, ids)[k] == dancer;
    assert Find(players, ids[k]).value in players;
  }

  lemma SpectatorsAreNamed(players: seq<Player>, ids: seq<Id>, entry: RosterEntry)
    requires entry in RoomService.Entries(InRole(RoomService.SeatAll(players, ids), Spectator))
    ensures IsNamed(players, entry)
  {
    var seats := RoomService.SeatAll(players, ids);
    var seat := EntriesAreNames(InRole(seats, Spectator), entry);
    InRoleMembers(seats, Spectator);
    var k :| 0 <= k < |players| && seats[k] == seat;
    assert players[k] in players;
  }

  lemma StartCasts(r: Room, dancerIds: Option<seq<Id>>, options: RoomService.StartOptions, battleId: Id)
    requires RoomService.StartBattle(r, dancerIds, options, battleId).Changed?
    ensures CastFrom(r.players, RoomService.StartBattle(r, dancerIds, options, battleId).room.battle.value)
  {
    var ids := RoomService.SelectedIds(r, dancerIds);
    var b := RoomService.StartBattle(r, dancerIds, options, battleId).room.battle.value;
    assert b.roster == RoomService.Entries(RoomService.DancersOf(r.players, ids));
    assert b.audience == RoomService.Entries(InRole(RoomService.SeatAll(r.players, ids), Spectator));
    forall entry | entry in b.roster ensures IsNamed(r.players, entry) { DancersAreNamed(r.players, ids, entry); }
    forall entry | entry in b.audience ensures IsNamed(r.players, entry) { SpectatorsAreNamed(r.players, ids, entry); }
  }

  lemma StartAfterCasts(chosen: Outcome, options: RoomService.StartOptions, battleId: Id)
    requires chosen.Changed? && chosen.room.battle.None?
    ensures var o := StartAfter(chosen, options, battleId);
            o.Changed? && o.room.battle.Some? ==> CastFrom(chosen.room.players, o.room.battle.value)
  {
    if RoomService.StartBattle(chosen.room, None, options, battleId).Changed? {
      StartCasts(chosen.room, None, options, battleId);
    }
  }

  lemma ChosenKeepsPlayers(r: Room, e: Event)
    requires (e.ChooseSong? || e.AutoPickSong?) && Chosen(r, e).Changed? && r.battle.None?
    ensures Chosen(r, e).room.players == r.players && Chosen(r, e).room.battle.None?
  {
  }

  lemma PickCasts(fold: Fold, r: Room, e: Event)
    requires r.battle.None? && (e.ChooseSong? || e.AutoPickSong?)
    ensures var n := Next(fold, r, e); n.Some? && n.value.battle.Some? ==> CastFrom(r.players, n.value.battle.value)
  {
    NextCommits(fold, r, e);
    if Chosen(r, e).Changed? {
      ChosenKeepsPlayers(r, e);
      StartAfterCasts(Chosen(r, e), e.options, e.battleId);
    }
  }

  lemma HostStartCasts(fold: Fold, r: Room, e: Event)
    requires r.battle.None? && e.StartBattle?
    ensures var n := Next(fold, r, e); n.Some? && n.value.battle.Some? ==> CastFrom(r.players, n.value.battle.value)
  {
    NextCommits(fold, r, e);
    if RoomService.StartBattle(r, e.dancerIds, e.options, e.battleId).Changed? { StartCasts(r, e.dancerIds, e.options, e.battleId); }
  }

  lemma OthersStartNothing(fold: Fold, r: Room, e: Event)
    requires Inv(fold, r) && r.status == Waiting && !e.StartBattle? && !e.ChooseSong? && !e.AutoPickSong?
    ensures var n := Next(fold, r, e); n.Some? ==> n.value.battle.None?
  {
    NextCommits(fold, r, e);
  }

  /** A battle that starts is cast from the room as it is then. */
  lemma NewBattleIsCast(fold: Fold, r: Room, e: Event)
    requires Inv(fold, r) && r.status == Waiting
    ensures var n := Next(fold, r, e); n.Some? && n.value.battle.Some? ==> CastFrom(r.players, n.value.battle.value)
  {
    if e.StartBattle? {
      HostStartCasts(fold, r, e);
    } else if e.ChooseSong? || e.AutoPickSong? {
      PickCasts(fold, r, e);
    } else {
      OthersStartNothing(fold, r, e);
    }
  }

  lemma BattleStaysTheSame(fold: Fold, r: Room, e: Event)
    requires Inv(fold, r) && r.status != Waiting
    ensures var n := Next(fold, r, e);
            r.battle.Some? && (n.Some? && n.value.battle.Some? ==> SameContest(r.battle.value, n.value.battle.value))
  {
    NextKeeps(fold, r, e);
    if r.status == Battling { RunningStep(fold, r, e); } else { FinishedStep(fold, r, e); }
  }

  // ----- over runs -----

  /** Before its k-th update the room was in the lobby, that update started a battle cast from
      the room, and it is this one. */
  ghost predicate StartedAt(fold: Fold, r: Room, events: seq<Event>, b: Battle, k: nat) {
    && k < |events|
    && var before := Run(fold, r, events[..k]);
       && before.Some? && before.value.status == Waiting && Distinct(Ids(before.value.players))
       && var started := Next(fold, before.value, events[k]);
          && started.Some? && started.value.battle.Some?
          && SameContest(started.value.battle.value, b) && CastFrom(before.value.players, b)
  }

  lemma StillStartedAt(fold: Fold, r: Room, events: seq<Event>, e: Event, b: Battle, c: Battle, k: nat)
    requires StartedAt(fold, r, events, b, k) && SameContest(b, c)
    ensures StartedAt(fold, r, events + [e], c, k)
  {
    assert (events + [e])[..k] == events[..k] && (events + [e])[k] == events[k];
  }

  lemma StartsNow(fold: Fold, r: Room, events: seq<Event>, e: Event, b: Battle)
    requires Run(fold, r, events).Some? && Inv(fold, Run(fold, r, events).value) && Run(fold, r, events).value.status == Waiting
    requires Next(fold, Run(fold, r, events).value, e).Some? && Next(fold, Run(fold, r, events).value, e).value.battle == Some(b)
    ensures StartedAt(fold, r, events + [e], b, |events|)
  {
    assert (events + [e])[..|events|] == events && (events + [e])[|events|] == e;
    NewBattleIsCast(fold, Run(fold, r, events).value, e);
  }

  lemma {:induction false} BattleHasAStart(fold: Fold, r: Room, events: seq<Event>) returns (k: nat)
    requires Inv(fold, r) && r.status == Waiting && events != []
    requires Run(fold, r, events).Some? && Run(fold, r, events).value.battle.Some?
    ensures StartedAt(fold, r, events, Run(fold, r, events).value.battle.value, k)
    decreases |events|
  {
    var before, e := events[..|events| - 1], events[|events| - 1];
    assert events == before + [e];
    RunOneMore(fold, r, before, e);
    RunKeeps(fold, r, before);
    var m := Run(fold, r, before).value;
    var b := Run(fold, r, events).value.battle.value;
    if m.status == Waiting {
      StartsNow(fold, r, before, e, b);
      k := |before|;
    } else {
      BattleStaysTheSame(fold, m, e);
      k := BattleHasAStart(fold, r, before);
      StillStartedAt(fold, r, before, e, m.battle.value, b, k);
    }
  }

  /** Every line of a table is about somebody in the room, under the name they have there. */
  ghost predicate Named(players: seq<Player>, standings: seq<Standing>) {
    && (forall line :: line in standings ==> Seated(players, line.dancerId))
    && (forall line, p :: line in standings && p in players && p.id == line.dancerId ==> line.displayName == p.displayName)
  }

  lemma LineIsNamed(b: Battle, players: seq<Player>, line: Standing, p: Player)
    requires Distinct(EntryIds(b.roster)) && CastFrom(players, b) && Distinct(Ids(players))
    requires line in Scoring.Standings(b, b.scoring) && line.dancerId in EntryIds(b.roster)
    requires p in players && p.id == line.dancerId
    ensures line.displayName == p.displayName
  {
    Scoring.StandingsNameDancers(b, b.scoring);
    var k :| 0 <= k < |EntryIds(b.roster)| && EntryIds(b.roster)[k] == line.dancerId;
    assert b.roster[k] in b.roster && IsNamed(players, b.roster[k]);
    var q :| q in players && q.id == line.dancerId && q.displayName == b.roster[k].displayName;
    FindsThatPlayer(players, q);
    FindsThatPlayer(players, p);
  }

  lemma LineIsSeated(b: Battle, players: seq<Player>, line: Standing)
    requires CastFrom(players, b) && line.dancerId in EntryIds(b.roster)
    ensures Seated(players, line.dancerId)
  {
    var k :| 0 <= k < |EntryIds(b.roster)| && EntryIds(b.roster)[k] == line.dancerId;
    assert b.roster[k] in b.roster && IsNamed(players, b.roster[k]);
    var q :| q in players && q.id == line.dancerId;
    var j :| 0 <= j < |players| && players[j] == q;
    assert Ids(players)[j] == line.dancerId;
  }

  lemma LinesAreNamed(b: Battle, players: seq<Player>)
    requires Distinct(EntryIds(b.roster)) && CastFrom(players, b) && Distinct(Ids(players))
    requires forall id :: id in b.dancerIds ==> id in EntryIds(b.roster)
    ensures Named(players, Scoring.Standings(b, b.scoring))
  {
    var s := Scoring.Standings(b, b.scoring);
    Scoring.StandingsDescribeDancers(b, b.scoring);
    forall line | line in s ensures line.dancerId in EntryIds(b.roster) {
      var i :| 0 <= i < |s| && s[i] == line;
      assert Scoring.StandingIds(s)[i] == line.dancerId;
    }
    forall line | line in s ensures Seated(players, line.dancerId) { LineIsSeated(b, players, line); }
    forall line, p | line in s && p in players && p.id == line.dancerId ensures line.displayName == p.displayName {
      LineIsNamed(b, players, line, p);
    }
  }

  lemma RosterIsDistinct(fold: Fold, n: Room)
    requires Inv(fold, n) && n.battle.Some?
    ensures Distinct(EntryIds(n.battle.value.roster)) && forall id :: id in n.battle.value.dancerIds ==> id in EntryIds(n.battle.value.roster)
  {
    RosterDistinct(n.battle.value);
  }

  /** In every room that updates make of a new one, each line of the battle's table, live and
      frozen, bears the name its dancer had in the room when that battle started. */
  lemma TablesBearTheNamesOfTheStart(fold: Fold, id: Id, displayName: string, code: string, createdAt: int, events: seq<Event>) returns (k: nat)
    requires RoomService.Create(id, displayName, code, createdAt).Changed?
    requires var n := Run(fold, RoomService.Create(id, displayName, code, createdAt).room, events); n.Some? && n.value.battle.Some?
    ensures var created := RoomService.Create(id, displayName, code, createdAt).room;
            var b := Run(fold, created, events).value.battle.value;
            && StartedAt(fold, created, events, b, k)
            && var players := Run(fold, created, events[..k]).value.players;
               Named(players, Scoring.Standings(b, b.scoring)) && (b.result.Some? ==> Named(players, b.result.value.standings))
  {
    var created := RoomService.Create(id, displayName, code, createdAt).room;
    CreateEstablishes(fold, id, displayName, code, createdAt);
    RunKeeps(fold, created, events);
    var n := Run(fold, created, events).value;
    k := BattleHasAStart(fold, created, events);
    TableIsNamed(fold, created, events, n, k);
  }

  lemma TableIsNamed(fold: Fold, created: Room, events: seq<Event>, n: Room, k: nat)
    requires Inv(fold, n) && n.battle.Some? && StartedAt(fold, created, events, n.battle.value, k)
    ensures var players, b := Run(fold, created, events[..k]).value.players, n.battle.value;
            Named(players, Scoring.Standings(b, b.scoring)) && (b.result.Some? ==> Named(players, b.result.value.standings))
  {
    RosterIsDistinct(fold, n);
    LinesAreNamed(n.battle.value, Run(fold, created, events[..k]).value.players);
    if n.battle.value.result.Some? { FrozenIsFresh(fold, n); }
  }

  lemma FrozenIsFresh(fold: Fold, n: Room)
    requires Inv(fold, n) && n.battle.Some? && n.battle.value.result.Some?
    ensures n.battle.value.result.value.standings == Scoring.Standings(n.battle.value, n.battle.value.scoring)
  {
    assert BattleInv(n) && SeatsInv(n);
  }
}
