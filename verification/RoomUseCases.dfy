/** The use cases that report more than the stored room. Their flags are captured while
    the mutation runs; here they are shown to describe what really happened to the row. */
module RoomUseCases {
  import opened Sequences
  import opened Text
  import opened Domain
  import opened RoomStore
  import opened RoomEvents
  import opened RoomInvariant
  import BattleRun
  import RoomService
  import SongSelecting

  function Decision(fold: Fold, e: Event): (m: RoomMutation)
    ensures forall room :: m(room) == Mutate(fold, room, e)
  {
    room => Mutate(fold, room, e)
  }

  /** The store went from `before` to `after` by one atomic update of one room. */
  ghost predicate Updated(fold: Fold, before: map<string, Room>, after: map<string, Room>, code: string, e: Event, reply: Reply) {
    && (RowOf(after, Upper(code)), reply) == Atomic(RowOf(before, Upper(code)), Decision(fold, e))
    && (forall key :: key != Upper(code) ==> RowOf(after, key) == RowOf(before, key))
  }

  function VotesOf(room: Room): map<Id, Id> {
    if room.battle.Some? then room.battle.value.votes else map[]
  }

  /** The voters, other than the leaver, whose vote a departure discards. */
  function Discarded(room: Room, playerId: Id, now: int, draw: nat): set<Id> {
    var o := RoomService.Leave(room, playerId, now, draw);
    if o.Changed? then set v | v in VotesOf(room) && v != playerId && v !in VotesOf(o.room) else {}
  }

  lemma FinishedKeepsVotes(fold: Fold, room: Room, playerId: Id, now: int, draw: nat)
    requires Inv(fold, room) && room.status != Battling && Seated(room.players, playerId)
    ensures VotesOf(RoomService.Leave(room, playerId, now, draw).room) == VotesOf(room)
  {
  }

  /** A vote is discarded exactly when a battle runs and its dancer is the one who left. */
  lemma DiscardedForTheLeaver(fold: Fold, room: Room, playerId: Id, now: int, draw: nat, voter: Id)
    requires Inv(fold, room)
    ensures voter in Discarded(room, playerId, now, draw) <==>
              room.status == Battling && Seated(room.players, playerId) && RoomService.VoteOf(room, voter) == Some(playerId)
  {
    if Seated(room.players, playerId) {
      if room.status == Battling {
        BattleRun.LeaveWhileRunning(fold, room, playerId, now, draw);
        LeaverHasNoOwnVote(fold, room, playerId);
      } else {
        FinishedKeepsVotes(fold, room, playerId, now, draw);
      }
    }
  }

  /** No dancer votes, so nobody's vote names themselves. */
  lemma LeaverHasNoOwnVote(fold: Fold, room: Room, playerId: Id)
    requires Inv(fold, room) && room.status == Battling
    ensures RoomService.VoteOf(room, playerId) != Some(playerId)
  {
    if playerId in VotesOf(room) {
      SpectatorsAreSeated(room, playerId);
      SpectatorOrDancer(room, playerId);
    }
  }

  /** Whoever lost their vote that way still sits among the spectators, with no vote. */
  lemma DiscardedVotersStay(fold: Fold, room: Room, playerId: Id, now: int, draw: nat, voter: Id)
    requires Inv(fold, room) && voter in Discarded(room, playerId, now, draw)
    ensures var o := RoomService.Leave(room, playerId, now, draw);
            o.Changed? && Seated(o.room.spectators, voter) && RoomService.VoteOf(o.room, voter) == None
  {
    DiscardedForTheLeaver(fold, room, playerId, now, draw, voter);
    WithoutIds(room.spectators, playerId);
    assert voter in Drop(Ids(room.spectators), playerId);
  }

  lemma SameRows(a: map<string, Room>, b: map<string, Room>)
    requires forall key :: RowOf(a, key) == RowOf(b, key)
    ensures a == b
  {
    forall key ensures key in a <==> key in b {
      assert RowOf(a, key) == RowOf(b, key);
    }
    forall key | key in a ensures a[key] == b[key] {
      assert RowOf(a, key) == RowOf(b, key);
    }
  }

  /** Whether a chosen song starts the battle. */
  predicate Starts(chosen: Outcome, options: RoomService.StartOptions, battleId: Id) {
    && chosen.Changed? && chosen.room.songSelection.Some?
    && RoomService.StartBattle(chosen.room, None, options, battleId).Changed?
  }

  /** A started battle is one the stored change moves to battling, and the song stays chosen either way. */
  lemma StartsExactly(chosen: Outcome, options: RoomService.StartOptions, battleId: Id)
    requires StartAfter(chosen, options, battleId).Changed?
    ensures var n := StartAfter(chosen, options, battleId).room;
            && chosen.Changed?
            && (Starts(chosen, options, battleId) <==> chosen.room.status != Battling && n.status == Battling)
            && (Starts(chosen, options, battleId) ==> n.battle.Some? && n.battle.value.id == battleId)
            && n.selectedSong == chosen.room.selectedSong
  {
  }

  /** What the flags of a departure say about the row before and after it. */
  ghost predicate TellsOfDeparture(before: Room, after: Option<Room>, playerId: Id, battleFinished: bool, discardedVoterIds: set<Id>) {
    && (battleFinished <==> before.status == Battling && after.Some? && after.value.status == Finished)
    && (forall v :: v in discardedVoterIds <==>
          before.status == Battling && Seated(before.players, playerId) && RoomService.VoteOf(before, v) == Some(playerId))
  }

  lemma FlagsTell(fold: Fold, room: Room, playerId: Id, now: int, draw: nat)
    requires Inv(fold, room)
    ensures var e := Event.Leave(playerId, now, draw);
            TellsOfDeparture(room, Next(fold, room, e), playerId, BattleRun.Reports(room, e), Discarded(room, playerId, now, draw))
  {
    BattleRun.LeaveReports(fold, room, Event.Leave(playerId, now, draw));
    forall v ensures v in Discarded(room, playerId, now, draw) <==>
              room.status == Battling && Seated(room.players, playerId) && RoomService.VoteOf(room, v) == Some(playerId) {
      DiscardedForTheLeaver(fold, room, playerId, now, draw, v);
    }
  }

  lemma AtomicIsNext(fold: Fold, room: Room, playerId: Id, now: int, draw: nat)
    ensures var e := Event.Leave(playerId, now, draw); Atomic(Some(room), Decision(fold, e)).0 == Next(fold, room, e)
  {
  }

  class JoinRoom {
    const fold: Fold
    const rooms: InMemoryRoomRepository

    constructor (fold: Fold, rooms: InMemoryRoomRepository)
      ensures this.fold == fold && this.rooms == rooms
    {
      this.fold, this.rooms := fold, rooms;
    }

    /** A departure. It is reported as the end of the battle exactly when the stored room
        went from battling to finished, which no deletion does, and the voters it names
        are exactly those who had voted for the leaver in the running battle. */
    method Leave(code: string, playerId: Id, now: int, draw: nat)
      returns (reply: Reply, battleFinished: bool, discardedVoterIds: set<Id>)
      modifies rooms
      ensures Updated(fold, old(rooms.rooms), rooms.rooms, code, Event.Leave(playerId, now, draw), reply)
      ensures var before, after := RowOf(old(rooms.rooms), Upper(code)), RowOf(rooms.rooms, Upper(code));
              if before.None? then !battleFinished && discardedVoterIds == {}
              else Inv(fold, before.value) ==> TellsOfDeparture(before.value, after, playerId, battleFinished, discardedVoterIds)
    {
      battleFinished, discardedVoterIds := false, {};
      var e := Event.Leave(playerId, now, draw);
      var current := rooms.FindByCode(code);
      if current.Some? {
        battleFinished := BattleRun.Reports(current.value, e);
        discardedVoterIds := Discarded(current.value, playerId, now, draw);
        MutationsKeepIdentity(fold, current.value, e);
        AtomicIsNext(fold, current.value, playerId, now, draw);
        if Inv(fold, current.value) { FlagsTell(fold, current.value, playerId, now, draw); }
      }
      reply := rooms.Update(code, Decision(fold, e));
    }
  }

  class FinishBattleAtDeadline {
    const fold: Fold
    const rooms: InMemoryRoomRepository

    constructor (fold: Fold, rooms: InMemoryRoomRepository)
      ensures this.fold == fold && this.rooms == rooms
    {
      this.fold, this.rooms := fold, rooms;
    }

    /** The end of the song. The call reports the finish exactly when it was the one that
        moved the battle it was set for from running to finished. */
    method Execute(code: string, battleId: Id, now: int) returns (reply: Reply, finished: bool)
      modifies rooms
      ensures Updated(fold, old(rooms.rooms), rooms.rooms, code, Event.FinishAtDeadline(battleId, now), reply)
      ensures var before, after := RowOf(old(rooms.rooms), Upper(code)), RowOf(rooms.rooms, Upper(code));
              finished <==> before.Some? && before.value.status == Battling && after.Some? && after.value.status == Finished
      ensures finished ==>
                && var before := old(rooms.rooms)[Upper(code)];
                   before.battle.Some? && before.battle.value.id == battleId && now >= before.battle.value.endsAt
    {
      finished := false;
      var e := Event.FinishAtDeadline(battleId, now);
      var current := rooms.FindByCode(code);
      if current.Some? {
        if current.value.battle.Some? && current.value.battle.value.id == battleId {
          finished := RoomService.FinishAtDeadline(current.value, now).Changed?;
        }
        MutationsKeepIdentity(fold, current.value, e);
      }
      reply := rooms.Update(code, Decision(fold, e));
    }
  }

  class CastVote {
    const fold: Fold
    const rooms: InMemoryRoomRepository

    constructor (fold: Fold, rooms: InMemoryRoomRepository)
      ensures this.fold == fold && this.rooms == rooms
    {
      this.fold, this.rooms := fold, rooms;
    }

    /** A vote that is accepted is stored as asked, and `changed` tells whether it was
        not the stored one already; nothing is written when it was. */
    method Execute(code: string, voterId: Id, choice: Option<Id>, now: int) returns (reply: Reply, dancerId: Option<Id>, changed: bool)
      modifies rooms
      ensures Updated(fold, old(rooms.rooms), rooms.rooms, code, Event.CastVote(voterId, choice, now), reply)
      ensures reply.Failed? ==> rooms.rooms == old(rooms.rooms) && !changed
      ensures !reply.Failed? ==>
                && Upper(code) in old(rooms.rooms) && Upper(code) in rooms.rooms
                && RoomService.VoteOf(rooms.rooms[Upper(code)], voterId) == choice == dancerId
                && (changed <==> RoomService.VoteOf(old(rooms.rooms)[Upper(code)], voterId) != choice)
                && (!changed ==> rooms.rooms[Upper(code)] == old(rooms.rooms)[Upper(code)])
    {
      dancerId, changed := None, false;
      var e := Event.CastVote(voterId, choice, now);
      var current := rooms.FindByCode(code);
      if current.Some? {
        changed := RoomService.CastVote(current.value, voterId, choice, now).Changed?;
        MutationsKeepIdentity(fold, current.value, e);
      }
      reply := rooms.Update(code, Decision(fold, e));
      if reply.Failed? { SameRows(rooms.rooms, old(rooms.rooms)); }
      if reply.Stored? || reply.Kept? {
        dancerId := RoomService.VoteOf(reply.room, voterId);
      }
    }
  }

  class ChooseSong {
    const fold: Fold
    const rooms: InMemoryRoomRepository

    constructor (fold: Fold, rooms: InMemoryRoomRepository)
      ensures this.fold == fold && this.rooms == rooms
    {
      this.fold, this.rooms := fold, rooms;
    }

    /** The chosen song starts the battle in the same stored change, and that is what
        `battleStarted` says; a choice that cannot start it yet still stays chosen. */
    method Execute(code: string, playerId: Id, songId: Id, options: RoomService.StartOptions, battleId: Id)
      returns (reply: Reply, battleStarted: bool)
      modifies rooms
      ensures Updated(fold, old(rooms.rooms), rooms.rooms, code, Event.ChooseSong(playerId, songId, options, battleId), reply)
      ensures reply.Stored? ==>
                && reply.room.selectedSong.Some? && reply.room.selectedSong.value.id == songId
                && Upper(code) in old(rooms.rooms)
                && (battleStarted <==> old(rooms.rooms)[Upper(code)].status != Battling && reply.room.status == Battling)
                && (battleStarted ==> reply.room.battle.Some? && reply.room.battle.value.id == battleId)
    {
      battleStarted := false;
      var e := Event.ChooseSong(playerId, songId, options, battleId);
      var current := rooms.FindByCode(code);
      if current.Some? {
        var chosen := SongSelecting.Choose(current.value, playerId, songId);
        battleStarted := Starts(chosen, options, battleId);
        if StartAfter(chosen, options, battleId).Changed? { StartsExactly(chosen, options, battleId); }
        MutationsKeepIdentity(fold, current.value, e);
      }
      reply := rooms.Update(code, Decision(fold, e));
    }

    /** The server's pick for a chooser who let the deadline pass; harmless when the
        selection moved on meanwhile: then nothing is written. */
    method AutoPick(code: string, challengeId: Id, draw: nat, options: RoomService.StartOptions, battleId: Id)
      returns (reply: Reply, picked: bool, battleStarted: bool)
      modifies rooms
      ensures Updated(fold, old(rooms.rooms), rooms.rooms, code, Event.AutoPickSong(challengeId, draw, options, battleId), reply)
      ensures reply.Kept? ==> !picked && !battleStarted && RowOf(rooms.rooms, Upper(code)) == RowOf(old(rooms.rooms), Upper(code))
      ensures reply.Stored? ==>
                && picked && Upper(code) in old(rooms.rooms)
                && (reply.room.songSelection.Some? ==> reply.room.selectedSong.Some?)
                && (battleStarted <==> old(rooms.rooms)[Upper(code)].status != Battling && reply.room.status == Battling)
    {
      picked, battleStarted := false, false;
      var e := Event.AutoPickSong(challengeId, draw, options, battleId);
      var current := rooms.FindByCode(code);
      if current.Some? {
        var chosen := SongSelecting.AutoPick(current.value, challengeId, options.now, draw);
        picked := chosen.Changed?;
        battleStarted := Starts(chosen, options, battleId);
        if StartAfter(chosen, options, battleId).Changed? { StartsExactly(chosen, options, battleId); }
        MutationsKeepIdentity(fold, current.value, e);
      }
      reply := rooms.Update(code, Decision(fold, e));
    }
  }
}
