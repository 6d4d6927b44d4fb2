/** The decisions on a room: every one builds a new room from the current one or refuses. */
module RoomService {
  import opened Sequences
  import opened Text
  import opened Domain
  import opened SongSelecting
  import Scoring

  // ----- entering and leaving -----

  function Create(id: Id, displayName: string, code: string, createdAt: int): (r: Outcome)
    ensures r.Changed? <==> 1 <= |id| <= 64 && Trim(id) == id && 1 <= |Trim(displayName)| <= 32
    ensures !r.Changed? ==> r == Refused(INVALID_PLAYER)
    ensures r.Changed? ==>
              var n := r.room;
              && Ids(n.players) == [id] && n.players[0].displayName == Trim(displayName)
              && n.players[0].role == Undecided && !n.players[0].ready
              && n.hostId == id && n.code == code && n.createdAt == createdAt && n.version == 0
              && n.status == Waiting && n.dancers.None? && n.spectators == []
              && n.battle.None? && n.songSelection.None? && n.selectedSong.None? && n.lastResult.None?
  {
    if !ValidId(id) || !ValidName(Trim(displayName)) then Refused(INVALID_PLAYER)
    else
      Changed(Room(code, id, [Player(id, Trim(displayName), Undecided, false)], None, [], Waiting,
                   None, None, None, None, createdAt, 0))
  }

  function TakenNames(fold: Fold, players: seq<Player>): set<string> {
    set k | 0 <= k < |players| :: Lower(fold, players[k].displayName)
  }

  /** The seat a new player gets. */
  function NewSeat(fold: Fold, players: seq<Player>, id: Id, displayName: string): Player {
    Player(id, UniqueName(fold, TakenNames(fold, players), displayName), Undecided, false)
  }

  function Join(fold: Fold, room: Room, id: Id, displayName: string): (r: Outcome)
    ensures r.Changed? <==>
              && room.status == Waiting && !Seated(room.players, id) && |room.players| < MAX_PLAYERS
              && ValidId(id) && ValidName(Trim(displayName))
    ensures r.Changed? ==> r.room == room.(players := r.room.players) && Ids(r.room.players) == Ids(room.players) + [id]
    ensures !r.Unchanged? && !r.Removed?
  {
    if room.status != Waiting then Refused(ROOM_NOT_WAITING)
    else if Seated(room.players, id) then Refused(PLAYER_ALREADY_IN_ROOM)
    else if |room.players| >= MAX_PLAYERS then Refused(ROOM_FULL)
    else if !ValidId(id) || !ValidName(Trim(displayName)) then Refused(INVALID_PLAYER)
    else
      var players := room.players + [NewSeat(fold, room.players, id, Trim(displayName))];
      assert Ids(players) == Ids(room.players) + [id];
      Changed(room.(players := players))
  }

  ghost function NamesInUse(fold: Fold, players: seq<Player>): set<string> {
    set p | p in players :: Lower(fold, p.displayName)
  }

  lemma TakenIsInUse(fold: Fold, players: seq<Player>)
    ensures TakenNames(fold, players) == NamesInUse(fold, players)
  {
    forall k | 0 <= k < |players| ensures Lower(fold, players[k].displayName) in NamesInUse(fold, players) {
      assert players[k] in players;
    }
  }

  /** A player who joins sits last, undecided and not ready, under a name nobody else
      uses in any letter case; it is their own name whenever that one is free, and otherwise
      as much of it as fits with the smallest number that makes a name nobody uses. */
  lemma JoinSeatsLast(fold: Fold, room: Room, id: Id, displayName: string)
    requires Join(fold, room, id, displayName).Changed?
    ensures var n := Join(fold, room, id, displayName).room;
            && |n.players| == |room.players| + 1 && n.players[..|room.players|] == room.players
            && var p := n.players[|room.players|];
               && p.id == id && p.role == Undecided && !p.ready
               && (forall k :: 0 <= k < |room.players| ==> Lower(fold, room.players[k].displayName) != Lower(fold, p.displayName))
               && ((forall k :: 0 <= k < |room.players| ==> Lower(fold, room.players[k].displayName) != Lower(fold, Trim(displayName)))
                   ==> p.displayName == Trim(displayName))
               && (!(forall k :: 0 <= k < |room.players| ==> Lower(fold, room.players[k].displayName) != Lower(fold, Trim(displayName)))
                   ==> exists n :: Numbered(fold, NamesInUse(fold, room.players), Trim(displayName), p.displayName, n))
  {
    TakenIsInUse(fold, room.players);
    if Lower(fold, Trim(displayName)) in TakenNames(fold, room.players) {
      TakenNamesAreNumbered(fold, TakenNames(fold, room.players), Trim(displayName));
    }
    var p := NewSeat(fold, room.players, id, Trim(displayName));
    forall k | 0 <= k < |room.players| ensures Lower(fold, room.players[k].displayName) != Lower(fold, p.displayName) {
      assert Lower(fold, room.players[k].displayName) in TakenNames(fold, room.players);
    }
  }

  /** The room with a player taken out of every list, and a new host when it was theirs. */
  function Vacate(room: Room, gone: Id): Room {
    var players := Without(room.players, gone);
    room.(players := players,
          dancers := if room.dancers.Some? then Some(Without(room.dancers.value, gone)) else None,
          spectators := Without(room.spectators, gone),
          hostId := if room.hostId == gone && players != [] then players[0].id else room.hostId)
  }

  /** Removes a player and, during a battle, settles it. A song being chosen by the leaver is
      passed on; any other selection stays as it is. */
  function Leave(room: Room, playerId: Id, now: int, draw: nat): (r: Outcome)
    ensures r.Changed? <==> Seated(room.players, playerId)
    ensures !r.Changed? ==> r == Refused(PLAYER_NOT_IN_ROOM)
    ensures r.Changed? ==>
              && r.room.players == Without(room.players, playerId) && r.room.spectators == Without(room.spectators, playerId)
              && r.room.dancers == (if room.dancers.Some? then Some(Without(room.dancers.value, playerId)) else None)
              && r.room.code == room.code && r.room.version == room.version && r.room.createdAt == room.createdAt
              && r.room.selectedSong == room.selectedSong
    ensures r.Changed? && r.room.players != [] ==>
              r.room.hostId == if room.hostId == playerId then r.room.players[0].id else room.hostId
    ensures r.Changed? && room.status != Battling ==>
              r.room.status == room.status && r.room.battle == room.battle && r.room.lastResult == room.lastResult
    ensures r.Changed? && !(IsChoosing(room) && room.songSelection.value.chooserId == Some(playerId)) ==>
              r.room.songSelection == room.songSelection
  {
    if !Seated(room.players, playerId) then Refused(PLAYER_NOT_IN_ROOM)
    else Changed(HandlePlayerLeft(SettleBattle(Vacate(room, playerId), playerId, now), playerId, draw, now))
  }

  function VotesWithout(votes: map<Id, Id>, playerId: Id): map<Id, Id> {
    map v | v in votes && v != playerId && votes[v] != playerId :: votes[v]
  }

  /** A departure from a running battle: the leaver's vote and the votes for them
      go, and with too few dancers left the battle ends. */
  function SettleBattle(room: Room, playerId: Id, now: int): (r: Room)
    ensures r == room.(status := r.status, battle := r.battle, lastResult := r.lastResult)
  {
    if room.status != Battling || room.battle.None? then room
    else
      var battle := room.battle.value;
      var remaining := battle.(dancerIds := Drop(battle.dancerIds, playerId), votes := VotesWithout(battle.votes, playerId));
      var continuing := room.(battle := Some(remaining));
      if |remaining.dancerIds| < MIN_DANCERS_PER_BATTLE
      then FinishBattle(continuing, NotEnoughDancers, now).room
      else continuing
  }

  function Kick(room: Room, requesterId: Id, playerId: Id, now: int, draw: nat): (r: Outcome)
    ensures r.Changed? <==>
              room.hostId == requesterId && room.status == Waiting && playerId != requesterId && Seated(room.players, playerId)
    ensures r.Changed? ==> r == Leave(room, playerId, now, draw)
    ensures !r.Unchanged? && !r.Removed?
  {
    if room.hostId != requesterId then Refused(NOT_HOST)
    else if room.status != Waiting then Refused(ROOM_NOT_WAITING)
    else if playerId == requesterId then Refused(INVALID_PLAYER)
    else Leave(room, playerId, now, draw)
  }

  // ----- the lobby -----

  function WithRole(p: Player, playerId: Id, role: Role): Player {
    if p.id == playerId then p.(role := role) else p
  }

  function WithReady(p: Player, playerId: Id, ready: bool): Player {
    if p.id == playerId then p.(ready := ready) else p
  }

  function SelectRole(room: Room, playerId: Id, role: Role): (r: Outcome)
    ensures r.Changed? <==> role != Undecided && room.status == Waiting && Seated(room.players, playerId)
    ensures r.Changed? ==>
              && r.room == room.(players := r.room.players, spectators := InRole(r.room.players, Spectator))
              && |r.room.players| == |room.players|
              && (forall k :: 0 <= k < |room.players| ==>
                    r.room.players[k] == room.players[k].(role := if room.players[k].id == playerId then role else room.players[k].role))
    ensures !r.Unchanged? && !r.Removed?
  {
    if role == Undecided then Refused(INVALID_MESSAGE)
    else if room.status != Waiting then Refused(ROOM_NOT_WAITING)
    else if !Seated(room.players, playerId) then Refused(PLAYER_NOT_IN_ROOM)
    else
      var players := seq(|room.players|, k requires 0 <= k < |room.players| => WithRole(room.players[k], playerId, role));
      Changed(room.(players := players, spectators := InRole(players, Spectator)))
  }

  function SetReady(room: Room, playerId: Id, ready: bool): (r: Outcome)
    ensures r.Changed? <==> room.status == Waiting && Seated(room.players, playerId)
    ensures r.Changed? ==>
              && r.room == room.(players := r.room.players, spectators := InRole(r.room.players, Spectator))
              && |r.room.players| == |room.players|
              && (forall k :: 0 <= k < |room.players| ==>
                    r.room.players[k] == room.players[k].(ready := if room.players[k].id == playerId then ready else room.players[k].ready))
    ensures !r.Unchanged? && !r.Removed?
  {
    if room.status != Waiting then Refused(ROOM_NOT_WAITING)
    else if !Seated(room.players, playerId) then Refused(PLAYER_NOT_IN_ROOM)
    else
      var players := seq(|room.players|, k requires 0 <= k < |room.players| => WithReady(room.players[k], playerId, ready));
      Changed(room.(players := players, spectators := InRole(players, Spectator)))
  }

  // ----- the battle -----

  datatype StartOptions = StartOptions(now: int, countdownMs: int, fallbackDurationMs: int, scoring: ScoringPoints)

  predicate SaneOptions(options: StartOptions) {
    options.countdownMs >= 0 && options.fallbackDurationMs >= 0
    && options.scoring.votePoints >= 0 && options.scoring.wordBonusPoints >= 0
  }

  function SelectedIds(room: Room, dancerIds: Option<seq<Id>>): seq<Id> {
    if dancerIds.Some? then dancerIds.value else Ids(InRole(room.players, Dancer))
  }

  function Seat(p: Player, dancerIds: seq<Id>): Player {
    p.(role := if p.id in dancerIds then Dancer else Spectator)
  }

  function SeatAll(players: seq<Player>, dancerIds: seq<Id>): (r: seq<Player>)
    ensures |r| == |players| && forall k :: 0 <= k < |r| ==> r[k] == Seat(players[k], dancerIds)
    ensures Ids(r) == Ids(players)
  {
    seq(|players|, k requires 0 <= k < |players| => Seat(players[k], dancerIds))
  }

  function Entries(players: seq<Player>): (r: seq<RosterEntry>)
    ensures |r| == |players| && forall k :: 0 <= k < |r| ==> r[k] == RosterEntry(players[k].id, players[k].displayName)
  {
    seq(|players|, k requires 0 <= k < |players| => RosterEntry(players[k].id, players[k].displayName))
  }

  /** The selected players, as dancers, in the order they were selected. */
  function DancersOf(players: seq<Player>, ids: seq<Id>): (r: seq<Player>)
    requires forall id :: id in ids ==> Seated(players, id)
    ensures |r| == |ids| && Ids(r) == ids
    ensures forall k :: 0 <= k < |r| ==> r[k] == Find(players, ids[k]).value.(role := Dancer)
  {
    seq(|ids|, k requires 0 <= k < |ids| => Find(players, ids[k]).value.(role := Dancer))
  }

  predicate CanStart(room: Room, dancerIds: Option<seq<Id>>, options: StartOptions) {
    var ids := SelectedIds(room, dancerIds);
    && SaneOptions(options) && room.status == Waiting && !InProgress(room)
    && |ToSet(ids)| == |ids| && |ids| >= MIN_DANCERS_PER_BATTLE
    && (forall k :: 0 <= k < |ids| ==> Seated(room.players, ids[k]))
    && EveryoneReady(room) && room.selectedSong.Some?
  }

  /** The battle of the selected dancers, watched by everyone else. */
  function NewBattle(room: Room, ids: seq<Id>, options: StartOptions, battleId: Id): (b: Battle)
    requires room.selectedSong.Some? && forall k :: 0 <= k < |ids| ==> Seated(room.players, ids[k])
    ensures b.dancerIds == ids == EntryIds(b.roster)
    ensures EntryIds(b.audience) == Ids(InRole(SeatAll(room.players, ids), Spectator))
    ensures b.wordsWon.Keys == ToSet(ids) && forall id :: id in b.wordsWon ==> b.wordsWon[id] == 0
    ensures b.votes == map[] && b.finishedAt.None? && b.endReason.None? && b.result.None?
    ensures b.startedAt == options.now + options.countdownMs
    ensures b.endsAt == b.startedAt + room.selectedSong.value.durationSeconds * 1000
  {
    var dancers := DancersOf(room.players, ids);
    var startedAt := options.now + options.countdownMs;
    // A song is always selected here, so the fallback duration is never needed.
    var songMs := room.selectedSong.value.durationSeconds * 1000;
    var roster, audience := Entries(dancers), Entries(InRole(SeatAll(room.players, ids), Spectator));
    assert EntryIds(roster) == Ids(dancers);
    assert EntryIds(audience) == Ids(InRole(SeatAll(room.players, ids), Spectator));
    Battle(battleId, room.code, Ids(dancers), roster, audience, room.selectedSong,
           map[], map id | id in ids :: 0, options.scoring, startedAt, startedAt + songMs, None, None, None)
  }

  function StartBattle(room: Room, dancerIds: Option<seq<Id>>, options: StartOptions, battleId: Id): (r: Outcome)
    ensures r.Changed? <==> CanStart(room, dancerIds, options)
    ensures r == Refused(RANGE_ERROR) <==> !SaneOptions(options)
    ensures r.Changed? ==>
              && r.room.status == Battling && r.room.battle.Some? && r.room.battle.value.id == battleId
              && r.room.battle.value.dancerIds == SelectedIds(room, dancerIds)
              && r.room == room.(players := r.room.players, dancers := r.room.dancers, spectators := r.room.spectators,
                                 status := Battling, battle := r.room.battle)
    ensures !r.Unchanged? && !r.Removed?
  {
    if !SaneOptions(options) then Refused(RANGE_ERROR)
    else if room.status != Waiting then Refused(ROOM_NOT_WAITING)
    else if InProgress(room) then Refused(SONG_SELECTION_IN_PROGRESS)
    else
      var ids := SelectedIds(room, dancerIds);
      if |ToSet(ids)| != |ids| then Refused(INVALID_DANCER)
      else if |ids| < MIN_DANCERS_PER_BATTLE then Refused(NOT_ENOUGH_DANCERS)
      else if exists k :: 0 <= k < |ids| && !Seated(room.players, ids[k]) then Refused(INVALID_DANCER)
      else if !EveryoneReady(room) then Refused(PLAYERS_NOT_READY)
      else if room.selectedSong.None? then Refused(SONG_NOT_SELECTED)
      else
        var players := SeatAll(room.players, ids);
        Changed(room.(players := players, dancers := Some(DancersOf(room.players, ids)),
                      spectators := InRole(players, Spectator), status := Battling,
                      battle := Some(NewBattle(room, ids, options, battleId))))
  }

  function AwardWordBonus(room: Room, playerId: Id): (r: Outcome)
    ensures r.Changed? <==> room.status == Battling && room.battle.Some? && playerId in room.battle.value.dancerIds
    ensures r.Changed? ==>
              && r.room.battle.Some?
              && r.room == room.(battle := Some(room.battle.value.(wordsWon := r.room.battle.value.wordsWon)))
              && r.room.battle.value.wordsWon.Keys == room.battle.value.wordsWon.Keys + {playerId}
              && (forall id :: Scoring.WordsWonBy(r.room.battle.value, id)
                            == Scoring.WordsWonBy(room.battle.value, id) + (if id == playerId then 1 else 0))
    ensures !r.Unchanged? && !r.Removed?
  {
    if room.status != Battling || room.battle.None? then Refused(ROOM_NOT_BATTLING)
    else
      var battle := room.battle.value;
      if playerId !in battle.dancerIds then Refused(INVALID_DANCER)
      else
        var current := Scoring.WordsWonBy(battle, playerId);
        Changed(room.(battle := Some(battle.(wordsWon := battle.wordsWon[playerId := current + 1]))))
  }

  function VoteOf(room: Room, voterId: Id): Option<Id> {
    if room.battle.Some? && voterId in room.battle.value.votes then Some(room.battle.value.votes[voterId]) else None
  }

  /** Casting, moving or withdrawing a vote is accepted exactly here. */
  predicate CanVote(room: Room, voterId: Id, choice: Option<Id>, now: int) {
    && room.status == Battling && room.battle.Some?
    && Seated(room.spectators, voterId)
    && room.battle.value.startedAt <= now < room.battle.value.endsAt
    && (choice.Some? ==> choice.value in room.battle.value.dancerIds)
  }

  function CastVote(room: Room, voterId: Id, choice: Option<Id>, now: int): (r: Outcome)
    ensures r.Refused? <==> !CanVote(room, voterId, choice, now)
    ensures r.Unchanged? <==> CanVote(room, voterId, choice, now) && VoteOf(room, voterId) == choice
    ensures r.Changed? ==>
              && r.room.battle.Some?
              && r.room == room.(battle := Some(room.battle.value.(votes := r.room.battle.value.votes)))
              && VoteOf(r.room, voterId) == choice
              && (forall other :: other != voterId ==> VoteOf(r.room, other) == VoteOf(room, other))
    ensures !r.Removed?
  {
    if room.status == Finished && room.battle.Some? then Refused(BATTLE_FINISHED)
    else if room.status != Battling || room.battle.None? then Refused(ROOM_NOT_BATTLING)
    else
      var battle := room.battle.value;
      if !Seated(room.spectators, voterId) then Refused(INVALID_VOTER)
      else if now < battle.startedAt then Refused(BATTLE_NOT_STARTED)
      else if now >= battle.endsAt then Refused(BATTLE_FINISHED)
      else if choice.Some? && choice.value !in battle.dancerIds then Refused(INVALID_DANCER)
      else if VoteOf(room, voterId) == choice then Unchanged
      else
        var votes := if choice.None? then battle.votes - {voterId} else battle.votes[voterId := choice.value];
        Changed(room.(battle := Some(battle.(votes := votes))))
  }

  function FinishBattle(room: Room, reason: EndReason, now: int): (r: Outcome)
    ensures r.Changed? <==> room.status == Battling && room.battle.Some?
    ensures !r.Changed? ==> r == Refused(ROOM_NOT_BATTLING)
    ensures r.Changed? ==>
              var result := Some(Scoring.ResultOf(room.battle.value));
              r.room == room.(status := Finished, lastResult := result,
                              battle := Some(room.battle.value.(finishedAt := Some(now), endReason := Some(reason), result := result)))
  {
    if room.status != Battling || room.battle.None? then Refused(ROOM_NOT_BATTLING)
    else
      var result := Scoring.ResultOf(room.battle.value);
      Changed(room.(
        status := Finished,
        battle := Some(room.battle.value.(finishedAt := Some(now), endReason := Some(reason), result := Some(result))),
        lastResult := Some(result)))
  }

  function FinishAtDeadline(room: Room, now: int): (r: Outcome)
    ensures r.Changed? <==> room.status == Battling && room.battle.Some? && now >= room.battle.value.endsAt
    ensures !r.Changed? ==> r.Unchanged?
    ensures r.Changed? ==> r == FinishBattle(room, SongEnd, now)
  {
    if room.status != Battling || room.battle.None? || now < room.battle.value.endsAt then Unchanged
    else FinishBattle(room, SongEnd, now)
  }

  function Unready(players: seq<Player>): (r: seq<Player>)
    ensures |r| == |players| && forall k :: 0 <= k < |r| ==> r[k] == players[k].(ready := false)
    ensures Ids(r) == Ids(players)
  {
    seq(|players|, k requires 0 <= k < |players| => players[k].(ready := false))
  }

  function Rematch(room: Room, requesterId: Id): (r: Outcome)
    ensures r.Changed? <==> room.hostId == requesterId && room.status == Finished
    ensures r.Changed? ==>
              && r.room == room.(players := Unready(room.players), dancers := None,
                                 spectators := InRole(Unready(room.players), Spectator), status := Waiting,
                                 battle := None, songSelection := None, selectedSong := None, lastResult := r.room.lastResult)
              && (room.battle.Some? && room.battle.value.result.Some? ==> r.room.lastResult == room.battle.value.result)
              && (room.battle.None? || room.battle.value.result.None? ==> r.room.lastResult == room.lastResult)
    ensures !r.Unchanged? && !r.Removed?
  {
    if room.hostId != requesterId then Refused(NOT_HOST)
    else if room.status != Finished then Refused(ROOM_NOT_FINISHED)
    else
      var players := Unready(room.players);
      Changed(room.(
        players := players, dancers := None, spectators := InRole(players, Spectator), status := Waiting,
        battle := None, songSelection := None, selectedSong := None,
        lastResult := if room.battle.Some? && room.battle.value.result.Some? then room.battle.value.result else room.lastResult))
  }
}
