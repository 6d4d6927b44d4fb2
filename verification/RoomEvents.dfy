/** Every change of a stored room as one mutation, and runs of them. */
module RoomEvents {
  import opened Sequences
  import opened Text
  import opened Domain
  import SongSelecting
  import RoomService

  datatype Event =
    | Join(id: Id, displayName: string)
    | SelectRole(id: Id, role: Role)
    | SetReady(id: Id, ready: bool)
    | Leave(id: Id, now: int, draw: nat)
    | Kick(requesterId: Id, id: Id, now: int, draw: nat)
    | StartBattle(requesterId: Id, dancerIds: Option<seq<Id>>, options: RoomService.StartOptions, battleId: Id)
    | AwardWordBonus(id: Id)
    | CastVote(id: Id, choice: Option<Id>, now: int)
    | FinishAtDeadline(battleId: Id, now: int)
    | Rematch(requesterId: Id)
    | StartChallenge(requesterId: Id, now: int, challenge: SongSelecting.ChallengeOptions, challengeId: Id, draw: nat)
    | SubmitPhrase(id: Id, text: string, now: int, draw: nat)
    | ExpireChallenge(challengeId: Id, now: int, draw: nat)
    | ChooseSong(id: Id, songId: Id, options: RoomService.StartOptions, battleId: Id)
    | AutoPickSong(challengeId: Id, draw: nat, options: RoomService.StartOptions, battleId: Id)
    | DeleteIfEmpty

  /** The chosen song starts the battle in the same stored change, unless a domain
      rule keeps the room from starting. */
  function StartIfPossible(chosen: Room, options: RoomService.StartOptions, battleId: Id): (r: Outcome)
    ensures r.Changed? || r == Refused(RANGE_ERROR)
    ensures r.Refused? <==> chosen.songSelection.Some? && !RoomService.SaneOptions(options)
    ensures r.Changed? ==> r.room == chosen || (chosen.songSelection.Some? && RoomService.CanStart(chosen, None, options)
                                                && r == RoomService.StartBattle(chosen, None, options, battleId))
    ensures chosen.songSelection.Some? && RoomService.CanStart(chosen, None, options) ==>
              r == RoomService.StartBattle(chosen, None, options, battleId)
  {
    if chosen.songSelection.None? then Changed(chosen)
    else
      match RoomService.StartBattle(chosen, None, options, battleId)
      case Refused(error) => if error == RANGE_ERROR then Refused(error) else Changed(chosen)
      case Changed(room) => Changed(room)
      case Unchanged => Changed(chosen)
      case Removed => Changed(chosen)
  }

  function StartAfter(chosen: Outcome, options: RoomService.StartOptions, battleId: Id): Outcome {
    if chosen.Changed? then StartIfPossible(chosen.room, options, battleId) else chosen
  }

  /** The song a player chose, or the server for them. */
  function Chosen(room: Room, e: Event): Outcome
    requires e.ChooseSong? || e.AutoPickSong?
  {
    if e.ChooseSong? then SongSelecting.Choose(room, e.id, e.songId)
    else SongSelecting.AutoPick(room, e.challengeId, e.options.now, e.draw)
  }

  /** The mutation each use case hands to the store. */
  function Mutate(fold: Fold, room: Room, e: Event): Outcome {
    match e
    case Join(id, displayName) =>
      if !ValidId(id) || !ValidName(Trim(displayName)) then Refused(INVALID_PLAYER)
      else if Seated(room.players, id) then Unchanged
      else RoomService.Join(fold, room, id, Trim(displayName))
    case SelectRole(id, role) => RoomService.SelectRole(room, id, role)
    case SetReady(id, ready) => RoomService.SetReady(room, id, ready)
    case Leave(id, now, draw) =>
      (match RoomService.Leave(room, id, now, draw)
       case Changed(updated) => if updated.players == [] then Removed else Changed(updated)
       case other => other)
    case Kick(requesterId, id, now, draw) => RoomService.Kick(room, requesterId, id, now, draw)
    case StartBattle(requesterId, dancerIds, options, battleId) =>
      if room.hostId != requesterId then Refused(NOT_HOST)
      else RoomService.StartBattle(room, dancerIds, options, battleId)
    case AwardWordBonus(id) => RoomService.AwardWordBonus(room, id)
    case CastVote(id, choice, now) => RoomService.CastVote(room, id, choice, now)
    case FinishAtDeadline(battleId, now) =>
      if room.battle.None? || room.battle.value.id != battleId then Unchanged
      else RoomService.FinishAtDeadline(room, now)
    case Rematch(requesterId) => RoomService.Rematch(room, requesterId)
    case StartChallenge(requesterId, now, challenge, challengeId, draw) =>
      if room.hostId != requesterId then Refused(NOT_HOST)
      else SongSelecting.Start(room, now, challenge, challengeId, draw)
    case SubmitPhrase(id, text, now, draw) => SongSelecting.Submit(room, id, text, now, draw)
    case ExpireChallenge(challengeId, now, draw) => SongSelecting.Expire(room, challengeId, draw, now)
    case ChooseSong(_, _, options, battleId) => StartAfter(Chosen(room, e), options, battleId)
    case AutoPickSong(_, _, options, battleId) => StartAfter(Chosen(room, e), options, battleId)
    case DeleteIfEmpty => if room.players == [] then Removed else Unchanged
  }

  /** The stored room after one update; none when the update removed it. */
  function Next(fold: Fold, room: Room, e: Event): Option<Room> {
    match Mutate(fold, room, e)
    case Changed(next) => Some(next.(version := room.version + 1))
    case Removed => None
    case Unchanged => Some(room)
    case Refused(_) => Some(room)
  }

  /** The stored room after a series of updates. */
  function Run(fold: Fold, room: Room, events: seq<Event>): Option<Room>
    decreases |events|
  {
    if events == [] then Some(room)
    else
      match Next(fold, room, events[0])
      case None => None
      case Some(next) => Run(fold, next, events[1..])
  }

  /** The stored room after an update with a given outcome. */
  function RowAfter(room: Room, o: Outcome): Option<Room> {
    match o
    case Changed(next) => Some(next.(version := room.version + 1))
    case Removed => None
    case Unchanged => Some(room)
    case Refused(_) => Some(room)
  }

  lemma NextCommits(fold: Fold, room: Room, e: Event)
    ensures Next(fold, room, e) == RowAfter(room, Mutate(fold, room, e))
  {
  }

  lemma {:induction false} RunOneMore(fold: Fold, room: Room, events: seq<Event>, e: Event)
    ensures Run(fold, room, events + [e]) ==
              match Run(fold, room, events) { case None => None case Some(last) => Next(fold, last, e) }
    decreases |events|
  {
    if events == [] {
      assert [] + [e] == [e];
      assert [e][1..] == [];
    } else {
      assert (events + [e])[0] == events[0] && (events + [e])[1..] == events[1..] + [e];
      var next := Next(fold, room, events[0]);
      if next.Some? { RunOneMore(fold, next.value, events[1..], e); }
    }
  }

  lemma SeatMutationsKeepIdentity(fold: Fold, room: Room, e: Event)
    requires e.Join? || e.SelectRole? || e.SetReady? || e.Leave? || e.Kick? || e.DeleteIfEmpty?
    ensures KeepsIdentity(room, Mutate(fold, room, e))
  {
  }

  lemma BattleMutationsKeepIdentity(fold: Fold, room: Room, e: Event)
    requires e.StartBattle? || e.AwardWordBonus? || e.CastVote? || e.FinishAtDeadline? || e.Rematch?
    ensures KeepsIdentity(room, Mutate(fold, room, e))
  {
  }

  lemma StartIfPossibleKeepsIdentity(chosen: Room, options: RoomService.StartOptions, battleId: Id)
    ensures KeepsIdentity(chosen, StartIfPossible(chosen, options, battleId))
  {
  }

  lemma PickMutationsKeepIdentity(fold: Fold, room: Room, e: Event)
    requires e.ChooseSong? || e.AutoPickSong?
    ensures KeepsIdentity(room, Mutate(fold, room, e))
  {
    var chosen := Chosen(room, e);
    if chosen.Changed? { StartIfPossibleKeepsIdentity(chosen.room, e.options, e.battleId); }
  }

  lemma SongMutationsKeepIdentity(fold: Fold, room: Room, e: Event)
    requires e.StartChallenge? || e.SubmitPhrase? || e.ExpireChallenge?
    ensures KeepsIdentity(room, Mutate(fold, room, e))
  {
  }

  predicate KeepsIdentity(room: Room, o: Outcome) {
    o.Changed? ==> o.room.version == room.version && o.room.code == room.code && o.room.createdAt == room.createdAt
  }

  /** No decision touches the version, the code or the creation date of a room. */
  lemma MutationsKeepIdentity(fold: Fold, room: Room, e: Event)
    ensures KeepsIdentity(room, Mutate(fold, room, e))
  {
    if e.Join? || e.SelectRole? || e.SetReady? || e.Leave? || e.Kick? || e.DeleteIfEmpty? {
      SeatMutationsKeepIdentity(fold, room, e);
    } else if e.StartBattle? || e.AwardWordBonus? || e.CastVote? || e.FinishAtDeadline? || e.Rematch? {
      BattleMutationsKeepIdentity(fold, room, e);
    } else if e.ChooseSong? || e.AutoPickSong? {
      PickMutationsKeepIdentity(fold, room, e);
    } else {
      SongMutationsKeepIdentity(fold, room, e);
    }
  }
}
