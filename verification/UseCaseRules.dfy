/** Who may do what: the rules the use cases add to the decisions of the room, and the error
    that names the first rule broken. */
module UseCaseRules {
  import opened Sequences
  import opened Text
  import opened Domain
  import opened RoomEvents
  import SongSelecting
  import RoomService

  // ----- the use cases -----

  /** Starting a battle or a challenge, removing a player and asking for a rematch are for the
      host alone, whatever else is wrong. */
  lemma OnlyTheHost(fold: Fold, room: Room, e: Event)
    requires e.StartBattle? || e.StartChallenge? || e.Kick? || e.Rematch?
    ensures Mutate(fold, room, e) == Refused(NOT_HOST) <==> e.requesterId != room.hostId
  {
  }

  /** A valid player joins a lobby with a seat left; one who is seated stays so, whatever the
      room is doing. */
  lemma JoiningRules(fold: Fold, room: Room, id: Id, displayName: string)
    ensures var o, valid := Mutate(fold, room, Join(id, displayName)), ValidId(id) && ValidName(Trim(displayName));
            && (o.Changed? <==> valid && room.status == Waiting && !Seated(room.players, id) && |room.players| < 7)
            && (o.Unchanged? <==> valid && Seated(room.players, id))
            && !o.Removed?
  {
    TrimFixesExactlyTrimmed(Trim(displayName));
  }

  lemma NobodyStays(players: seq<Player>, gone: Id)
    ensures Without(players, gone) == [] <==> forall p :: p in players ==> p.id == gone
  {
    WithoutIds(players, gone);
    if Without(players, gone) != [] { assert Without(players, gone)[0] in Without(players, gone); }
  }

  /** A room is deleted exactly when its last player leaves, or when it is found empty. */
  lemma DeletedWhenEmpty(fold: Fold, room: Room, e: Event)
    ensures Mutate(fold, room, e) == Removed <==>
              || (e.Leave? && Seated(room.players, e.id) && forall p :: p in room.players ==> p.id == e.id)
              || (e.DeleteIfEmpty? && room.players == [])
  {
    if e.Leave? {
      NobodyStays(room.players, e.id);
    } else if !e.DeleteIfEmpty? {
      OthersDeleteNothing(fold, room, e);
    }
  }

  lemma OthersDeleteNothing(fold: Fold, room: Room, e: Event)
    requires !e.Leave? && !e.DeleteIfEmpty?
    ensures Mutate(fold, room, e) != Removed
  {
  }

  /** What a request comes to is what the room decides, with the arguments of the request. */
  lemma RequestsAreDecided(fold: Fold, room: Room, e: Event)
    ensures match e
            case SelectRole(id, role) => Mutate(fold, room, e) == RoomService.SelectRole(room, id, role)
            case SetReady(id, ready) => Mutate(fold, room, e) == RoomService.SetReady(room, id, ready)
            case AwardWordBonus(id) => Mutate(fold, room, e) == RoomService.AwardWordBonus(room, id)
            case CastVote(id, choice, now) => Mutate(fold, room, e) == RoomService.CastVote(room, id, choice, now)
            case SubmitPhrase(id, text, now, draw) => Mutate(fold, room, e) == SongSelecting.Submit(room, id, text, now, draw)
            case ExpireChallenge(challengeId, now, draw) => Mutate(fold, room, e) == SongSelecting.Expire(room, challengeId, draw, now)
            case Rematch(requesterId) => Mutate(fold, room, e) == RoomService.Rematch(room, requesterId)
            case Kick(requesterId, id, now, draw) => Mutate(fold, room, e) == RoomService.Kick(room, requesterId, id, now, draw)
            case StartBattle(requesterId, dancerIds, options, battleId) =>
              requesterId == room.hostId ==> Mutate(fold, room, e) == RoomService.StartBattle(room, dancerIds, options, battleId)
            case StartChallenge(requesterId, now, challenge, challengeId, draw) =>
              requesterId == room.hostId ==> Mutate(fold, room, e) == SongSelecting.Start(room, now, challenge, challengeId, draw)
            case FinishAtDeadline(battleId, now) =>
              Mutate(fold, room, e) == if room.battle.Some? && room.battle.value.id == battleId then RoomService.FinishAtDeadline(room, now) else Unchanged
            case _ => true
  {
  }

  // ----- which rule a refusal names -----

  lemma JoinRefusals(fold: Fold, room: Room, id: Id, displayName: string)
    ensures var o, lobby, stranger := RoomService.Join(fold, room, id, displayName), room.status == Waiting, !Seated(room.players, id);
            && (o == Refused(ROOM_NOT_WAITING) <==> !lobby)
            && (o == Refused(PLAYER_ALREADY_IN_ROOM) <==> lobby && !stranger)
            && (o == Refused(ROOM_FULL) <==> lobby && stranger && |room.players| >= 7)
            && (o == Refused(INVALID_PLAYER) <==> lobby && stranger && |room.players| < 7 && !(ValidId(id) && ValidName(Trim(displayName))))
  {
  }

  lemma SeatRefusals(room: Room, id: Id, role: Role, ready: bool)
    ensures var o, lobby := RoomService.SelectRole(room, id, role), room.status == Waiting;
            && (o == Refused(INVALID_MESSAGE) <==> role == Undecided)
            && (o == Refused(ROOM_NOT_WAITING) <==> role != Undecided && !lobby)
            && (o == Refused(PLAYER_NOT_IN_ROOM) <==> role != Undecided && lobby && !Seated(room.players, id))
    ensures var o, lobby := RoomService.SetReady(room, id, ready), room.status == Waiting;
            && (o == Refused(ROOM_NOT_WAITING) <==> !lobby)
            && (o == Refused(PLAYER_NOT_IN_ROOM) <==> lobby && !Seated(room.players, id))
  {
  }

  lemma KickRefusals(room: Room, requesterId: Id, id: Id, now: int, draw: nat)
    ensures var o, host, lobby := RoomService.Kick(room, requesterId, id, now, draw), requesterId == room.hostId, room.status == Waiting;
            && (o == Refused(NOT_HOST) <==> !host)
            && (o == Refused(ROOM_NOT_WAITING) <==> host && !lobby)
            && (o == Refused(INVALID_PLAYER) <==> host && lobby && id == requesterId)
            && (o == Refused(PLAYER_NOT_IN_ROOM) <==> host && lobby && id != requesterId && !Seated(room.players, id))
  {
  }

  /** The rules of a start, in the order in which they are looked at. */
  lemma StartRefusals(room: Room, dancerIds: Option<seq<Id>>, options: RoomService.StartOptions, battleId: Id)
    ensures var o, ids := RoomService.StartBattle(room, dancerIds, options, battleId), RoomService.SelectedIds(room, dancerIds);
            var lobby := RoomService.SaneOptions(options) && room.status == Waiting;
            var chosen := lobby && !SongSelecting.InProgress(room);
            var enough := chosen && |ToSet(ids)| == |ids| && |ids| >= 2;
            var seated := enough && forall k :: 0 <= k < |ids| ==> Seated(room.players, ids[k]);
            && (o == Refused(RANGE_ERROR) <==> !RoomService.SaneOptions(options))
            && (o == Refused(ROOM_NOT_WAITING) <==> RoomService.SaneOptions(options) && room.status != Waiting)
            && (o == Refused(SONG_SELECTION_IN_PROGRESS) <==> lobby && SongSelecting.InProgress(room))
            && (o == Refused(INVALID_DANCER) <==> chosen && (|ToSet(ids)| != |ids| || (enough && !seated)))
            && (o == Refused(NOT_ENOUGH_DANCERS) <==> chosen && |ToSet(ids)| == |ids| && |ids| < 2)
            && (o == Refused(PLAYERS_NOT_READY) <==> seated && !SongSelecting.EveryoneReady(room))
            && (o == Refused(SONG_NOT_SELECTED) <==> seated && SongSelecting.EveryoneReady(room) && room.selectedSong.None?)
  {
  }

  lemma BattleRefusals(room: Room, id: Id, choice: Option<Id>, now: int)
    ensures var o, running := RoomService.AwardWordBonus(room, id), room.status == Battling && room.battle.Some?;
            && (o == Refused(ROOM_NOT_BATTLING) <==> !running)
            && (o == Refused(INVALID_DANCER) <==> running && id !in room.battle.value.dancerIds)
    ensures var o, running := RoomService.CastVote(room, id, choice, now), room.status == Battling && room.battle.Some?;
            var over, watching := room.status == Finished && room.battle.Some?, running && Seated(room.spectators, id);
            && (o == Refused(ROOM_NOT_BATTLING) <==> !running && !over)
            && (o == Refused(INVALID_VOTER) <==> running && !Seated(room.spectators, id))
            && (o == Refused(BATTLE_NOT_STARTED) <==> watching && now < room.battle.value.startedAt)
            && (o == Refused(BATTLE_FINISHED) <==> over || (watching && now >= room.battle.value.startedAt && now >= room.battle.value.endsAt))
            && (o == Refused(INVALID_DANCER) <==>
                  watching && room.battle.value.startedAt <= now < room.battle.value.endsAt
                  && choice.Some? && choice.value !in room.battle.value.dancerIds)
    ensures var o := RoomService.Rematch(room, id);
            && (o == Refused(NOT_HOST) <==> id != room.hostId)
            && (o == Refused(ROOM_NOT_FINISHED) <==> id == room.hostId && room.status != Finished)
  {
  }

  lemma ChallengeRefusals(room: Room, now: int, options: SongSelecting.ChallengeOptions, challengeId: Id, draw: nat)
    ensures var o := SongSelecting.Start(room, now, options, challengeId, draw);
            var lobby := options.chooseMs > 0 && room.status == Waiting;
            var idle := lobby && !SongSelecting.InProgress(room);
            var enough := idle && |InRole(room.players, Dancer)| >= 2;
            && (o == Refused(ROOM_NOT_WAITING) <==> options.chooseMs > 0 && room.status != Waiting)
            && (o == Refused(SONG_SELECTION_IN_PROGRESS) <==> lobby && SongSelecting.InProgress(room))
            && (o == Refused(NOT_ENOUGH_DANCERS) <==> idle && |InRole(room.players, Dancer)| < 2)
            && (o == Refused(PLAYERS_NOT_READY) <==> enough && !SongSelecting.EveryoneReady(room))
            && (o == Refused(RANGE_ERROR) <==>
                  options.chooseMs <= 0 || (enough && SongSelecting.EveryoneReady(room) && SongSelecting.PhrasePool(room, options.phrases) == []))
  {
  }

  lemma PhraseRefusals(room: Room, id: Id, text: string, now: int, draw: nat, songId: Id)
    ensures var o := SongSelecting.Submit(room, id, text, now, draw);
            if !SongSelecting.IsTyping(room) then o == Refused(SONG_SELECTION_NOT_ACTIVE)
            else
              var sel := room.songSelection.value;
              && (o == Refused(NOT_CHALLENGE_PARTICIPANT) <==> id !in sel.participantIds)
              && (o == Refused(PLAYER_NOT_IN_ROOM) <==> id in sel.participantIds && !Seated(room.players, id))
              && (o == Refused(ATTEMPT_ALREADY_USED) <==>
                    id in sel.participantIds && Seated(room.players, id) && now < sel.challenge.expiresAt && id in sel.failedIds)
    ensures var o := SongSelecting.Choose(room, id, songId);
            && (o == Refused(SONG_SELECTION_NOT_ACTIVE) <==> !SongSelecting.IsChoosing(room))
            && (o == Refused(NOT_SONG_CHOOSER) <==> SongSelecting.IsChoosing(room) && room.songSelection.value.chooserId != Some(id))
            && (o == Refused(INVALID_SONG) <==>
                  SongSelecting.IsChoosing(room) && room.songSelection.value.chooserId == Some(id)
                  && forall song :: song in room.songSelection.value.songOptions ==> song.id != songId)
  {
  }
}
