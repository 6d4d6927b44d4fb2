/** The typing challenge that decides who picks the song. */
module SongSelecting {
  import opened Sequences
  import opened Text
  import opened Domain

  /** `list[random(list.length)]` for a random source that drew `draw`. Every element
      is picked by some draw. */
  function Pick<T>(list: seq<T>, draw: nat): (r: T)
    requires list != []
    ensures r in list
    ensures draw < |list| ==> r == list[draw]
  {
    list[draw % |list|]
  }

  predicate InProgress(room: Room) {
    room.songSelection.Some? && room.songSelection.value.phase != Done
  }

  predicate EveryoneReady(room: Room) {
    forall k :: 0 <= k < |room.players| ==> room.players[k].ready
  }

  function Present(room: Room, ids: seq<Id>): seq<Id> {
    Keep(ids, ToSet(Ids(room.players)))
  }

  function NotFailed(sel: SongSelection, ids: seq<Id>): seq<Id> {
    if ids == [] then []
    else if ids[0] !in sel.failedIds then [ids[0]] + NotFailed(sel, ids[1..])
    else NotFailed(sel, ids[1..])
  }

  lemma {:induction false} NotFailedMembers(sel: SongSelection, ids: seq<Id>)
    ensures forall id :: id in NotFailed(sel, ids) <==> id in ids && id !in sel.failedIds
  {
    if ids != [] {
      NotFailedMembers(sel, ids[1..]);
    }
  }

  /** The participants the turn can pass to. */
  function Candidates(room: Room, sel: SongSelection): (r: seq<Id>)
    ensures forall id :: id in r ==> id in sel.participantIds && Seated(room.players, id)
    ensures r == [] <==> forall id :: id in sel.participantIds ==> !Seated(room.players, id)
    ensures forall id :: id in r && id in sel.failedIds ==>
              forall other :: other in sel.participantIds && Seated(room.players, other) ==> other in sel.failedIds
  {
    var present := Present(room, sel.participantIds);
    NotFailedMembers(sel, present);
    assert present != [] ==> present[0] in present;
    assert NotFailed(sel, present) != [] ==> NotFailed(sel, present)[0] in NotFailed(sel, present);
    if NotFailed(sel, present) != [] then NotFailed(sel, present) else present
  }

  /** Hands the choice to `chooser` with a fresh deadline. */
  function HandTo(sel: SongSelection, chooser: Id, reason: ChooserReason, now: int): (r: SongSelection)
    ensures r == sel.(phase := Choosing, chooserId := r.chooserId, chooserReason := r.chooserReason, chooseDeadline := r.chooseDeadline)
    ensures r.chooserId == Some(chooser) && r.chooserReason == Some(reason)
    ensures r.chooseDeadline.Some? && r.chooseDeadline.value - now == sel.chooseMs
  {
    sel.(phase := Choosing, chooserId := Some(chooser), chooserReason := Some(reason),
         chooseDeadline := Some(now + sel.chooseMs))
  }

  /** The turn passes to someone else, or the selection is cancelled when nobody is left. */
  function FallbackChooser(room: Room, sel: SongSelection, reason: ChooserReason, draw: nat, now: int): (r: Room)
    ensures r == room.(songSelection := r.songSelection)
    ensures r.songSelection.None? <==> forall id :: id in sel.participantIds ==> !Seated(room.players, id)
    ensures r.songSelection.Some? ==>
              && r.songSelection.value.chooserId.Some?
              && r.songSelection.value == HandTo(sel, r.songSelection.value.chooserId.value, reason, now)
              && r.songSelection.value.chooserId.value in sel.participantIds
              && Seated(room.players, r.songSelection.value.chooserId.value)
              && (r.songSelection.value.chooserId.value in sel.failedIds ==>
                    forall other :: other in sel.participantIds && Seated(room.players, other) ==> other in sel.failedIds)
  {
    var candidates := Candidates(room, sel);
    if candidates == [] then room.(songSelection := None)
    else room.(songSelection := Some(HandTo(sel, Pick(candidates, draw), reason, now)))
  }

  datatype ChallengeOptions = ChallengeOptions(durationMs: int, chooseMs: int, phrases: seq<string>, songs: seq<Song>)

  function OtherPhrases(phrases: seq<string>, previous: Option<string>): seq<string> {
    match previous
    case None => phrases
    case Some(p) => Drop(phrases, p)
  }

  function PhrasePool(room: Room, phrases: seq<string>): seq<string> {
    var previous := if room.songSelection.Some? then Some(room.songSelection.value.challenge.phrase) else None;
    if |phrases| > 1 then OtherPhrases(phrases, previous) else phrases
  }

  /** The host shows a phrase to every dancer in the lobby. */
  function Start(room: Room, now: int, options: ChallengeOptions, challengeId: Id, draw: nat): (r: Outcome)
    ensures r.Changed? <==>
              && options.chooseMs > 0 && room.status == Waiting && !InProgress(room)
              && |InRole(room.players, Dancer)| >= MIN_DANCERS_PER_BATTLE
              && EveryoneReady(room) && PhrasePool(room, options.phrases) != []
    ensures r.Changed? ==>
              && r.room == room.(songSelection := r.room.songSelection, selectedSong := None)
              && r.room.songSelection.Some?
              && var sel := r.room.songSelection.value;
                 && sel.phase == Typing && sel.failedIds == [] && sel.challenge.phrase in options.phrases
                 && sel.participantIds == Ids(InRole(room.players, Dancer))
                 && sel.challenge.expiresAt - now == options.durationMs && sel.challenge.startedAt == now
                 && sel.chooserId.None? && sel.chooserReason.None? && sel.chooseDeadline.None? && !sel.autoPicked
                 && sel.chooseMs == options.chooseMs && sel.songOptions == options.songs && sel.challenge.id == challengeId
                 && (room.songSelection.Some? && |options.phrases| > 1 ==>
                       sel.challenge.phrase != room.songSelection.value.challenge.phrase)
    ensures !r.Unchanged? && !r.Removed?
  {
    if options.chooseMs <= 0 then Refused(RANGE_ERROR)
    else if room.status != Waiting then Refused(ROOM_NOT_WAITING)
    else if InProgress(room) then Refused(SONG_SELECTION_IN_PROGRESS)
    else
      var participantIds := Ids(InRole(room.players, Dancer));
      if |participantIds| < MIN_DANCERS_PER_BATTLE then Refused(NOT_ENOUGH_DANCERS)
      else if !EveryoneReady(room) then Refused(PLAYERS_NOT_READY)
      else
        var pool := PhrasePool(room, options.phrases);
        if pool == [] then Refused(RANGE_ERROR)  // random(0) has nothing to draw from
        else
          var challenge := Challenge(challengeId, Pick(pool, draw), now, now + options.durationMs);
          Changed(room.(
            songSelection := Some(SongSelection(Typing, challenge, participantIds, [], None, None,
                                                options.songs, options.chooseMs, None, false)),
            selectedSong := None))
  }

  predicate IsTyping(room: Room) {
    room.songSelection.Some? && room.songSelection.value.phase == Typing
  }

  predicate IsChoosing(room: Room) {
    room.songSelection.Some? && room.songSelection.value.phase == Choosing
  }

  ghost predicate EveryoneFailed(room: Room, sel: SongSelection) {
    forall id :: id in sel.participantIds && Seated(room.players, id) ==> id in sel.failedIds
  }

  datatype SubmitOutcome = Accepted | Incorrect | Expired

  /** What a typed phrase comes to, besides the room it leaves. */
  function SubmitVerdict(room: Room, text: string, now: int): SubmitOutcome
    requires IsTyping(room)
  {
    var sel := room.songSelection.value;
    if now >= sel.challenge.expiresAt then Expired
    else if Trim(text) == sel.challenge.phrase then Accepted
    else Incorrect
  }

  /** A participant types the phrase. */
  function Submit(room: Room, playerId: Id, text: string, now: int, draw: nat): (r: Outcome)
    ensures r.Changed? <==>
              && IsTyping(room)
              && var sel := room.songSelection.value;
                 && playerId in sel.participantIds && Seated(room.players, playerId)
                 && (now >= sel.challenge.expiresAt || playerId !in sel.failedIds)
    ensures r.Changed? ==>
              && r.room == room.(songSelection := r.room.songSelection)
              && var sel := room.songSelection.value;
                 match SubmitVerdict(room, text, now)
                 case Expired => r.room == FallbackChooser(room, sel, Timeout, draw, now)
                 case Accepted => r.room.songSelection == Some(HandTo(sel, playerId, Typed, now))
                 case Incorrect =>
                   var failed := sel.(failedIds := sel.failedIds + [playerId]);
                   if EveryoneFailed(room, failed) then r.room == FallbackChooser(room, failed, AllFailed, draw, now)
                   else r.room.songSelection == Some(failed)
    ensures !r.Unchanged? && !r.Removed?
  {
    if !IsTyping(room) then Refused(SONG_SELECTION_NOT_ACTIVE)
    else
      var sel := room.songSelection.value;
      if playerId !in sel.participantIds then Refused(NOT_CHALLENGE_PARTICIPANT)
      else if !Seated(room.players, playerId) then Refused(PLAYER_NOT_IN_ROOM)
      else if now >= sel.challenge.expiresAt then Changed(FallbackChooser(room, sel, Timeout, draw, now))
      else if playerId in sel.failedIds then Refused(ATTEMPT_ALREADY_USED)
      else if Trim(text) == sel.challenge.phrase then
        Changed(room.(songSelection := Some(HandTo(sel, playerId, Typed, now))))
      else
        var failed := sel.(failedIds := sel.failedIds + [playerId]);
        var present := Present(room, failed.participantIds);
        assert (NotFailed(failed, present) == []) <==> EveryoneFailed(room, failed) by {
          NotFailedMembers(failed, present);
          assert NotFailed(failed, present) != [] ==> NotFailed(failed, present)[0] in NotFailed(failed, present);
        }
        if NotFailed(failed, present) == [] then Changed(FallbackChooser(room, failed, AllFailed, draw, now))
        else Changed(room.(songSelection := Some(failed)))
  }

  /** The countdown of a challenge ran out. The deadline itself is not looked at again. */
  function Expire(room: Room, challengeId: Id, draw: nat, now: int): (r: Outcome)
    ensures r.Changed? <==> IsTyping(room) && room.songSelection.value.challenge.id == challengeId
    ensures r.Changed? ==> r.room == FallbackChooser(room, room.songSelection.value, Timeout, draw, now)
    ensures !r.Changed? ==> r.Unchanged?
  {
    if !IsTyping(room) || room.songSelection.value.challenge.id != challengeId then Unchanged
    else Changed(FallbackChooser(room, room.songSelection.value, Timeout, draw, now))
  }

  function FindSong(songs: seq<Song>, songId: Id): (r: Option<Song>)
    ensures r.Some? <==> exists k :: 0 <= k < |songs| && songs[k].id == songId
    ensures r.Some? ==> r.value in songs && r.value.id == songId
  {
    if songs == [] then None
    else if songs[0].id == songId then Some(songs[0])
    else
      assert forall k :: 0 <= k < |songs| - 1 ==> songs[1..][k] == songs[k + 1];
      FindSong(songs[1..], songId)
  }

  /** The chooser picks a song. */
  function Choose(room: Room, playerId: Id, songId: Id): (r: Outcome)
    ensures r.Changed? <==>
              && IsChoosing(room) && room.songSelection.value.chooserId == Some(playerId)
              && exists k :: 0 <= k < |room.songSelection.value.songOptions| && room.songSelection.value.songOptions[k].id == songId
    ensures r.Changed? ==>
              && r.room == room.(songSelection := r.room.songSelection, selectedSong := r.room.selectedSong)
              && r.room.songSelection == Some(room.songSelection.value.(phase := Done, chooseDeadline := None))
              && r.room.selectedSong.Some? && r.room.selectedSong.value.id == songId
              && r.room.selectedSong.value in room.songSelection.value.songOptions
    ensures !r.Unchanged? && !r.Removed?
  {
    if !IsChoosing(room) then Refused(SONG_SELECTION_NOT_ACTIVE)
    else
      var sel := room.songSelection.value;
      if sel.chooserId != Some(playerId) then Refused(NOT_SONG_CHOOSER)
      else
        match FindSong(sel.songOptions, songId)
        case None => Refused(INVALID_SONG)
        case Some(song) =>
          Changed(room.(songSelection := Some(sel.(phase := Done, chooseDeadline := None)), selectedSong := Some(song)))
  }

  predicate AutoPickDue(room: Room, challengeId: Id, now: int) {
    && IsChoosing(room)
    && var sel := room.songSelection.value;
       && sel.challenge.id == challengeId && sel.chooserId.Some?
       && sel.chooseDeadline.Some? && now >= sel.chooseDeadline.value
  }

  /** The chooser let the deadline pass: a random option is chosen for them. */
  function AutoPick(room: Room, challengeId: Id, now: int, draw: nat): (r: Outcome)
    ensures r.Changed? <==> AutoPickDue(room, challengeId, now)
    ensures !r.Changed? ==> r.Unchanged?
    ensures r.Changed? ==>
              && var sel := room.songSelection.value;
                 if sel.songOptions == [] then r.room == room.(songSelection := None)
                 else
                   && r.room == room.(songSelection := r.room.songSelection, selectedSong := r.room.selectedSong)
                   && r.room.songSelection == Some(sel.(phase := Done, chooseDeadline := None, autoPicked := true))
                   && r.room.selectedSong.Some? && r.room.selectedSong.value in sel.songOptions
  {
    if !AutoPickDue(room, challengeId, now) then Unchanged
    else
      var sel := room.songSelection.value;
      if sel.songOptions == [] then Changed(room.(songSelection := None))
      else
        var song := Pick(sel.songOptions, draw);
        assert exists k :: 0 <= k < |sel.songOptions| && sel.songOptions[k].id == song.id;
        var chosen := Choose(room, sel.chooserId.value, song.id).room;
        Changed(chosen.(songSelection := Some(chosen.songSelection.value.(autoPicked := true))))
  }

  /** The chooser left before picking: the turn passes on. The room no longer holds the player. */
  function HandlePlayerLeft(room: Room, playerId: Id, draw: nat, now: int): (r: Room)
    ensures r == room.(songSelection := r.songSelection)
    ensures !(IsChoosing(room) && room.songSelection.value.chooserId == Some(playerId)) ==> r == room
    ensures IsChoosing(room) && room.songSelection.value.chooserId == Some(playerId) ==>
              r == FallbackChooser(room, room.songSelection.value, ChooserLeft, draw, now)
  {
    if IsChoosing(room) && room.songSelection.value.chooserId == Some(playerId)
    then FallbackChooser(room, room.songSelection.value, ChooserLeft, draw, now)
    else room
  }

  // ----- what chance and the room decide -----

  /** A phrase the host's challenge may show: any of the list, but not the last one shown
      when there is more than one to draw from. */
  predicate MayBeShown(room: Room, phrases: seq<string>, phrase: string) {
    phrase in phrases && (|phrases| > 1 && room.songSelection.Some? ==> phrase != room.songSelection.value.challenge.phrase)
  }

  lemma PoolIsShowable(room: Room, phrases: seq<string>)
    ensures forall phrase :: phrase in PhrasePool(room, phrases) <==> MayBeShown(room, phrases, phrase)
  {
  }

  /** A challenge starts exactly in the lobby, with no selection under way, with two dancers
      at least, everyone ready and a phrase to show. */
  lemma ChallengeStartsExactly(room: Room, now: int, options: ChallengeOptions, challengeId: Id, draw: nat)
    ensures Start(room, now, options, challengeId, draw).Changed? <==>
              && options.chooseMs > 0 && room.status == Waiting
              && (room.songSelection.None? || room.songSelection.value.phase == Done)
              && |InRole(room.players, Dancer)| >= 2 && (forall p :: p in room.players ==> p.ready)
              && exists phrase :: MayBeShown(room, options.phrases, phrase)
  {
    PoolIsShowable(room, options.phrases);
    assert (forall p :: p in room.players ==> p.ready) <==> EveryoneReady(room);
    if PhrasePool(room, options.phrases) != [] { assert PhrasePool(room, options.phrases)[0] in PhrasePool(room, options.phrases); }
  }

  /** Every phrase that may be shown is shown for some draw. */
  lemma EveryPhraseCanBeShown(room: Room, now: int, options: ChallengeOptions, challengeId: Id, phrase: string) returns (draw: nat)
    requires Start(room, now, options, challengeId, 0).Changed? && MayBeShown(room, options.phrases, phrase)
    ensures var o := Start(room, now, options, challengeId, draw);
            o.Changed? && o.room.songSelection.Some? && o.room.songSelection.value.challenge.phrase == phrase
  {
    PoolIsShowable(room, options.phrases);
    draw :| draw < |PhrasePool(room, options.phrases)| && PhrasePool(room, options.phrases)[draw] == phrase;
  }

  /** The turn can pass to every participant still in the room who has not failed, and to
      every one still in the room when all of them failed. */
  lemma EveryoneEntitledCanBeChosen(room: Room, sel: SongSelection, reason: ChooserReason, now: int, id: Id) returns (draw: nat)
    requires id in sel.participantIds && Seated(room.players, id)
    requires id in sel.failedIds ==> EveryoneFailed(room, sel)
    ensures var n := FallbackChooser(room, sel, reason, draw, now); n.songSelection.Some? && n.songSelection.value.chooserId == Some(id)
  {
    var present := Present(room, sel.participantIds);
    NotFailedMembers(sel, present);
    assert id in present;
    if NotFailed(sel, present) != [] {
      assert NotFailed(sel, present)[0] in NotFailed(sel, present);
    }
    assert id in Candidates(room, sel);
    draw :| draw < |Candidates(room, sel)| && Candidates(room, sel)[draw] == id;
  }

  /** Every song on offer can be the one picked for a chooser who let the time pass. */
  lemma EveryOptionCanBePicked(room: Room, challengeId: Id, now: int, k: nat)
    requires AutoPickDue(room, challengeId, now) && k < |room.songSelection.value.songOptions|
    ensures var o := AutoPick(room, challengeId, now, k);
            o.Changed? && o.room.selectedSong.Some? && o.room.selectedSong.value.id == room.songSelection.value.songOptions[k].id
  {
    var sel := room.songSelection.value;
    assert Pick(sel.songOptions, k) == sel.songOptions[k];
    assert Choose(room, sel.chooserId.value, sel.songOptions[k].id).Changed?;
  }
}
