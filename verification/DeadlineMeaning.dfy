/** When the timers of a room go off: at the very moment from which their use cases act, and
    with the challenge or battle these look for. */
module DeadlineMeaning {
  import opened Sequences
  import opened Text
  import opened Domain
  import opened RoomEvents
  import opened RoomInvariant
  import opened Deadlines
  import RoomService
  import SongSelecting

  /** The timer of the end of a battle: its use case finishes that battle, and no other, from
      the moment of the timer on and not before. */
  lemma EndTimerMeaning(fold: Fold, room: Room, battleId: Id, now: int)
    requires Inv(fold, room) && DeadlinesOf(room).end.Some?
    ensures var timer := DeadlinesOf(room).end.value;
            && room.battle.Some? && timer.at == room.battle.value.endsAt && timer.subject == room.battle.value.id
            && (Mutate(fold, room, FinishAtDeadline(battleId, now)).Changed? <==> battleId == timer.subject && now >= timer.at)
  {
    FinishIsStored(fold, room, battleId, now);
  }

  lemma FinishIsStored(fold: Fold, room: Room, battleId: Id, now: int)
    ensures Mutate(fold, room, FinishAtDeadline(battleId, now)).Changed? <==>
              room.battle.Some? && room.battle.value.id == battleId && room.status == Battling && now >= room.battle.value.endsAt
  {
  }

  lemma PickIsStored(fold: Fold, room: Room, e: Event)
    requires e.AutoPickSong? && RoomService.SaneOptions(e.options)
    ensures Mutate(fold, room, e).Changed? <==> SongSelecting.AutoPick(room, e.challengeId, e.options.now, e.draw).Changed?
  {
    assert Mutate(fold, room, e) == StartAfter(Chosen(room, e), e.options, e.battleId);
  }

  /** The timer of a turn: its use case picks a song for the chooser of that challenge, and of
      no other, from the moment of the timer on and not before. */
  lemma ChooseTimerMeaning(fold: Fold, room: Room, e: Event)
    requires Inv(fold, room) && DeadlinesOf(room).choose.Some? && e.AutoPickSong? && RoomService.SaneOptions(e.options)
    ensures var timer := DeadlinesOf(room).choose.value;
            && room.songSelection.Some? && Some(timer.at) == room.songSelection.value.chooseDeadline
            && timer.subject == room.songSelection.value.challenge.id
            && (Mutate(fold, room, e).Changed? <==> e.challengeId == timer.subject && e.options.now >= timer.at)
  {
    PickIsStored(fold, room, e);
    assert SelectionInv(room);
  }

  /** The timer of a phrase: from its moment on every typed phrase comes too late, and not
      before; its use case resolves that challenge, and no other, whenever it runs. */
  lemma ChallengeTimerMeaning(fold: Fold, room: Room, challengeId: Id, text: string, now: int, draw: nat)
    requires Inv(fold, room) && DeadlinesOf(room).challenge.Some?
    ensures var timer := DeadlinesOf(room).challenge.value;
            && SongSelecting.IsTyping(room) && timer.at == room.songSelection.value.challenge.expiresAt
            && timer.subject == room.songSelection.value.challenge.id
            && (SongSelecting.SubmitVerdict(room, text, now) == SongSelecting.Expired <==> now >= timer.at)
            && (Mutate(fold, room, ExpireChallenge(challengeId, now, draw)).Changed? <==> challengeId == timer.subject)
  {
  }
}
