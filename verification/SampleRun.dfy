/** The shortest way from a newly created room to a battle and its end, and what can go
    otherwise on the way: rooms that are reachable, for what is proved of reachable rooms. */
module SampleRun {
  import opened Sequences
  import opened Text
  import opened Domain
  import opened RoomEvents
  import opened RoomInvariant
  import RoomService
  import SongSelecting
  import SelectionProgress

  // ----- a lobby of two -----

  /** A room as its creation makes it, but for its version and the result of an earlier battle. */
  ghost predicate IsOpen(r: Room) {
    && |r.players| == 1 && r.players[0].id == r.hostId && r.players[0].role == Undecided && !r.players[0].ready
    && ValidId(r.hostId)
    && r.dancers.None? && r.spectators == [] && r.status == Waiting
    && r.battle.None? && r.songSelection.None? && r.selectedSong.None?
  }

  /** A room as its creation makes it. */
  ghost predicate IsNew(r: Room) { IsOpen(r) && r.lastResult.None? && r.version == 0 }

  lemma CreatedIsNew(id: Id, displayName: string, code: string, createdAt: int)
    requires RoomService.Create(id, displayName, code, createdAt).Changed?
    ensures IsNew(RoomService.Create(id, displayName, code, createdAt).room)
  {
  }

  /** An id other than the host's. */
  function Guest(r: Room): Id { if r.hostId == "a" then "b" else "a" }

  lemma GuestIsValid(r: Room)
    ensures ValidId(Guest(r)) && Guest(r) != r.hostId && ValidName("A") && Trim("A") == "A"
  {
    TrimFixesExactlyTrimmed("A");
    TrimFixesExactlyTrimmed("a");
    TrimFixesExactlyTrimmed("b");
    assert "a"[0] != "b"[0];
  }

  function HostSeat(r: Room, role: Role, ready: bool): Player
    requires r.players != []
  {
    r.players[0].(role := role, ready := ready)
  }

  function GuestSeat(fold: Fold, r: Room, role: Role, ready: bool): Player {
    RoomService.NewSeat(fold, r.players, Guest(r), "A").(role := role, ready := ready)
  }

  /** The new room with host and guest in it. */
  function Lobby(r: Room, p: Player, q: Player, version: nat): Room {
    r.(players := [p, q], version := version)
  }

  lemma TwoSeats(p: Player, q: Player)
    requires p.id != q.id
    ensures Ids([p, q]) == [p.id, q.id] && Distinct(Ids([p, q]))
    ensures forall id :: Seated([p, q], id) <==> id == p.id || id == q.id
    ensures forall role :: InRole([p, q], role) == (if p.role == role then [p] else []) + (if q.role == role then [q] else [])
  {
    assert Ids([p, q])[0] == p.id && Ids([p, q])[1] == q.id;
    assert [p, q] == [p] + [q] && [] + [p] == [p];
    forall role ensures InRole([p, q], role) == (if p.role == role then [p] else []) + (if q.role == role then [q] else []) {
      InRoleAppend([], p, role);
      InRoleAppend([p], q, role);
    }
  }

  lemma GuestJoins(fold: Fold, r: Room)
    requires IsOpen(r)
    ensures Next(fold, r, Join(Guest(r), "A")) == Some(Lobby(r, HostSeat(r, Undecided, false), GuestSeat(fold, r, Undecided, false), r.version + 1))
  {
    GuestIsValid(r);
    assert Ids(r.players) == [r.hostId];
    assert !Seated(r.players, Guest(r));
    assert RoomService.Join(fold, r, Guest(r), "A").Changed?;
    assert r.players + [GuestSeat(fold, r, Undecided, false)] == [HostSeat(r, Undecided, false), GuestSeat(fold, r, Undecided, false)];
  }

  /** One of the two becomes a dancer. */
  lemma RoleChanges(fold: Fold, r: Room, p: Player, q: Player, n: Player, m: Player, version: nat, id: Id)
    requires IsOpen(r) && p.id != q.id
    requires (id == p.id && n == p.(role := Dancer) && m == q) || (id == q.id && n == p && m == q.(role := Dancer))
    requires n.role != Spectator && m.role != Spectator
    ensures Next(fold, Lobby(r, p, q, version), SelectRole(id, Dancer)) == Some(Lobby(r, n, m, version + 1))
  {
    TwoSeats(p, q);
    TwoSeats(n, m);
    var o := RoomService.SelectRole(Lobby(r, p, q, version), id, Dancer);
    assert o.Changed? && o.room.players == [n, m];
  }

  /** One of the two becomes ready. */
  lemma ReadyChanges(fold: Fold, r: Room, p: Player, q: Player, n: Player, m: Player, version: nat, id: Id)
    requires IsOpen(r) && p.id != q.id
    requires (id == p.id && n == p.(ready := true) && m == q) || (id == q.id && n == p && m == q.(ready := true))
    requires n.role != Spectator && m.role != Spectator
    ensures Next(fold, Lobby(r, p, q, version), SetReady(id, true)) == Some(Lobby(r, n, m, version + 1))
  {
    TwoSeats(p, q);
    TwoSeats(n, m);
    var o := RoomService.SetReady(Lobby(r, p, q, version), id, true);
    assert o.Changed? && o.room.players == [n, m];
  }

  /** The host leaves alone, and the room is deleted. */
  lemma HostLeaves(fold: Fold, r: Room)
    requires |r.players| == 1 && r.players[0].id == r.hostId
    ensures Mutate(fold, r, Leave(r.hostId, 0, 0)) == Removed
  {
    assert Ids(r.players)[0] == r.hostId;
    assert r.players == [r.players[0]] && [r.players[0]][1..] == [];
    assert Without(r.players, r.hostId) == [];
    var o := RoomService.Leave(r, r.hostId, 0, 0);
    assert o.Changed? && o.room.players == [];
  }

  // ----- a challenge -----

  const PHRASE := "go"
  const SONG := Song("s", "Song", "Artist", 60, "y")
  const CHALLENGE_OPTIONS := SongSelecting.ChallengeOptions(10, 10, [PHRASE], [SONG])

  function Typed(r: Room, challengeId: Id): SongSelection {
    SongSelection(Typing, Challenge(challengeId, PHRASE, 0, 10), [r.hostId, Guest(r)], [], None, None, [SONG], 10, None, false)
  }

  function Ready(fold: Fold, r: Room): Room
    requires r.players != []
  {
    Lobby(r, HostSeat(r, Dancer, true), GuestSeat(fold, r, Dancer, true), r.version + 5)
  }

  /** Host and guest are ready and the phrase is on screen. */
  function Challenged(fold: Fold, r: Room, challengeId: Id): Room
    requires r.players != []
  {
    Ready(fold, r).(songSelection := Some(Typed(r, challengeId)), version := r.version + 6)
  }

  function StartEvent(r: Room, challengeId: Id): Event {
    StartChallenge(r.hostId, 0, CHALLENGE_OPTIONS, challengeId, 0)
  }

  lemma ReadyForChallenge(fold: Fold, r: Room)
    requires IsOpen(r)
    ensures var ready := Ready(fold, r);
            && Ids(InRole(ready.players, Dancer)) == [r.hostId, Guest(r)]
            && SongSelecting.EveryoneReady(ready) && !SongSelecting.InProgress(ready)
            && SongSelecting.PhrasePool(ready, [PHRASE]) == [PHRASE]
  {
    var p, q := HostSeat(r, Dancer, true), GuestSeat(fold, r, Dancer, true);
    GuestIsValid(r);
    TwoSeats(p, q);
    assert InRole([p, q], Dancer) == [p, q];
  }

  lemma ChallengeOutcome(fold: Fold, r: Room, challengeId: Id)
    requires IsOpen(r)
    ensures SongSelecting.Start(Ready(fold, r), 0, CHALLENGE_OPTIONS, challengeId, 0)
         == Changed(Ready(fold, r).(songSelection := Some(Typed(r, challengeId))))
  {
    ReadyForChallenge(fold, r);
    var ready := Ready(fold, r);
    assert |InRole(ready.players, Dancer)| == |Ids(InRole(ready.players, Dancer))| == 2;
    assert SongSelecting.Pick([PHRASE], 0) == PHRASE;
    var o := SongSelecting.Start(ready, 0, CHALLENGE_OPTIONS, challengeId, 0);
    assert o.Changed?;
  }

  lemma ChallengeStarts(fold: Fold, r: Room, challengeId: Id)
    requires IsOpen(r)
    ensures Next(fold, Ready(fold, r), StartEvent(r, challengeId)) == Some(Challenged(fold, r, challengeId))
  {
    ChallengeOutcome(fold, r, challengeId);
    NextOfChallenge(fold, Ready(fold, r), challengeId, Challenged(fold, r, challengeId).(version := r.version + 5));
  }

  lemma NextOfChallenge(fold: Fold, r: Room, challengeId: Id, n: Room)
    requires SongSelecting.Start(r, 0, CHALLENGE_OPTIONS, challengeId, 0) == Changed(n)
    ensures Next(fold, r, StartEvent(r, challengeId)) == Some(n.(version := r.version + 1))
  {
  }

  // ----- getting there -----

  /** Some updates lead from one room to the other, without anybody winning a word. */
  ghost predicate LeadsTo(fold: Fold, r: Room, n: Room) {
    exists events: seq<Event> :: NoBonus(events) && Run(fold, r, events) == Some(n)
  }

  ghost predicate NoBonus(events: seq<Event>) { forall k :: 0 <= k < |events| ==> !events[k].AwardWordBonus? }

  lemma LeadsOn(fold: Fold, r: Room, m: Room, e: Event, n: Room)
    requires LeadsTo(fold, r, m) && Next(fold, m, e) == Some(n) && !e.AwardWordBonus?
    ensures LeadsTo(fold, r, n)
  {
    var events: seq<Event> :| NoBonus(events) && Run(fold, r, events) == Some(m);
    RunOneMore(fold, r, events, e);
    assert NoBonus(events + [e]) && Run(fold, r, events + [e]) == Some(n);
  }

  lemma LeadsToItself(fold: Fold, r: Room)
    ensures LeadsTo(fold, r, r)
  {
    assert NoBonus([]) && Run(fold, r, []) == Some(r);
  }

  lemma ReachesGuest(fold: Fold, r: Room)
    requires IsOpen(r)
    ensures LeadsTo(fold, r, Lobby(r, HostSeat(r, Undecided, false), GuestSeat(fold, r, Undecided, false), r.version + 1))
  {
    LeadsToItself(fold, r);
    GuestJoins(fold, r);
    LeadsOn(fold, r, r, Join(Guest(r), "A"), Lobby(r, HostSeat(r, Undecided, false), GuestSeat(fold, r, Undecided, false), r.version + 1));
  }

  lemma ReachesRole(fold: Fold, r: Room, p: Player, q: Player, n: Player, m: Player, version: nat, id: Id)
    requires IsOpen(r) && p.id != q.id && LeadsTo(fold, r, Lobby(r, p, q, version))
    requires (id == p.id && n == p.(role := Dancer) && m == q) || (id == q.id && n == p && m == q.(role := Dancer))
    requires n.role != Spectator && m.role != Spectator
    ensures LeadsTo(fold, r, Lobby(r, n, m, version + 1))
  {
    RoleChanges(fold, r, p, q, n, m, version, id);
    LeadsOn(fold, r, Lobby(r, p, q, version), SelectRole(id, Dancer), Lobby(r, n, m, version + 1));
  }

  lemma ReachesReadiness(fold: Fold, from: Room, r: Room, p: Player, q: Player, n: Player, m: Player, version: nat, id: Id)
    requires IsOpen(r) && p.id != q.id && LeadsTo(fold, from, Lobby(r, p, q, version))
    requires (id == p.id && n == p.(ready := true) && m == q) || (id == q.id && n == p && m == q.(ready := true))
    requires n.role != Spectator && m.role != Spectator
    ensures LeadsTo(fold, from, Lobby(r, n, m, version + 1))
  {
    ReadyChanges(fold, r, p, q, n, m, version, id);
    LeadsOn(fold, from, Lobby(r, p, q, version), SetReady(id, true), Lobby(r, n, m, version + 1));
  }

  /** Host and guest have chosen to dance. */
  function Unready(fold: Fold, r: Room): Room
    requires r.players != []
  {
    Lobby(r, HostSeat(r, Dancer, false), GuestSeat(fold, r, Dancer, false), r.version + 3)
  }

  lemma BothChooseToDance(fold: Fold, r: Room, p: Player, q: Player, version: nat)
    requires IsOpen(r) && p.id == r.hostId && q.id == Guest(r) && p.id != q.id && p.role == q.role == Undecided
    requires LeadsTo(fold, r, Lobby(r, p, q, version))
    ensures LeadsTo(fold, r, Lobby(r, p.(role := Dancer), q.(role := Dancer), version + 2))
  {
    ReachesRole(fold, r, p, q, p.(role := Dancer), q, version, p.id);
    ReachesRole(fold, r, p.(role := Dancer), q, p.(role := Dancer), q.(role := Dancer), version + 1, q.id);
  }

  lemma BothGetReady(fold: Fold, from: Room, r: Room, p: Player, q: Player, version: nat)
    requires IsOpen(r) && p.id == r.hostId && q.id == Guest(r) && p.id != q.id && p.role == q.role == Dancer
    requires LeadsTo(fold, from, Lobby(r, p, q, version))
    ensures LeadsTo(fold, from, Lobby(r, p.(ready := true), q.(ready := true), version + 2))
  {
    ReachesReadiness(fold, from, r, p, q, p.(ready := true), q, version, p.id);
    ReachesReadiness(fold, from, r, p.(ready := true), q, p.(ready := true), q.(ready := true), version + 1, q.id);
  }

  lemma SeatsMove(fold: Fold, r: Room)
    requires r.players != []
    ensures var h, g := HostSeat(r, Undecided, false), GuestSeat(fold, r, Undecided, false);
            && g.id == Guest(r) && g.role == Undecided
            && Lobby(r, h.(role := Dancer), g.(role := Dancer), r.version + 1 + 2) == Unready(fold, r)
    ensures var h, g := HostSeat(r, Dancer, false), GuestSeat(fold, r, Dancer, false);
            && g.id == Guest(r) && g.role == Dancer && Unready(fold, r) == Lobby(r, h, g, r.version + 3)
            && Lobby(r, h.(ready := true), g.(ready := true), r.version + 3 + 2) == Ready(fold, r)
  {
  }

  lemma ReachesDancers(fold: Fold, r: Room)
    requires IsOpen(r)
    ensures LeadsTo(fold, r, Unready(fold, r))
  {
    var h, g := HostSeat(r, Undecided, false), GuestSeat(fold, r, Undecided, false);
    GuestIsValid(r);
    SeatsMove(fold, r);
    ReachesGuest(fold, r);
    BothChooseToDance(fold, r, h, g, r.version + 1);
  }

  lemma GetsReady(fold: Fold, from: Room, r: Room)
    requires IsOpen(r) && LeadsTo(fold, from, Unready(fold, r))
    ensures LeadsTo(fold, from, Ready(fold, r))
  {
    var h, g := HostSeat(r, Dancer, false), GuestSeat(fold, r, Dancer, false);
    GuestIsValid(r);
    SeatsMove(fold, r);
    BothGetReady(fold, from, r, h, g, r.version + 3);
  }

  lemma GetsChallenged(fold: Fold, from: Room, r: Room, challengeId: Id)
    requires IsOpen(r) && LeadsTo(fold, from, Unready(fold, r))
    ensures LeadsTo(fold, from, Challenged(fold, r, challengeId))
  {
    GetsReady(fold, from, r);
    ChallengeStarts(fold, r, challengeId);
    LeadsOn(fold, from, Ready(fold, r), StartEvent(r, challengeId), Challenged(fold, r, challengeId));
  }

  /** From any new room six updates lead to a challenge. */
  lemma ReachesChallenge(fold: Fold, r: Room, challengeId: Id)
    requires IsOpen(r)
    ensures LeadsTo(fold, r, Challenged(fold, r, challengeId))
  {
    ReachesDancers(fold, r);
    GetsChallenged(fold, r, r, challengeId);
  }

  lemma ReachedHolds(fold: Fold, r: Room, n: Room)
    requires Inv(fold, r) && LeadsTo(fold, r, n)
    ensures Inv(fold, n)
  {
    var events: seq<Event> :| NoBonus(events) && Run(fold, r, events) == Some(n);
    RunKeeps(fold, r, events);
  }

  // ----- what a challenge can come to -----

  lemma NextOfSubmit(fold: Fold, r: Room, id: Id, text: string, n: Room)
    requires SongSelecting.Submit(r, id, text, 1, 0) == Changed(n)
    ensures Next(fold, r, SubmitPhrase(id, text, 1, 0)) == Some(n.(version := r.version + 1))
  {
  }

  /** The challenge after the host misspelled the phrase. */
  function HostFailed(fold: Fold, r: Room, challengeId: Id): Room
    requires r.players != []
  {
    Challenged(fold, r, challengeId).(songSelection := Some(Typed(r, challengeId).(failedIds := [r.hostId])), version := r.version + 7)
  }

  lemma HostMayMisspell(fold: Fold, r: Room, challengeId: Id)
    requires IsOpen(r)
    ensures var typing, sel := Challenged(fold, r, challengeId), Typed(r, challengeId);
            && SongSelecting.IsTyping(typing) && SongSelecting.SubmitVerdict(typing, "no", 1) == SongSelecting.Incorrect
            && r.hostId in sel.participantIds && Seated(typing.players, r.hostId)
            && !SongSelecting.EveryoneFailed(typing, sel.(failedIds := [r.hostId]))
  {
    var sel := Typed(r, challengeId);
    GuestIsValid(r);
    TwoSeats(HostSeat(r, Dancer, true), GuestSeat(fold, r, Dancer, true));
    PhrasesAreTrimmed();
    assert sel.participantIds[0] == r.hostId && sel.participantIds[1] == Guest(r);
    assert Guest(r) !in [r.hostId];
  }

  lemma OneMisspells(room: Room, id: Id, text: string, now: int, draw: nat)
    requires SongSelecting.IsTyping(room) && SongSelecting.SubmitVerdict(room, text, now) == SongSelecting.Incorrect
    requires var sel := room.songSelection.value;
             && id in sel.participantIds && Seated(room.players, id) && id !in sel.failedIds
             && !SongSelecting.EveryoneFailed(room, sel.(failedIds := sel.failedIds + [id]))
    ensures var sel := room.songSelection.value;
            SongSelecting.Submit(room, id, text, now, draw) == Changed(room.(songSelection := Some(sel.(failedIds := sel.failedIds + [id]))))
  {
    assert SongSelecting.Submit(room, id, text, now, draw).Changed?;
  }

  lemma HostFailedIs(fold: Fold, r: Room, challengeId: Id)
    requires r.players != []
    ensures var sel := Typed(r, challengeId);
            && sel.failedIds + [r.hostId] == [r.hostId] && sel.failedIds == []
            && Challenged(fold, r, challengeId).(songSelection := Some(sel.(failedIds := [r.hostId])))
               == HostFailed(fold, r, challengeId).(version := r.version + 6)
  {
  }

  lemma MisspellingOutcome(fold: Fold, r: Room, challengeId: Id)
    requires IsOpen(r)
    ensures SongSelecting.Submit(Challenged(fold, r, challengeId), r.hostId, "no", 1, 0)
         == Changed(HostFailed(fold, r, challengeId).(version := r.version + 6))
  {
    HostMayMisspell(fold, r, challengeId);
    HostFailedIs(fold, r, challengeId);
    OneMisspells(Challenged(fold, r, challengeId), r.hostId, "no", 1, 0);
  }

  lemma HostMisspells(fold: Fold, r: Room, challengeId: Id)
    requires IsOpen(r)
    ensures Next(fold, Challenged(fold, r, challengeId), SubmitPhrase(r.hostId, "no", 1, 0)) == Some(HostFailed(fold, r, challengeId))
  {
    MisspellingOutcome(fold, r, challengeId);
    NextOfSubmit(fold, Challenged(fold, r, challengeId), r.hostId, "no", HostFailed(fold, r, challengeId).(version := r.version + 6));
  }

  /** Somebody is in the room, a phrase is on screen, and nobody can type it. */
  ghost predicate Stranded(n: Room) {
    SongSelecting.IsTyping(n) && SongSelecting.EveryoneFailed(n, n.songSelection.value) && n.players != []
  }

  /** Nobody is left who could type the phrase: the host misspelled it and the guest leaves. */
  lemma GuestLeavesAlone(fold: Fold, r: Room, challengeId: Id, now: int, draw: nat)
    requires IsOpen(r) && Inv(fold, HostFailed(fold, r, challengeId))
    ensures var o := RoomService.Leave(HostFailed(fold, r, challengeId), Guest(r), now, draw);
            o.Changed? && Stranded(o.room)
  {
    var failed, sel := HostFailed(fold, r, challengeId), Typed(r, challengeId).(failedIds := [r.hostId]);
    GuestIsValid(r);
    TwoSeats(HostSeat(r, Dancer, true), GuestSeat(fold, r, Dancer, true));
    SelectionProgress.DepartureCanStrandTheChallenge(fold, failed, Guest(r), now, draw);
    WithoutIds(failed.players, Guest(r));
    assert r.hostId in Drop(Ids(failed.players), Guest(r));
  }

  lemma NextOfLeave(fold: Fold, r: Room, id: Id, now: int, draw: nat)
    requires var o := RoomService.Leave(r, id, now, draw); o.Changed? && Stranded(o.room)
    ensures var n := Next(fold, r, Leave(id, now, draw)); n.Some? && Stranded(n.value)
  {
  }

  lemma ReachesMisspelling(fold: Fold, r: Room, challengeId: Id)
    requires IsOpen(r)
    ensures LeadsTo(fold, r, HostFailed(fold, r, challengeId))
  {
    ReachesChallenge(fold, r, challengeId);
    HostMisspells(fold, r, challengeId);
    LeadsOn(fold, r, Challenged(fold, r, challengeId), SubmitPhrase(r.hostId, "no", 1, 0), HostFailed(fold, r, challengeId));
  }

  /** From every new room some updates lead to a phrase that nobody can type any more. */
  lemma StrandedChallengeIsReachable(fold: Fold, r: Room)
    requires IsOpen(r) && Inv(fold, r)
    ensures exists n :: LeadsTo(fold, r, n) && Stranded(n)
  {
    var failed := HostFailed(fold, r, "c");
    ReachesMisspelling(fold, r, "c");
    ReachedHolds(fold, r, failed);
    GuestLeavesAlone(fold, r, "c", 2, 0);
    NextOfLeave(fold, failed, Guest(r), 2, 0);
    var n := Next(fold, failed, Leave(Guest(r), 2, 0)).value;
    LeadsOn(fold, r, failed, Leave(Guest(r), 2, 0), n);
    assert LeadsTo(fold, r, n) && Stranded(n);
  }

  lemma ChallengedTimesOut(fold: Fold, r: Room, challengeId: Id)
    requires IsOpen(r) && Inv(fold, Challenged(fold, r, challengeId))
    ensures var n := Next(fold, Challenged(fold, r, challengeId), ExpireChallenge(challengeId, 9, 0));
            n.Some? && SongSelecting.IsChoosing(n.value) && n.value.songSelection.value.chooserReason == Some(Timeout)
  {
    var typing := Challenged(fold, r, challengeId);
    TwoSeats(HostSeat(r, Dancer, true), GuestSeat(fold, r, Dancer, true));
    GuestIsValid(r);
    assert r.hostId in Typed(r, challengeId).participantIds;
    assert r.hostId in SelectionProgress.PresentSet(typing, typing.songSelection.value);
    SelectionProgress.PhraseCanTimeOutEarly(fold, typing, 0);
  }

  /** From every new room some updates lead to a phrase with ten milliseconds to type it,
      and an expiry after nine of them names a chooser. */
  lemma EarlyTimeoutIsReachable(fold: Fold, r: Room)
    requires IsOpen(r) && Inv(fold, r)
    ensures exists typing ::
              && LeadsTo(fold, r, typing) && SongSelecting.IsTyping(typing) && typing.songSelection.value.challenge.expiresAt == 10
              && var n := Next(fold, typing, ExpireChallenge(typing.songSelection.value.challenge.id, 9, 0));
                 n.Some? && SongSelecting.IsChoosing(n.value) && n.value.songSelection.value.chooserReason == Some(Timeout)
  {
    ReachesChallenge(fold, r, "c");
    ReachedHolds(fold, r, Challenged(fold, r, "c"));
    ChallengedTimesOut(fold, r, "c");
  }

  // ----- a battle -----

  function HostChooses(fold: Fold, r: Room, challengeId: Id): Room
    requires r.players != []
  {
    Challenged(fold, r, challengeId).(
      songSelection := Some(SongSelecting.HandTo(Typed(r, challengeId), r.hostId, ChooserReason.Typed, 1)), version := r.version + 7)
  }

  lemma PhrasesAreTrimmed()
    ensures Trim(PHRASE) == PHRASE && Trim("no") == "no" && "no" != PHRASE
  {
    TrimFixesExactlyTrimmed("go");
    TrimFixesExactlyTrimmed("no");
    assert "no"[0] != "go"[0];
  }

  lemma HostMayType(fold: Fold, r: Room, challengeId: Id)
    requires IsOpen(r)
    ensures var typing := Challenged(fold, r, challengeId);
            && SongSelecting.IsTyping(typing) && SongSelecting.SubmitVerdict(typing, PHRASE, 1) == SongSelecting.Accepted
            && r.hostId in Typed(r, challengeId).participantIds && Seated(typing.players, r.hostId)
  {
    GuestIsValid(r);
    TwoSeats(HostSeat(r, Dancer, true), GuestSeat(fold, r, Dancer, true));
    PhrasesAreTrimmed();
    assert Typed(r, challengeId).participantIds[0] == r.hostId;
  }

  lemma TypingOutcome(fold: Fold, r: Room, challengeId: Id)
    requires IsOpen(r)
    ensures SongSelecting.Submit(Challenged(fold, r, challengeId), r.hostId, PHRASE, 1, 0)
         == Changed(HostChooses(fold, r, challengeId).(version := r.version + 6))
  {
    HostMayType(fold, r, challengeId);
    var o := SongSelecting.Submit(Challenged(fold, r, challengeId), r.hostId, PHRASE, 1, 0);
    assert o.Changed?;
  }

  lemma HostTypes(fold: Fold, r: Room, challengeId: Id)
    requires IsOpen(r)
    ensures Next(fold, Challenged(fold, r, challengeId), SubmitPhrase(r.hostId, PHRASE, 1, 0)) == Some(HostChooses(fold, r, challengeId))
  {
    TypingOutcome(fold, r, challengeId);
    NextOfSubmit(fold, Challenged(fold, r, challengeId), r.hostId, PHRASE, HostChooses(fold, r, challengeId).(version := r.version + 6));
  }

  lemma SongCanBeChosen(fold: Fold, r: Room, challengeId: Id)
    requires IsOpen(r)
    ensures var o := SongSelecting.Choose(HostChooses(fold, r, challengeId), r.hostId, "s");
            && o.Changed? && o.room.selectedSong.Some? && o.room.songSelection.Some? && !SongSelecting.InProgress(o.room)
            && o.room.status == Waiting && o.room.players == Ready(fold, r).players
  {
    var sel := HostChooses(fold, r, challengeId).songSelection.value;
    assert sel.songOptions == [SONG] && sel.songOptions[0].id == "s";
  }

  /** Host and guest are in the room, as dancers. */
  ghost predicate BothIn(fold: Fold, r: Room, n: Room)
    requires r.players != []
  {
    && n.players == Ready(fold, r).players && n.hostId == r.hostId && n.code == r.code && n.createdAt == r.createdAt
  }

  ghost predicate StartsBattle(fold: Fold, r: Room, o: Outcome, battleId: Id)
    requires r.players != []
  {
    && o.Changed? && o.room.status == Battling && o.room.battle.Some? && o.room.battle.value.id == battleId
    && o.room.battle.value.dancerIds == [r.hostId, Guest(r)] && BothIn(fold, r, o.room)
  }

  lemma ChosenStarts(fold: Fold, r: Room, chosen: Room, options: RoomService.StartOptions, battleId: Id)
    requires IsOpen(r) && RoomService.SaneOptions(options)
    requires chosen.status == Waiting && !SongSelecting.InProgress(chosen) && chosen.selectedSong.Some? && BothIn(fold, r, chosen)
    ensures StartsBattle(fold, r, RoomService.StartBattle(chosen, None, options, battleId), battleId)
  {
    var ids := [r.hostId, Guest(r)];
    ReadyForChallenge(fold, r);
    GuestIsValid(r);
    TwoSeats(HostSeat(r, Dancer, true), GuestSeat(fold, r, Dancer, true));
    DistinctBySize(ids);
    assert RoomService.SelectedIds(chosen, None) == ids;
    assert RoomService.CanStart(chosen, None, options);
    assert RoomService.SeatAll(chosen.players, ids) == chosen.players by {
      assert ids[0] == chosen.players[0].id && ids[1] == chosen.players[1].id;
    }
  }

  lemma StartAfterStarts(chosen: Outcome, options: RoomService.StartOptions, battleId: Id)
    requires chosen.Changed? && chosen.room.songSelection.Some? && RoomService.StartBattle(chosen.room, None, options, battleId).Changed?
    ensures StartAfter(chosen, options, battleId) == RoomService.StartBattle(chosen.room, None, options, battleId)
  {
  }

  lemma ChoiceIsStartAfter(fold: Fold, r: Room, e: Event)
    requires e.ChooseSong?
    ensures Mutate(fold, r, e) == StartAfter(Chosen(r, e), e.options, e.battleId)
  {
  }

  lemma BattleStarts(fold: Fold, r: Room, challengeId: Id, options: RoomService.StartOptions, battleId: Id)
    requires IsOpen(r) && RoomService.SaneOptions(options)
    ensures StartsBattle(fold, r, Mutate(fold, HostChooses(fold, r, challengeId), ChooseSong(r.hostId, "s", options, battleId)), battleId)
  {
    SongCanBeChosen(fold, r, challengeId);
    var chosen := SongSelecting.Choose(HostChooses(fold, r, challengeId), r.hostId, "s");
    ChosenStarts(fold, r, chosen.room, options, battleId);
    StartAfterStarts(chosen, options, battleId);
    ChoiceIsStartAfter(fold, HostChooses(fold, r, challengeId), ChooseSong(r.hostId, "s", options, battleId));
  }

  /** The battle of host and guest, running or finished. */
  ghost predicate BothBattle(fold: Fold, r: Room, n: Room, status: Status, battleId: Id, version: nat)
    requires r.players != []
  {
    && BothIn(fold, r, n) && n.status == status && n.version == version
    && n.battle.Some? && n.battle.value.id == battleId && n.battle.value.dancerIds == [r.hostId, Guest(r)]
  }

  lemma NextIsRunning(fold: Fold, r: Room, m: Room, e: Event, battleId: Id)
    requires r.players != [] && StartsBattle(fold, r, Mutate(fold, m, e), battleId)
    ensures var n := Next(fold, m, e); n.Some? && BothBattle(fold, r, n.value, Battling, battleId, m.version + 1)
  {
    NextCommits(fold, m, e);
  }

  lemma NextOfDeadline(fold: Fold, r: Room, n: Room, battleId: Id)
    requires r.players != [] && BothBattle(fold, r, n, Battling, battleId, n.version)
    ensures var o := Next(fold, n, FinishAtDeadline(battleId, n.battle.value.endsAt));
            o.Some? && BothBattle(fold, r, o.value, Finished, battleId, n.version + 1)
  {
  }

  lemma GetsToChoose(fold: Fold, from: Room, r: Room)
    requires IsOpen(r) && LeadsTo(fold, from, Unready(fold, r))
    ensures LeadsTo(fold, from, HostChooses(fold, r, "c"))
  {
    GetsChallenged(fold, from, r, "c");
    HostTypes(fold, r, "c");
    LeadsOn(fold, from, Challenged(fold, r, "c"), SubmitPhrase(r.hostId, PHRASE, 1, 0), HostChooses(fold, r, "c"));
  }

  lemma GetsToBattle(fold: Fold, from: Room, r: Room, options: RoomService.StartOptions, battleId: Id) returns (running: Room)
    requires IsOpen(r) && RoomService.SaneOptions(options) && LeadsTo(fold, from, Unready(fold, r))
    ensures LeadsTo(fold, from, running) && BothBattle(fold, r, running, Battling, battleId, r.version + 8)
  {
    GetsToChoose(fold, from, r);
    BattleStarts(fold, r, "c", options, battleId);
    var e := ChooseSong(r.hostId, "s", options, battleId);
    NextIsRunning(fold, r, HostChooses(fold, r, "c"), e, battleId);
    running := Next(fold, HostChooses(fold, r, "c"), e).value;
    LeadsOn(fold, from, HostChooses(fold, r, "c"), e, running);
  }

  /** From every new room some updates lead to a running battle. */
  lemma BattleIsReachable(fold: Fold, r: Room, options: RoomService.StartOptions, battleId: Id) returns (running: Room)
    requires IsOpen(r) && RoomService.SaneOptions(options)
    ensures LeadsTo(fold, r, running) && BothBattle(fold, r, running, Battling, battleId, r.version + 8)
  {
    ReachesDancers(fold, r);
    running := GetsToBattle(fold, r, r, options, battleId);
  }

  /** And one more leads to its end. */
  lemma GetsToTheEnd(fold: Fold, from: Room, r: Room, running: Room, battleId: Id) returns (over: Room)
    requires r.players != [] && LeadsTo(fold, from, running) && BothBattle(fold, r, running, Battling, battleId, r.version + 8)
    ensures LeadsTo(fold, from, over) && BothBattle(fold, r, over, Finished, battleId, r.version + 9)
  {
    NextOfDeadline(fold, r, running, battleId);
    var e := FinishAtDeadline(battleId, running.battle.value.endsAt);
    over := Next(fold, running, e).value;
    LeadsOn(fold, from, running, e, over);
  }

  // ----- another battle -----

  /** What a rematch makes of the room: the lobby it was, but for version and last result. */
  function Again(r: Room, lastResult: Option<BattleResult>): Room {
    r.(version := r.version + 7, lastResult := lastResult)
  }

  lemma RematchOutcome(fold: Fold, r: Room, over: Room, battleId: Id)
    requires IsOpen(r) && BothBattle(fold, r, over, Finished, battleId, r.version + 9)
    ensures var o := RoomService.Rematch(over, r.hostId);
            o.Changed? && o.room.(version := r.version + 10) == Unready(fold, Again(r, o.room.lastResult))
  {
    var o := RoomService.Rematch(over, r.hostId);
    var h1, g1 := HostSeat(r, Dancer, false), GuestSeat(fold, r, Dancer, false);
    GuestIsValid(r);
    TwoSeats(h1, g1);
    assert RoomService.Unready(over.players) == [h1, g1];
  }

  lemma NextOfRematch(fold: Fold, over: Room, hostId: Id)
    requires RoomService.Rematch(over, hostId).Changed?
    ensures Next(fold, over, Rematch(hostId)) == Some(RoomService.Rematch(over, hostId).room.(version := over.version + 1))
  {
  }

  /** From a running battle some updates lead to the next one: the song ends, the host asks
      for a rematch, both become ready, and a song is chosen. */
  lemma NextBattleIsReachable(fold: Fold, r: Room, running: Room, options: RoomService.StartOptions, battleId: Id, nextId: Id)
    returns (again: Room)
    requires IsOpen(r) && RoomService.SaneOptions(options) && BothBattle(fold, r, running, Battling, battleId, r.version + 8)
    ensures LeadsTo(fold, running, again) && again.status == Battling && again.battle.Some?
    ensures again.battle.value.id == nextId && again.battle.value.dancerIds == [r.hostId, Guest(r)]
  {
    LeadsToItself(fold, running);
    var over := GetsToTheEnd(fold, running, r, running, battleId);
    RematchOutcome(fold, r, over, battleId);
    NextOfRematch(fold, over, r.hostId);
    var lobby := Again(r, RoomService.Rematch(over, r.hostId).room.lastResult);
    LeadsOn(fold, running, over, Rematch(r.hostId), Unready(fold, lobby));
    again := GetsToBattle(fold, running, lobby, options, nextId);
  }

  /** So what is proved of reachable battles, running and finished, is proved of something. */
  lemma BattlesAreReachable(fold: Fold, id: Id, displayName: string, code: string, createdAt: int,
                            options: RoomService.StartOptions, battleId: Id)
    requires RoomService.Create(id, displayName, code, createdAt).Changed? && RoomService.SaneOptions(options)
    ensures exists n :: Reachable(fold, n) && n.status == Battling
    ensures exists n :: Reachable(fold, n) && n.status == Finished
  {
    CreatedIsNew(id, displayName, code, createdAt);
    var r := RoomService.Create(id, displayName, code, createdAt).room;
    var running := BattleIsReachable(fold, r, options, battleId);
    IsReachable(fold, id, displayName, code, createdAt, running);
    var over := GetsToTheEnd(fold, r, r, running, battleId);
    IsReachable(fold, id, displayName, code, createdAt, over);
  }

  lemma IsReachable(fold: Fold, id: Id, displayName: string, code: string, createdAt: int, n: Room)
    requires var created := RoomService.Create(id, displayName, code, createdAt); created.Changed? && LeadsTo(fold, created.room, n)
    ensures Reachable(fold, n)
  {
    var created := RoomService.Create(id, displayName, code, createdAt);
    var events: seq<Event> :| NoBonus(events) && Run(fold, created.room, events) == Some(n);
  }
}
