/** Updates, publications and timers of the rooms that live under one code, one after
    another, in every interleaving: when a deadline of the stored room can be left without
    a timer, and when not. */
module TimerSafety {
  import opened Sequences
  import opened Text
  import opened Domain
  import opened RoomEvents
  import opened RoomInvariant
  import opened Deadlines
  import opened EarlyLife
  import RoomService
  import SampleRun

  /** A timer that went off and whose use case has not run yet. */
  datatype Handler = Handler(kind: Kind, subject: Id)

  /** A state of the room of one lifetime that somebody is still to publish. */
  datatype Flight = Flight(life: nat, room: Room)

  /** The stored room and the number of its lifetime, the timers of the code, the states to
      be published, the timers being handled, and the deletions whose rooms' timers are
      still to be forgotten. */
  datatype State = State(room: Option<Room>, life: nat, armed: Armed, inFlight: seq<Flight>, handlers: seq<Handler>, forgets: nat)

  /** `Republish` stands for a rejoin and for the sweep: both publish a room as they read it. */
  datatype Move =
    | Create(room: Room)
    | Update(event: Event)
    | Republish
    | Publication(index: nat)
    | GoesOff(kind: Kind)
    | Handled(index: nat, options: RoomService.StartOptions, draw: nat, battleId: Id)
    | Forgetting

  const NOTHING_ARMED := Armed(None, NOTHING_PENDING)

  function WithoutAt<T>(s: seq<T>, i: nat): (r: seq<T>)
    requires i < |s|
    ensures forall x :: x in s && x != s[i] ==> x in r
    ensures forall x :: x in r ==> x in s
  {
    assert forall x :: x in s && x != s[i] ==> x in s[..i] || x in s[i + 1..];
    s[..i] + s[i + 1..]
  }

  /** The update the use case behind a timer hands to the store. */
  function EventOf(h: Handler, options: RoomService.StartOptions, draw: nat, battleId: Id): Event {
    match h.kind
    case SongChallenge => ExpireChallenge(h.subject, options.now, draw)
    case SongChoose => AutoPickSong(h.subject, draw, options, battleId)
    case BattleEnd => FinishAtDeadline(h.subject, options.now)
  }

  /** A stored change is published, and a deletion forgets the timers, by whoever made it, later. */
  function UpdateStep(fold: Fold, s: State, e: Event): State {
    if s.room.None? then s
    else
      var n := Next(fold, s.room.value, e);
      match Mutate(fold, s.room.value, e)
      case Changed(_) => s.(room := n, inFlight := s.inFlight + (if n.Some? then [Flight(s.life, n.value)] else []))
      case Removed => s.(room := None, forgets := s.forgets + 1)
      case Unchanged => s
      case Refused(_) => s
  }

  /** A timer's use case runs on the stored room. When it finds nothing to do, the timers
      of a turn and of a battle are set again from the stored room. */
  function HandleStep(fold: Fold, s: State, i: nat, options: RoomService.StartOptions, draw: nat, battleId: Id): State
    requires i < |s.handlers|
  {
    var h, rest := s.handlers[i], s.(handlers := WithoutAt(s.handlers, i));
    var e := EventOf(h, options, draw, battleId);
    if s.room.Some? && Mutate(fold, s.room.value, e).Unchanged? && h.kind != SongChallenge
    then rest.(inFlight := s.inFlight + [Flight(s.life, s.room.value)])
    else UpdateStep(fold, rest, e)
  }

  function Take(fold: Fold, s: State, m: Move): State {
    match m
    case Create(room) => if s.room.None? then s.(room := Some(room), life := s.life + 1) else s
    case Update(e) => UpdateStep(fold, s, e)
    case Republish => if s.room.Some? then s.(inFlight := s.inFlight + [Flight(s.life, s.room.value)]) else s
    case Publication(i) =>
      if i < |s.inFlight| then
        s.(armed := Deadlines.Step(s.armed, Publish(s.inFlight[i].room)), inFlight := WithoutAt(s.inFlight, i))
      else s
    case GoesOff(kind) =>
      var timer := OfKind(s.armed.pending, kind);
      if timer.Some? then
        s.(armed := Deadlines.Step(s.armed, Fire(kind)), handlers := s.handlers + [Handler(kind, timer.value.subject)])
      else s
    case Handled(i, options, draw, battleId) =>
      if i < |s.handlers| then HandleStep(fold, s, i, options, draw, battleId) else s
    case Forgetting => if s.forgets > 0 then s.(armed := NOTHING_ARMED, forgets := s.forgets - 1) else s
  }

  function TakeAll(fold: Fold, s: State, moves: seq<Move>): State
    decreases |moves|
  {
    if moves == [] then s else TakeAll(fold, Take(fold, s, moves[0]), moves[1..])
  }

  /** Automatic picks get the timing the configuration loads, which is always sound, and a
      room is created as the service creates it. */
  ghost predicate Served(moves: seq<Move>) {
    forall k :: 0 <= k < |moves| ==>
      && (moves[k].Handled? ==> RoomService.SaneOptions(moves[k].options))
      && (moves[k].Create? ==> SampleRun.IsNew(moves[k].room))
  }

  // ----- the property -----

  /** A deadline has its timer, or the timer went off and is being handled, or the state it
      belongs to is still to be published. */
  ghost predicate Kept(s: State, kind: Kind)
    requires s.room.Some?
  {
    var deadline := OfKind(DeadlinesOf(s.room.value), kind);
    deadline.Some? ==>
      || OfKind(s.armed.pending, kind) == deadline
      || Flight(s.life, s.room.value) in s.inFlight
      || Handler(kind, deadline.value.subject) in s.handlers
  }

  ghost predicate NothingMissed(s: State) {
    s.room.Some? ==> forall kind :: Kept(s, kind)
  }

  /** What earlier rooms under the code may leave behind when a new one is created: no
      timers to be forgotten, no publication as high as a first deadline, and nothing armed
      that is higher. */
  ghost predicate Clean(s: State) {
    && s.forgets == 0
    && (forall f :: f in s.inFlight ==> f.room.version < FIRST_DEADLINE)
    && (s.armed.version.Some? ==> s.armed.version.value <= FIRST_DEADLINE)
  }

  // ----- the invariant of a lifetime that begins clean -----

  function Highest(version: nat): nat { if version > FIRST_DEADLINE then version else FIRST_DEADLINE }

  ghost predicate FlightInv(life: nat, room: Room, f: Flight) {
    && f.life <= life
    && (if f.life == life then f.room.version <= room.version && (f.room.version == room.version ==> f.room == room)
        else f.room.version < FIRST_DEADLINE)
  }

  ghost predicate CoveredKind(room: Room, pending: Pending, handlers: seq<Handler>, kind: Kind) {
    var deadline, timer := OfKind(DeadlinesOf(room), kind), OfKind(pending, kind);
    timer == deadline || (timer.None? && deadline.Some? && Handler(kind, deadline.value.subject) in handlers)
  }

  /** Once the stored state is published, each deadline is pending or being handled. */
  ghost predicate Covered(s: State)
    requires s.room.Some?
  {
    var room := s.room.value;
    room.version >= FIRST_DEADLINE && Flight(s.life, room) !in s.inFlight ==>
      s.armed.version == Some(room.version) && forall kind :: CoveredKind(room, s.armed.pending, s.handlers, kind)
  }

  ghost predicate Safe(fold: Fold, s: State) {
    && (s.room.None? ==> forall f :: f in s.inFlight ==> f.life <= s.life)
    && (s.room.Some? ==>
          var room := s.room.value;
          && Inv(fold, room) && (Early(room) || room.version >= FIRST_DEADLINE)
          && s.forgets == 0
          && (forall f :: f in s.inFlight ==> FlightInv(s.life, room, f))
          && (s.armed.version.Some? ==> s.armed.version.value <= Highest(room.version))
          && Covered(s))
  }

  lemma SafeMissesNothing(fold: Fold, s: State)
    requires Safe(fold, s)
    ensures NothingMissed(s)
  {
    if s.room.Some? {
      forall kind ensures Kept(s, kind) {
        assert CoveredKind(s.room.value, s.armed.pending, s.handlers, kind) || !CoveredKind(s.room.value, s.armed.pending, s.handlers, kind);
      }
    }
  }

  lemma ChangeIsSafe(fold: Fold, s: State, n: Room, handlers: seq<Handler>)
    requires Safe(fold, s) && s.room.Some? && n.version == s.room.value.version + 1
    requires Inv(fold, n) && (Early(n) || n.version >= FIRST_DEADLINE)
    ensures Safe(fold, s.(room := Some(n), inFlight := s.inFlight + [Flight(s.life, n)], handlers := handlers))
  {
  }

  lemma NextOfChange(fold: Fold, room: Room, e: Event)
    requires Inv(fold, room) && (Early(room) || room.version >= FIRST_DEADLINE) && Mutate(fold, room, e).Changed?
    ensures var n := Next(fold, room, e);
            && n.Some? && n.value.version == room.version + 1 && Inv(fold, n.value)
            && (Early(n.value) || n.value.version >= FIRST_DEADLINE)
  {
    NextKeeps(fold, room, e);
    EarlyStep(fold, room, e);
    NextCommits(fold, room, e);
  }

  lemma DeletionIsSafe(fold: Fold, s: State, handlers: seq<Handler>)
    requires Safe(fold, s) && s.room.Some?
    ensures Safe(fold, s.(room := None, forgets := s.forgets + 1, handlers := handlers))
  {
    forall f | f in s.inFlight ensures f.life <= s.life { assert FlightInv(s.life, s.room.value, f); }
  }

  lemma UpdateIsSafe(fold: Fold, s: State, e: Event)
    requires Safe(fold, s)
    ensures Safe(fold, UpdateStep(fold, s, e))
  {
    if s.room.Some? {
      var o := Mutate(fold, s.room.value, e);
      if o.Changed? {
        NextOfChange(fold, s.room.value, e);
        ChangeIsSafe(fold, s, Next(fold, s.room.value, e).value, s.handlers);
      } else if o.Removed? {
        DeletionIsSafe(fold, s, s.handlers);
      }
    }
  }

  lemma RepublishIsSafe(fold: Fold, s: State)
    requires Safe(fold, s) && s.room.Some?
    ensures Safe(fold, s.(inFlight := s.inFlight + [Flight(s.life, s.room.value)]))
  {
  }

  /** The stored state is published: from its first deadline on it is always accepted. */
  lemma CurrentIsPublished(fold: Fold, s: State, i: nat)
    requires Safe(fold, s) && s.room.Some? && i < |s.inFlight| && s.inFlight[i] == Flight(s.life, s.room.value)
    ensures Safe(fold, Take(fold, s, Publication(i)))
  {
    var n := Take(fold, s, Publication(i));
    if s.room.value.version >= FIRST_DEADLINE {
      assert n.armed == Armed(Some(s.room.value.version), DeadlinesOf(s.room.value));
    }
  }

  /** Any other state is published: then the one armed is newer, or the stored one is still to come. */
  lemma OlderIsPublished(fold: Fold, s: State, i: nat)
    requires Safe(fold, s) && s.room.Some? && i < |s.inFlight| && s.inFlight[i] != Flight(s.life, s.room.value)
    ensures Safe(fold, Take(fold, s, Publication(i)))
  {
    var n, room, f := Take(fold, s, Publication(i)), s.room.value, s.inFlight[i];
    assert FlightInv(s.life, room, f);
    assert Flight(s.life, room) in s.inFlight ==> Flight(s.life, room) in n.inFlight;
    if room.version >= FIRST_DEADLINE && Flight(s.life, room) !in n.inFlight {
      assert Flight(s.life, room) !in s.inFlight;
      assert f.room.version < room.version;
      assert n.armed == s.armed;
    }
  }

  lemma GoingOffIsSafe(fold: Fold, s: State, kind: Kind)
    requires Safe(fold, s)
    ensures Safe(fold, Take(fold, s, GoesOff(kind)))
  {
    var n := Take(fold, s, GoesOff(kind));
    if s.room.Some? && n != s {
      var room := s.room.value;
      if room.version >= FIRST_DEADLINE && Flight(s.life, room) !in s.inFlight {
        forall k ensures CoveredKind(room, n.armed.pending, n.handlers, k) {
          assert CoveredKind(room, s.armed.pending, s.handlers, k);
          if k == kind { assert Handler(kind, OfKind(s.armed.pending, kind).value.subject) in n.handlers; }
        }
      }
    }
  }

  /** The use case of a phrase's timer leaves the room alone only if the phrase it was set
      for is no longer typed, and those of the others only with a fresh look at the timers. */
  lemma HandlersCover(fold: Fold, room: Room, h: Handler, options: RoomService.StartOptions, draw: nat, battleId: Id)
    requires RoomService.SaneOptions(options)
    ensures var o := Mutate(fold, room, EventOf(h, options, draw, battleId));
            && !o.Refused? && !o.Removed?
            && (o.Unchanged? && h.kind == SongChallenge ==>
                  var deadline := OfKind(DeadlinesOf(room), SongChallenge);
                  deadline.None? || deadline.value.subject != h.subject)
  {
  }

  lemma ForgottenHandler(fold: Fold, s: State, i: nat)
    requires Safe(fold, s) && i < |s.handlers| && s.room.Some?
    requires var h := s.handlers[i];
             || Flight(s.life, s.room.value) in s.inFlight
             || OfKind(DeadlinesOf(s.room.value), h.kind).None?
             || OfKind(DeadlinesOf(s.room.value), h.kind).value.subject != h.subject
    ensures Safe(fold, s.(handlers := WithoutAt(s.handlers, i)))
  {
    var room, h := s.room.value, s.handlers[i];
    if room.version >= FIRST_DEADLINE && Flight(s.life, room) !in s.inFlight {
      forall kind ensures CoveredKind(room, s.armed.pending, WithoutAt(s.handlers, i), kind) {
        assert CoveredKind(room, s.armed.pending, s.handlers, kind);
      }
    }
  }

  lemma HandlingIsSafe(fold: Fold, s: State, i: nat, options: RoomService.StartOptions, draw: nat, battleId: Id)
    requires Safe(fold, s) && i < |s.handlers| && RoomService.SaneOptions(options)
    ensures Safe(fold, HandleStep(fold, s, i, options, draw, battleId))
  {
    if s.room.Some? {
      var room, h := s.room.value, s.handlers[i];
      var e := EventOf(h, options, draw, battleId);
      HandlersCover(fold, room, h, options, draw, battleId);
      if Mutate(fold, room, e).Changed? {
        NextOfChange(fold, room, e);
        ChangeIsSafe(fold, s, Next(fold, room, e).value, WithoutAt(s.handlers, i));
      } else if h.kind == SongChallenge {
        ForgottenHandler(fold, s, i);
      } else {
        RepublishIsSafe(fold, s);
        ForgottenHandler(fold, s.(inFlight := s.inFlight + [Flight(s.life, room)]), i);
      }
    }
  }

  lemma NewIsEarly(fold: Fold, room: Room)
    requires SampleRun.IsNew(room)
    ensures Early(room) && room.version == 0
  {
    assert room.players[1..] == [];
  }

  /** A room that begins clean is safe, and stays so. */
  lemma CreationIsSafe(fold: Fold, s: State, room: Room)
    requires Safe(fold, s) && s.room.None? && Clean(s) && SampleRun.IsNew(room) && Inv(fold, room)
    ensures Safe(fold, Take(fold, s, Create(room)))
  {
    NewIsEarly(fold, room);
    var n := Take(fold, s, Create(room));
    forall f | f in n.inFlight ensures FlightInv(n.life, room, f) {
    }
  }

  /** Every room is created when nothing is left of earlier ones, and is one the invariant allows. */
  ghost predicate Careful(fold: Fold, s: State, moves: seq<Move>)
    decreases |moves|
  {
    moves != [] ==>
      && (moves[0].Create? && s.room.None? ==> Clean(s) && Inv(fold, moves[0].room))
      && Careful(fold, Take(fold, s, moves[0]), moves[1..])
  }

  lemma MoveIsSafe(fold: Fold, s: State, m: Move)
    requires Safe(fold, s) && Served([m]) && (m.Create? && s.room.None? ==> Clean(s) && Inv(fold, m.room))
    ensures Safe(fold, Take(fold, s, m))
  {
    assert [m][0] == m;
    match m
    case Create(room) => if s.room.None? { CreationIsSafe(fold, s, room); }
    case Update(e) => UpdateIsSafe(fold, s, e);
    case Republish => if s.room.Some? { RepublishIsSafe(fold, s); }
    case Publication(i) =>
      if i < |s.inFlight| && s.room.Some? {
        if s.inFlight[i] == Flight(s.life, s.room.value) { CurrentIsPublished(fold, s, i); } else { OlderIsPublished(fold, s, i); }
      }
    case GoesOff(kind) => GoingOffIsSafe(fold, s, kind);
    case Handled(i, options, draw, battleId) => if i < |s.handlers| { HandlingIsSafe(fold, s, i, options, draw, battleId); }
    case Forgetting =>
  }

  /** Over any number of lifetimes under one code, in every interleaving, no deadline of the
      stored room is missed, if each room is created when nothing high is left of those before. */
  lemma {:induction false} EveryMoveIsSafe(fold: Fold, s: State, moves: seq<Move>)
    requires Safe(fold, s) && Served(moves) && Careful(fold, s, moves)
    ensures Safe(fold, TakeAll(fold, s, moves)) && NothingMissed(TakeAll(fold, s, moves))
    decreases |moves|
  {
    if moves == [] {
      SafeMissesNothing(fold, s);
    } else {
      assert Served([moves[0]]) && Served(moves[1..]);
      MoveIsSafe(fold, s, moves[0]);
      EveryMoveIsSafe(fold, Take(fold, s, moves[0]), moves[1..]);
    }
  }

  /** And whenever nothing is being published or handled, the timers pending are exactly the
      deadlines of the stored room, from the first version on that can have any. */
  lemma PendingAreTheDeadlines(fold: Fold, s: State)
    requires Safe(fold, s) && s.room.Some? && s.inFlight == [] && s.handlers == []
    ensures if s.room.value.version >= FIRST_DEADLINE then s.armed.pending == DeadlinesOf(s.room.value)
            else DeadlinesOf(s.room.value) == NOTHING_PENDING
  {
    if s.room.value.version >= FIRST_DEADLINE {
      forall kind ensures OfKind(s.armed.pending, kind) == OfKind(DeadlinesOf(s.room.value), kind) {
        assert CoveredKind(s.room.value, s.armed.pending, s.handlers, kind);
      }
      SamePending(s.armed.pending, DeadlinesOf(s.room.value));
    }
  }

  // ----- what a lifetime that does not begin clean comes to -----

  function DigitIds(n: nat): set<Id> { set k | 0 <= k < n :: Digits(k) }

  lemma {:induction false} ManyIds(n: nat)
    ensures |DigitIds(n)| == n
  {
    if n > 0 {
      ManyIds(n - 1);
      forall k | 0 <= k < n - 1 ensures Digits(k) != Digits(n - 1) {
        if Digits(k) == Digits(n - 1) { DigitsInjective(k, n - 1); }
      }
      assert DigitIds(n) == DigitIds(n - 1) + {Digits(n - 1)};
    } else {
      assert DigitIds(0) == {};
    }
  }

  /** There is always an id nobody used. */
  lemma FreshId(used: set<Id>) returns (id: Id)
    ensures id !in used
  {
    ManyIds(|used| + 1);
    if DigitIds(|used| + 1) <= used { SubsetSize(DigitIds(|used| + 1), used); }
    id :| id in DigitIds(|used| + 1) && id !in used;
  }

  function SubjectOf(timer: Option<Timer>): set<Id> {
    if timer.Some? then {timer.value.subject} else {}
  }

  /** The challenges anything left in a state is about. */
  function Subjects(s: State): set<Id> {
    SubjectOf(s.armed.pending.challenge)
    + (set h | h in s.handlers :: h.subject)
    + (set f, id | f in s.inFlight && id in SubjectOf(DeadlinesOf(f.room).challenge) :: id)
  }

  ghost predicate NoCreation(moves: seq<Move>) {
    forall k :: 0 <= k < |moves| ==> !moves[k].Create?
  }

  /** Some moves of one lifetime lead from one state to the other. */
  ghost predicate Leads(fold: Fold, s: State, t: State) {
    exists moves :: Served(moves) && NoCreation(moves) && TakeAll(fold, s, moves) == t
  }

  lemma LeadsToSame(fold: Fold, s: State)
    ensures Leads(fold, s, s)
  {
    assert TakeAll(fold, s, []) == s;
  }

  lemma {:induction false} TakeMore(fold: Fold, s: State, moves: seq<Move>, m: Move)
    ensures TakeAll(fold, s, moves + [m]) == Take(fold, TakeAll(fold, s, moves), m)
    decreases |moves|
  {
    if moves == [] {
      assert [] + [m] == [m];
      assert [m][1..] == [];
    } else {
      assert (moves + [m])[1..] == moves[1..] + [m];
      TakeMore(fold, Take(fold, s, moves[0]), moves[1..], m);
    }
  }

  lemma LeadsOn(fold: Fold, s: State, t: State, m: Move, u: State)
    requires Leads(fold, s, t) && !m.Create? && !m.Handled? && Take(fold, t, m) == u
    ensures Leads(fold, s, u)
  {
    var moves :| Served(moves) && NoCreation(moves) && TakeAll(fold, s, moves) == t;
    TakeMore(fold, s, moves, m);
    assert Served(moves + [m]) && NoCreation(moves + [m]);
  }

  /** The publications that updates of one lifetime leave to be made. */
  ghost predicate Follows(life: nat, before: Room, own: seq<Flight>, n: Room) {
    && before.version <= n.version
    && (forall k :: 0 <= k < |own| ==> own[k].life == life && own[k].room.version <= n.version)
    && (forall k :: 0 <= k < |own| - 1 ==> own[k].room.version < n.version)
    && (before.version < n.version ==> own != [] && own[|own| - 1] == Flight(life, n))
  }

  lemma FollowsOn(life: nat, before: Room, own: seq<Flight>, m: Room, n: Room)
    requires Follows(life, before, own, m) && n.version == m.version + 1
    ensures Follows(life, before, own + [Flight(life, n)], n)
  {
  }

  /** An update that changes the room leaves one publication more. */
  lemma UpdateTaken(fold: Fold, s: State, e: Event, n: Room)
    requires s.room.Some? && Next(fold, s.room.value, e) == Some(n) && n.version == s.room.value.version + 1
    ensures Take(fold, s, Update(e)) == s.(room := Some(n), inFlight := s.inFlight + [Flight(s.life, n)])
  {
    NextCommits(fold, s.room.value, e);
  }

  /** The state after the updates of one lifetime that lead to a room. */
  ghost predicate Arrives(fold: Fold, s: State, before: Room, own: seq<Flight>, n: Room) {
    && Follows(s.life, before, own, n)
    && Leads(fold, s, s.(room := Some(n), inFlight := s.inFlight + own))
  }

  lemma ArrivesOn(fold: Fold, s: State, before: Room, own: seq<Flight>, m: Room, e: Event, n: Room)
    requires Arrives(fold, s, before, own, m) && Next(fold, m, e) == Some(n) && n.version == m.version + 1
    ensures Arrives(fold, s, before, own + [Flight(s.life, n)], n)
  {
    var t := s.(room := Some(m), inFlight := s.inFlight + own);
    UpdateTaken(fold, t, e, n);
    assert s.inFlight + own + [Flight(s.life, n)] == s.inFlight + (own + [Flight(s.life, n)]);
    LeadsOn(fold, s, t, Update(e), s.(room := Some(n), inFlight := s.inFlight + (own + [Flight(s.life, n)])));
    FollowsOn(s.life, before, own, m, n);
  }

  /** The new room is at its first deadline, and its publication is the last to be made. */
  ghost predicate AtFirstDeadline(s: State, t: State, challengeId: Id) {
    && t.room.Some? && t.room.value.version == FIRST_DEADLINE
    && OfKind(DeadlinesOf(t.room.value), SongChallenge) == Some(Timer(10, challengeId))
    && t == s.(room := t.room, life := s.life + 1, inFlight := t.inFlight)
    && |t.inFlight| > |s.inFlight| && t.inFlight[..|s.inFlight|] == s.inFlight
    && t.inFlight[|t.inFlight| - 1] == Flight(t.life, t.room.value)
    && (forall k :: 0 <= k < |t.inFlight| - 1 ==> t.inFlight[k] != Flight(t.life, t.room.value))
  }

  lemma SplitLast(fold: Fold, before: Room, events: seq<Event>, n: Room) returns (m: Room)
    requires events != [] && Run(fold, before, events) == Some(n)
    ensures Run(fold, before, events[..|events| - 1]) == Some(m) && Next(fold, m, events[|events| - 1]) == Some(n)
  {
    RunOneMore(fold, before, events[..|events| - 1], events[|events| - 1]);
    assert events[..|events| - 1] + [events[|events| - 1]] == events;
    m := Run(fold, before, events[..|events| - 1]).value;
  }

  lemma OneMoreOrSame(fold: Fold, m: Room, e: Event, n: Room)
    requires Next(fold, m, e) == Some(n)
    ensures n == m || n.version == m.version + 1
  {
    NextCommits(fold, m, e);
  }

  lemma {:induction false} ArrivesBy(fold: Fold, s: State, before: Room, events: seq<Event>, n: Room) returns (own: seq<Flight>)
    requires s.room == Some(before) && Run(fold, before, events) == Some(n)
    ensures Arrives(fold, s, before, own, n)
    decreases |events|
  {
    own := [];
    if events == [] {
      assert s.(room := Some(n), inFlight := s.inFlight + []) == s;
      LeadsToSame(fold, s);
    } else {
      var e := events[|events| - 1];
      var m := SplitLast(fold, before, events, n);
      own := ArrivesBy(fold, s, before, events[..|events| - 1], m);
      OneMoreOrSame(fold, m, e, n);
      if n != m {
        ArrivesOn(fold, s, before, own, m, e, n);
        own := own + [Flight(s.life, n)];
      }
    }
  }

  lemma ReachesFirstDeadline(fold: Fold, s: State, room: Room, challengeId: Id) returns (t: State)
    requires s.room.None? && (forall f :: f in s.inFlight ==> f.life <= s.life) && SampleRun.IsNew(room)
    ensures Leads(fold, Take(fold, s, Create(room)), t) && AtFirstDeadline(s, t, challengeId)
  {
    var begun, n := Take(fold, s, Create(room)), SampleRun.Challenged(fold, room, challengeId);
    assert begun == s.(room := Some(room), life := s.life + 1);
    SampleRun.ReachesChallenge(fold, room, challengeId);
    var events: seq<Event> :| Run(fold, room, events) == Some(n);
    var own := ArrivesBy(fold, begun, room, events, n);
    t := begun.(room := Some(n), inFlight := s.inFlight + own);
    LastOfItsKind(s, room, n, own, challengeId);
  }

  lemma LastOfItsKind(s: State, before: Room, n: Room, own: seq<Flight>, challengeId: Id)
    requires (forall f :: f in s.inFlight ==> f.life <= s.life) && before.version < n.version == FIRST_DEADLINE
    requires Follows(s.life + 1, before, own, n)
    requires OfKind(DeadlinesOf(n), SongChallenge) == Some(Timer(10, challengeId))
    ensures AtFirstDeadline(s, s.(room := Some(n), life := s.life + 1, inFlight := s.inFlight + own), challengeId)
  {
    var all := s.inFlight + own;
    forall k | 0 <= k < |all| - 1 ensures all[k] != Flight(s.life + 1, n) {
      if k < |s.inFlight| {
        assert all[k] == s.inFlight[k] && s.inFlight[k] in s.inFlight;
      } else {
        assert all[k] == own[k - |s.inFlight|];
      }
    }
  }

  /** The publication of the first deadline has been made, or ignored. */
  function Published(t: State): State
    requires t.inFlight != []
  {
    t.(armed := Deadlines.Step(t.armed, Publish(t.inFlight[|t.inFlight| - 1].room)), inFlight := t.inFlight[..|t.inFlight| - 1])
  }

  lemma PublishesLast(fold: Fold, t: State)
    requires t.inFlight != []
    ensures Take(fold, t, Publication(|t.inFlight| - 1)) == Published(t)
  {
    assert t.inFlight[..|t.inFlight| - 1] + t.inFlight[|t.inFlight|..] == t.inFlight[..|t.inFlight| - 1];
  }

  /** Nothing pending, being handled or to be published is about the challenge. */
  lemma ChallengeMissed(s: State, t: State, u: State, challengeId: Id)
    requires AtFirstDeadline(s, t, challengeId) && challengeId !in Subjects(s)
    requires u.room == t.room && u.life == t.life && u.handlers == s.handlers
    requires forall f :: f in u.inFlight ==> f in t.inFlight[..|t.inFlight| - 1]
    requires challengeId !in SubjectOf(u.armed.pending.challenge)
    ensures !NothingMissed(u)
  {
    assert forall h :: h in s.handlers ==> h.subject in Subjects(s);
    assert !Kept(u, SongChallenge);
  }

  /** A higher version is armed: the publication is ignored. */
  lemma MissedBehindArmed(fold: Fold, s: State, t: State, challengeId: Id)
    requires AtFirstDeadline(s, t, challengeId) && challengeId !in Subjects(s)
    requires s.armed.version.Some? && s.armed.version.value > FIRST_DEADLINE
    ensures !NothingMissed(Take(fold, t, Publication(|t.inFlight| - 1)))
  {
    PublishesLast(fold, t);
    ChallengeMissed(s, t, Published(t), challengeId);
  }

  /** The deletion of an earlier room is still to forget the timers: it forgets those of the new one. */
  lemma MissedByForgetting(fold: Fold, s: State, t: State, challengeId: Id)
    requires AtFirstDeadline(s, t, challengeId) && challengeId !in Subjects(s) && s.forgets > 0
    ensures !NothingMissed(Take(fold, Take(fold, t, Publication(|t.inFlight| - 1)), Forgetting))
  {
    PublishesLast(fold, t);
    ChallengeMissed(s, t, Take(fold, Published(t), Forgetting), challengeId);
  }

  /** A state of an earlier room of at least that version is published afterwards: it takes over the timers. */
  lemma MissedBehindLate(fold: Fold, s: State, t: State, challengeId: Id, j: nat)
    requires AtFirstDeadline(s, t, challengeId) && challengeId !in Subjects(s)
    requires s.armed.version.Some? ==> s.armed.version.value <= FIRST_DEADLINE
    requires j < |s.inFlight| && s.inFlight[j].room.version >= FIRST_DEADLINE
    ensures !NothingMissed(Take(fold, Take(fold, t, Publication(|t.inFlight| - 1)), Publication(j)))
  {
    PublishesLast(fold, t);
    var f := s.inFlight[j];
    assert t.inFlight[..|s.inFlight|][j] == t.inFlight[j] == f;
    var u := Take(fold, Published(t), Publication(j));
    assert Published(t).inFlight[j] == f;
    assert u.armed == Armed(Some(f.room.version), DeadlinesOf(f.room));
    assert f in s.inFlight;
    assert SubjectOf(DeadlinesOf(f.room).challenge) <= Subjects(s);
    ChallengeMissed(s, t, u, challengeId);
  }

  /** From the first deadline on a move or two miss it. */
  lemma UncleanIsMissed(fold: Fold, s: State, begun: State, t: State, challengeId: Id) returns (u: State)
    requires Leads(fold, begun, t) && AtFirstDeadline(s, t, challengeId) && challengeId !in Subjects(s) && !Clean(s)
    ensures Leads(fold, begun, u) && !NothingMissed(u)
  {
    var publish := Publication(|t.inFlight| - 1);
    u := Take(fold, t, publish);
    LeadsOn(fold, begun, t, publish, u);
    if s.armed.version.Some? && s.armed.version.value > FIRST_DEADLINE {
      MissedBehindArmed(fold, s, t, challengeId);
    } else if s.forgets > 0 {
      MissedByForgetting(fold, s, t, challengeId);
      LeadsOn(fold, begun, u, Forgetting, Take(fold, u, Forgetting));
      u := Take(fold, u, Forgetting);
    } else {
      var f :| f in s.inFlight && f.room.version >= FIRST_DEADLINE;
      var j :| 0 <= j < |s.inFlight| && s.inFlight[j] == f;
      MissedBehindLate(fold, s, t, challengeId, j);
      LeadsOn(fold, begun, u, Publication(j), Take(fold, u, Publication(j)));
      u := Take(fold, u, Publication(j));
    }
  }

  lemma {:induction false} NoCreationIsCareful(fold: Fold, s: State, moves: seq<Move>)
    requires NoCreation(moves)
    ensures Careful(fold, s, moves)
    decreases |moves|
  {
    if moves != [] { NoCreationIsCareful(fold, Take(fold, s, moves[0]), moves[1..]); }
  }

  /** Nothing is missed in the lifetime of a room, whatever is done to it and in whatever
      order, if and only if it is created clean: no version above the sixth is armed under
      its code, no publication of the sixth or a later version of an earlier room is still
      to be made, and no deletion is still to forget the timers. */
  lemma NothingMissedExactlyWhenClean(fold: Fold, s: State, room: Room)
    requires Safe(fold, s) && s.room.None? && SampleRun.IsNew(room) && Inv(fold, room)
    ensures Clean(s) <==> forall t :: Leads(fold, Take(fold, s, Create(room)), t) ==> NothingMissed(t)
  {
    var begun := Take(fold, s, Create(room));
    if Clean(s) {
      CreationIsSafe(fold, s, room);
      forall t | Leads(fold, begun, t) ensures NothingMissed(t) {
        var moves :| Served(moves) && NoCreation(moves) && TakeAll(fold, begun, moves) == t;
        NoCreationIsCareful(fold, begun, moves);
        EveryMoveIsSafe(fold, begun, moves);
      }
    } else {
      var challengeId := FreshId(Subjects(s));
      var t := ReachesFirstDeadline(fold, s, room, challengeId);
      var u := UncleanIsMissed(fold, s, begun, t, challengeId);
    }
  }

  // ----- and a code that is used again -----

  const NOTHING_YET := State(None, 0, NOTHING_ARMED, [], [], 0)

  /** Some moves, of any number of lifetimes, lead from one state to the other. */
  ghost predicate Happens(fold: Fold, s: State, t: State) {
    exists moves :: Served(moves) && TakeAll(fold, s, moves) == t
  }

  lemma {:induction false} TakeBoth(fold: Fold, s: State, a: seq<Move>, b: seq<Move>)
    ensures TakeAll(fold, s, a + b) == TakeAll(fold, TakeAll(fold, s, a), b)
    decreases |a|
  {
    if a == [] {
      assert a + b == b;
    } else {
      assert (a + b)[0] == a[0] && (a + b)[1..] == a[1..] + b;
      TakeBoth(fold, Take(fold, s, a[0]), a[1..], b);
    }
  }

  lemma HappensThen(fold: Fold, s: State, t: State, u: State)
    requires Happens(fold, s, t) && Leads(fold, t, u)
    ensures Happens(fold, s, u)
  {
    var a :| Served(a) && TakeAll(fold, s, a) == t;
    var b :| Served(b) && NoCreation(b) && TakeAll(fold, t, b) == u;
    TakeBoth(fold, s, a, b);
    assert Served(a + b);
  }

  lemma HappensCreate(fold: Fold, s: State, t: State, room: Room)
    requires Happens(fold, s, t) && SampleRun.IsNew(room)
    ensures Happens(fold, s, Take(fold, t, Create(room)))
  {
    var a :| Served(a) && TakeAll(fold, s, a) == t;
    TakeMore(fold, s, a, Create(room));
    assert Served(a + [Create(room)]);
  }

  /** The host alone, ready, at some version. */
  function Alone(r: Room, version: nat): Room
    requires r.players != []
  {
    r.(players := [SampleRun.HostSeat(r, Undecided, version > 0)], version := version)
  }

  lemma ReadyOnceMore(fold: Fold, r: Room, version: nat)
    requires SampleRun.IsNew(r)
    ensures Next(fold, Alone(r, version), SetReady(r.hostId, true)) == Some(Alone(r, version + 1))
  {
    var room, seat := Alone(r, version), SampleRun.HostSeat(r, Undecided, true);
    assert Ids(room.players)[0] == r.hostId;
    assert [seat][1..] == [] && InRole([seat], Spectator) == [];
    var o := RoomService.SetReady(room, r.hostId, true);
    assert o.Changed? && o.room.players == [seat];
  }

  lemma {:induction false} StaysAlone(fold: Fold, r: Room, version: nat)
    requires SampleRun.IsNew(r)
    ensures SampleRun.LeadsTo(fold, r, Alone(r, version))
  {
    if version == 0 {
      assert Alone(r, 0) == r;
      SampleRun.LeadsToItself(fold, r);
    } else {
      StaysAlone(fold, r, version - 1);
      ReadyOnceMore(fold, r, version - 1);
      SampleRun.LeadsOn(fold, r, Alone(r, version - 1), SetReady(r.hostId, true), Alone(r, version));
    }
  }

  /** The room is deleted and its timers are forgotten, and a publication of its seventh
      version comes only afterwards. */
  lemma LatePublication(fold: Fold, s: State, r: Room, own: seq<Flight>)
    requires SampleRun.IsNew(r) && s.room == Some(Alone(r, 7)) && s.forgets == 0
    requires own != [] && s.inFlight == own && own[|own| - 1].room == Alone(r, 7)
    ensures var deleted := Take(fold, s, Update(Leave(r.hostId, 0, 0)));
            var forgotten := Take(fold, deleted, Forgetting);
            var late := Take(fold, forgotten, Publication(|own| - 1));
            late.room.None? && late.forgets == 0 && late.armed.version == Some(7) && late.life == s.life
  {
    SampleRun.HostLeaves(fold, Alone(r, 7));
  }

  lemma LateIsArmed(fold: Fold, r: Room) returns (late: State)
    requires SampleRun.IsNew(r)
    ensures Leads(fold, Take(fold, NOTHING_YET, Create(r)), late)
    ensures late.room.None? && late.forgets == 0 && late.armed.version == Some(7)
  {
    var begun := Take(fold, NOTHING_YET, Create(r));
    assert begun == State(Some(r), 1, NOTHING_ARMED, [], [], 0);
    StaysAlone(fold, r, 7);
    var events: seq<Event> :| Run(fold, r, events) == Some(Alone(r, 7));
    var own := ArrivesBy(fold, begun, r, events, Alone(r, 7));
    var s := begun.(room := Some(Alone(r, 7)), inFlight := [] + own);
    assert [] + own == own;
    LatePublication(fold, s, r, own);
    var deleted := Take(fold, s, Update(Leave(r.hostId, 0, 0)));
    var forgotten := Take(fold, deleted, Forgetting);
    late := Take(fold, forgotten, Publication(|own| - 1));
    LeadsOn(fold, begun, s, Update(Leave(r.hostId, 0, 0)), deleted);
    LeadsOn(fold, begun, deleted, Forgetting, forgotten);
    LeadsOn(fold, begun, forgotten, Publication(|own| - 1), late);
  }

  /** From nothing at all, with the rooms and updates of the service: a room is created,
      changed, deleted and forgotten, one of its publications comes late, a room is created
      again under the same code, and one of its deadlines is left without a timer. */
  lemma ReusedCodeCanMissADeadline(fold: Fold, r: Room)
    requires SampleRun.IsNew(r) && Inv(fold, r)
    ensures exists u :: Happens(fold, NOTHING_YET, u) && !NothingMissed(u)
  {
    assert TakeAll(fold, NOTHING_YET, []) == NOTHING_YET && Served([]);
    assert Happens(fold, NOTHING_YET, NOTHING_YET);
    HappensCreate(fold, NOTHING_YET, NOTHING_YET, r);
    var begun := Take(fold, NOTHING_YET, Create(r));
    var late := LateIsArmed(fold, r);
    HappensThen(fold, NOTHING_YET, begun, late);
    HappensCreate(fold, NOTHING_YET, late, r);
    LeadsIsSafe(fold, begun, late, r);
    NothingMissedExactlyWhenClean(fold, late, r);
    var u :| Leads(fold, Take(fold, late, Create(r)), u) && !NothingMissed(u);
    HappensThen(fold, NOTHING_YET, Take(fold, late, Create(r)), u);
  }

  lemma LeadsIsSafe(fold: Fold, begun: State, late: State, r: Room)
    requires SampleRun.IsNew(r) && Inv(fold, r) && begun == Take(fold, NOTHING_YET, Create(r)) && Leads(fold, begun, late)
    ensures Safe(fold, late)
  {
    CreationIsSafe(fold, NOTHING_YET, r);
    var moves :| Served(moves) && NoCreation(moves) && TakeAll(fold, begun, moves) == late;
    NoCreationIsCareful(fold, begun, moves);
    EveryMoveIsSafe(fold, begun, moves);
  }

  // ----- what timers achieve -----

  lemma EndTimerGoesOff(fold: Fold, s: State)
    requires s.armed.pending.end.Some? && s.handlers == []
    ensures Take(fold, s, GoesOff(BattleEnd))
         == s.(armed := Deadlines.Step(s.armed, Fire(BattleEnd)), handlers := [Handler(BattleEnd, s.armed.pending.end.value.subject)])
  {
    assert [] + [Handler(BattleEnd, s.armed.pending.end.value.subject)] == [Handler(BattleEnd, s.armed.pending.end.value.subject)];
  }

  lemma EndIsHandled(fold: Fold, s: State, room: Room, options: RoomService.StartOptions, draw: nat, battleId: Id)
    requires s.room == Some(room) && room.status == Battling && room.battle.Some?
    requires s.handlers == [Handler(BattleEnd, room.battle.value.id)]
    ensures var n := Take(fold, s, Handled(0, options, draw, battleId));
            if options.now >= room.battle.value.endsAt then n.room.Some? && n.room.value.status == Finished
            else n.room == s.room && n.inFlight == s.inFlight + [Flight(s.life, room)]
  {
  }

  /** The end timer of a running battle: handled in time it finishes the battle, and handled
      before its moment it leaves the room as it is and has it published again. */
  lemma EndTimerIsHandled(fold: Fold, s: State, room: Room, options: RoomService.StartOptions, draw: nat, battleId: Id)
    requires s.room == Some(room) && Inv(fold, room) && room.status == Battling && s.handlers == []
    requires s.armed.pending == DeadlinesOf(room)
    ensures var n := Take(fold, Take(fold, s, GoesOff(BattleEnd)), Handled(0, options, draw, battleId));
            && room.battle.Some?
            && if options.now >= room.battle.value.endsAt then n.room.Some? && n.room.value.status == Finished
               else n.room == s.room && Flight(s.life, room) in n.inFlight
  {
    assert SeatsInv(room);
    EndTimerGoesOff(fold, s);
    EndIsHandled(fold, Take(fold, s, GoesOff(BattleEnd)), room, options, draw, battleId);
  }
}
