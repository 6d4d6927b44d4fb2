/** Any number of clients that read, decide, compare and set, and retry, in every
    interleaving of their steps: together they do what the atomic store does. */
module OptimisticUpdates {
  import opened Sequences
  import opened Domain
  import opened RoomStore

  // ----- the protocol -----

  /** Where a client is in its update; attempts are counted from 1. A client that replied
      remembers the row its last decision was taken on. */
  datatype Client =
    | Reading(attempt: nat)
    | Writing(attempt: nat, seen: Room)
    | Replied(attempt: nat, saw: Option<Room>, reply: Reply)

  /** What took effect: an insertion, or the one moment a client's update happened. */
  datatype Entry = Inserted(room: Room) | Ran(client: nat, attempt: nat)

  datatype State = State(row: Option<Room>, clients: seq<Client>, conflicts: nat, log: seq<Entry>)

  datatype Action = Read(client: nat) | Write(client: nat) | Insert(room: Room)

  predicate Writes(o: Outcome) { o.Changed? || o.Removed? }

  function Start(row: Option<Room>, clients: nat): State {
    State(row, seq(clients, _ => Reading(1)), 0, [])
  }

  function ReadStep(mutations: seq<Decider>, s: State, i: nat): State
    requires i < |s.clients| == |mutations| && s.clients[i].Reading?
  {
    var attempt := s.clients[i].attempt;
    if s.row.Some? && Writes(mutations[i](attempt)(s.row.value))
    then s.(clients := s.clients[i := Writing(attempt, s.row.value)])
    else s.(clients := s.clients[i := Replied(attempt, s.row, Atomic(s.row, mutations[i](attempt)).1)],
              log := s.log + [Ran(i, attempt)])
  }

  function WriteStep(mutations: seq<Decider>, maxAttempts: nat, s: State, i: nat): State
    requires i < |s.clients| == |mutations| && s.clients[i].Writing?
  {
    var Writing(attempt, seen) := s.clients[i];
    if s.row.Some? && s.row.value.version == seen.version then
      var o := mutations[i](attempt)(seen);
      if o.Changed? then
        var stored := o.room.(version := seen.version + 1);
        s.(row := Some(stored), clients := s.clients[i := Replied(attempt, Some(seen), Stored(stored))],
           log := s.log + [Ran(i, attempt)])
      else
        s.(row := None, clients := s.clients[i := Replied(attempt, Some(seen), Deleted)], log := s.log + [Ran(i, attempt)])
    else
      s.(clients := s.clients[i := if attempt >= maxAttempts then Replied(attempt, Some(seen), GaveUp) else Reading(attempt + 1)],
         conflicts := s.conflicts + 1)
  }

  /** One step of one client; a step that is not its turn changes nothing. */
  function Step(mutations: seq<Decider>, maxAttempts: nat, s: State, a: Action): State
    requires |s.clients| == |mutations|
  {
    match a
    case Read(i) => if i < |s.clients| && s.clients[i].Reading? then ReadStep(mutations, s, i) else s
    case Write(i) => if i < |s.clients| && s.clients[i].Writing? then WriteStep(mutations, maxAttempts, s, i) else s
    case Insert(room) => if s.row.None? then s.(row := Some(room), log := s.log + [Inserted(room)]) else s
  }

  function Perform(mutations: seq<Decider>, maxAttempts: nat, s: State, actions: seq<Action>): (r: State)
    requires |s.clients| == |mutations|
    ensures |r.clients| == |mutations|
    decreases |actions|
  {
    if actions == [] then s
    else Perform(mutations, maxAttempts, Step(mutations, maxAttempts, s, actions[0]), actions[1..])
  }

  /** No update of the room is between its read and its write. */
  ghost predicate Quiet(s: State) {
    forall i :: 0 <= i < |s.clients| ==> !s.clients[i].Writing?
  }

  /** A deleted room is inserted again only while no update of it is under way. */
  ghost predicate Orderly(mutations: seq<Decider>, maxAttempts: nat, s: State, actions: seq<Action>)
    requires |s.clients| == |mutations|
    decreases |actions|
  {
    actions != [] ==>
      && (actions[0].Insert? && s.row.None? ==> Quiet(s))
      && Orderly(mutations, maxAttempts, Step(mutations, maxAttempts, s, actions[0]), actions[1..])
  }

  // ----- the atomic store, run in the order of the log -----

  datatype Serial = Serial(row: Option<Room>, replies: map<nat, Reply>)

  function ReplayEntry(mutations: seq<Decider>, before: Serial, entry: Entry): Serial {
    match entry
    case Inserted(room) => if before.row.None? then before.(row := Some(room)) else before
    case Ran(i, attempt) =>
      if i < |mutations| then
        var (row, reply) := Atomic(before.row, mutations[i](attempt));
        Serial(row, before.replies[i := reply])
      else before
  }

  function Replay(mutations: seq<Decider>, row: Option<Room>, log: seq<Entry>): Serial {
    if log == [] then Serial(row, map[])
    else ReplayEntry(mutations, Replay(mutations, row, log[..|log| - 1]), log[|log| - 1])
  }

  /** The state is what the atomic store makes of the log: the same row, and to every
      client that took effect the same reply. A client that gave up took no effect. */
  ghost predicate Serializable(mutations: seq<Decider>, initial: Option<Room>, s: State)
    requires |s.clients| == |mutations|
  {
    var serial := Replay(mutations, initial, s.log);
    && s.row == serial.row
    && (forall i :: i in serial.replies ==>
          i < |s.clients| && s.clients[i].Replied? && s.clients[i].reply == serial.replies[i])
    && (forall i :: 0 <= i < |s.clients| && s.clients[i].Replied? && s.clients[i].reply != GaveUp ==> i in serial.replies)
  }

  /** What a client about to write decided on is still stored, or something newer is, or nothing. */
  ghost predicate WritersLookAhead(mutations: seq<Decider>, s: State)
    requires |s.clients| == |mutations|
  {
    forall i :: 0 <= i < |s.clients| && s.clients[i].Writing? ==>
      Writes(mutations[i](s.clients[i].attempt)(s.clients[i].seen)) && SeenOrNewer(s.clients[i].seen, s.row)
  }

  /** No client takes effect twice. */
  ghost predicate OnceEach(s: State) {
    && (forall k :: 0 <= k < |s.log| && s.log[k].Ran? ==>
          s.log[k].client < |s.clients| && s.clients[s.log[k].client].Replied?)
    && (forall j, k :: 0 <= j < k < |s.log| && s.log[j].Ran? && s.log[k].Ran? ==> s.log[j].client != s.log[k].client)
  }

  ghost predicate ProtocolInv(mutations: seq<Decider>, initial: Option<Room>, s: State)
    requires |s.clients| == |mutations|
  {
    Serializable(mutations, initial, s) && WritersLookAhead(mutations, s) && OnceEach(s)
  }

  lemma ReplayOneMore(mutations: seq<Decider>, row: Option<Room>, log: seq<Entry>, entry: Entry)
    ensures Replay(mutations, row, log + [entry]) == ReplayEntry(mutations, Replay(mutations, row, log), entry)
  {
    assert (log + [entry])[..|log|] == log;
  }

  /** A write that succeeds was decided on exactly the room it replaces. */
  lemma CommitsAreExact(mutations: seq<Decider>, initial: Option<Room>, s: State, i: nat)
    requires |s.clients| == |mutations| && ProtocolInv(mutations, initial, s)
    requires i < |s.clients| && s.clients[i].Writing?
    requires s.row.Some? && s.row.value.version == s.clients[i].seen.version
    ensures s.row.value == s.clients[i].seen
  {
  }

  lemma AppendOnce(s: State, n: State, i: nat)
    requires OnceEach(s) && i < |s.clients| && !s.clients[i].Replied?
    requires n.log == s.log + [Ran(i, s.clients[i].attempt)] && |n.clients| == |s.clients| && n.clients == s.clients[i := n.clients[i]] && n.clients[i].Replied?
    ensures OnceEach(n)
  {
  }

  /** An update that takes effect as the atomic store would lets the log grow by it. */
  lemma TakesEffect(mutations: seq<Decider>, initial: Option<Room>, s: State, n: State, i: nat)
    requires |s.clients| == |mutations| == |n.clients| && Serializable(mutations, initial, s)
    requires i < |s.clients| && !s.clients[i].Replied?
    requires n.log == s.log + [Ran(i, s.clients[i].attempt)] && n.clients == s.clients[i := n.clients[i]] && n.clients[i].Replied?
    requires (n.row, n.clients[i].reply) == Atomic(s.row, mutations[i](s.clients[i].attempt))
    ensures Serializable(mutations, initial, n)
  {
    ReplayOneMore(mutations, initial, s.log, Ran(i, s.clients[i].attempt));
    var before, after := Replay(mutations, initial, s.log), Replay(mutations, initial, n.log);
    assert after == Serial(n.row, before.replies[i := n.clients[i].reply]);
  }

  /** A client that goes on without taking effect leaves the log as it is. */
  lemma GoesOn(mutations: seq<Decider>, initial: Option<Room>, s: State, n: State, i: nat)
    requires |s.clients| == |mutations| == |n.clients| && Serializable(mutations, initial, s) && OnceEach(s)
    requires i < |s.clients| && !s.clients[i].Replied?
    requires n.log == s.log && n.row == s.row && n.clients == s.clients[i := n.clients[i]]
    requires n.clients[i].Replied? ==> n.clients[i].reply == GaveUp
    ensures Serializable(mutations, initial, n) && OnceEach(n)
  {
  }

  lemma ReadKeeps(mutations: seq<Decider>, initial: Option<Room>, s: State, i: nat)
    requires |s.clients| == |mutations| && ProtocolInv(mutations, initial, s)
    requires i < |s.clients| && s.clients[i].Reading?
    ensures ProtocolInv(mutations, initial, ReadStep(mutations, s, i))
  {
    var n := ReadStep(mutations, s, i);
    if n.clients[i].Replied? {
      TakesEffect(mutations, initial, s, n, i);
      AppendOnce(s, n, i);
    } else {
      GoesOn(mutations, initial, s, n, i);
    }
  }

  lemma WriteKeeps(mutations: seq<Decider>, maxAttempts: nat, initial: Option<Room>, s: State, i: nat)
    requires |s.clients| == |mutations| && ProtocolInv(mutations, initial, s)
    requires i < |s.clients| && s.clients[i].Writing?
    ensures ProtocolInv(mutations, initial, WriteStep(mutations, maxAttempts, s, i))
  {
    var n := WriteStep(mutations, maxAttempts, s, i);
    if s.row.Some? && s.row.value.version == s.clients[i].seen.version {
      CommitsAreExact(mutations, initial, s, i);
      TakesEffect(mutations, initial, s, n, i);
      AppendOnce(s, n, i);
    } else {
      GoesOn(mutations, initial, s, n, i);
    }
  }

  lemma InsertKeeps(mutations: seq<Decider>, initial: Option<Room>, s: State, room: Room)
    requires |s.clients| == |mutations| && ProtocolInv(mutations, initial, s) && s.row.None? && Quiet(s)
    ensures ProtocolInv(mutations, initial, s.(row := Some(room), log := s.log + [Inserted(room)]))
  {
    ReplayOneMore(mutations, initial, s.log, Inserted(room));
  }

  /** Optimistic updates are serializable: in every interleaving the store and all
      replies are those of the atomic store serving the clients one at a time, in the
      order in which their updates took effect. */
  lemma {:induction false} UpdatesAreSerializable(mutations: seq<Decider>, maxAttempts: nat, initial: Option<Room>, s: State,
                                                  actions: seq<Action>)
    requires |s.clients| == |mutations| && ProtocolInv(mutations, initial, s)
    requires Orderly(mutations, maxAttempts, s, actions)
    ensures ProtocolInv(mutations, initial, Perform(mutations, maxAttempts, s, actions))
    decreases |actions|
  {
    if actions != [] {
      var a := actions[0];
      if a.Read? && a.client < |s.clients| && s.clients[a.client].Reading? {
        ReadKeeps(mutations, initial, s, a.client);
      } else if a.Write? && a.client < |s.clients| && s.clients[a.client].Writing? {
        WriteKeeps(mutations, maxAttempts, initial, s, a.client);
      } else if a.Insert? && s.row.None? {
        InsertKeeps(mutations, initial, s, a.room);
      }
      UpdatesAreSerializable(mutations, maxAttempts, initial, Step(mutations, maxAttempts, s, a), actions[1..]);
    }
  }

  lemma StartIsSerializable(mutations: seq<Decider>, initial: Option<Room>)
    ensures ProtocolInv(mutations, initial, Start(initial, |mutations|))
  {
  }

  // ----- what a client saw -----

  /** A client that took effect took its last decision on the very row the update replaced. */
  ghost predicate SawServed(mutations: seq<Decider>, initial: Option<Room>, s: State)
    requires |s.clients| == |mutations|
  {
    forall k :: 0 <= k < |s.log| && s.log[k].Ran? ==>
      && s.log[k].client < |s.clients| && s.clients[s.log[k].client].Replied?
      && s.clients[s.log[k].client].saw == Replay(mutations, initial, s.log[..k]).row
  }

  lemma SawOneMore(mutations: seq<Decider>, initial: Option<Room>, s: State, n: State, i: nat, attempt: nat)
    requires |s.clients| == |mutations| == |n.clients| && SawServed(mutations, initial, s) && Serializable(mutations, initial, s)
    requires i < |s.clients| && !s.clients[i].Replied? && n.clients == s.clients[i := n.clients[i]]
    requires n.clients[i].Replied? && n.clients[i].saw == s.row && n.log == s.log + [Ran(i, attempt)]
    ensures SawServed(mutations, initial, n)
  {
    forall k | 0 <= k < |n.log| && n.log[k].Ran?
      ensures n.log[k].client < |n.clients| && n.clients[n.log[k].client].Replied?
              && n.clients[n.log[k].client].saw == Replay(mutations, initial, n.log[..k]).row
    {
      if k < |s.log| {
        assert n.log[k] == s.log[k] && n.log[..k] == s.log[..k];
      } else {
        assert n.log[..k] == s.log;
      }
    }
  }

  lemma SawInsert(mutations: seq<Decider>, initial: Option<Room>, s: State, room: Room)
    requires |s.clients| == |mutations| && SawServed(mutations, initial, s)
    ensures SawServed(mutations, initial, s.(row := Some(room), log := s.log + [Inserted(room)]))
  {
    var n := s.(row := Some(room), log := s.log + [Inserted(room)]);
    forall k | 0 <= k < |n.log| && n.log[k].Ran?
      ensures n.log[k].client < |n.clients| && n.clients[n.log[k].client].Replied?
              && n.clients[n.log[k].client].saw == Replay(mutations, initial, n.log[..k]).row
    {
      assert n.log[k] == s.log[k] && n.log[..k] == s.log[..k];
    }
  }

  lemma SawStep(mutations: seq<Decider>, maxAttempts: nat, initial: Option<Room>, s: State, a: Action)
    requires |s.clients| == |mutations| && ProtocolInv(mutations, initial, s) && SawServed(mutations, initial, s)
    ensures SawServed(mutations, initial, Step(mutations, maxAttempts, s, a))
  {
    var n := Step(mutations, maxAttempts, s, a);
    if a.Read? && a.client < |s.clients| && s.clients[a.client].Reading? {
      if n.clients[a.client].Replied? { SawOneMore(mutations, initial, s, n, a.client, s.clients[a.client].attempt); }
    } else if a.Write? && a.client < |s.clients| && s.clients[a.client].Writing? {
      if s.row.Some? && s.row.value.version == s.clients[a.client].seen.version {
        CommitsAreExact(mutations, initial, s, a.client);
        SawOneMore(mutations, initial, s, n, a.client, s.clients[a.client].attempt);
      }
    } else if a.Insert? && s.row.None? {
      SawInsert(mutations, initial, s, a.room);
    }
  }

  lemma {:induction false} RunsSawWhatTheyServed(mutations: seq<Decider>, maxAttempts: nat, initial: Option<Room>, s: State, actions: seq<Action>)
    requires |s.clients| == |mutations| && ProtocolInv(mutations, initial, s) && SawServed(mutations, initial, s)
    requires Orderly(mutations, maxAttempts, s, actions)
    ensures SawServed(mutations, initial, Perform(mutations, maxAttempts, s, actions))
    decreases |actions|
  {
    if actions != [] {
      SawStep(mutations, maxAttempts, initial, s, actions[0]);
      UpdatesAreSerializable(mutations, maxAttempts, initial, s, [actions[0]]);
      PerformFirst(mutations, maxAttempts, s, actions[0], []);
      assert [actions[0]] + [] == [actions[0]];
      assert [actions[0]][1..] == [];
      RunsSawWhatTheyServed(mutations, maxAttempts, initial, Step(mutations, maxAttempts, s, actions[0]), actions[1..]);
    }
  }

  // ----- and exactly when not -----

  /** A write of a client is honest when it does to the stored row what its decision would
      do there. Only one that the version check lets through although the row is not the
      one that was read can fail to be: the code was used again in between. */
  predicate HonestWrite(mutations: seq<Decider>, s: State, i: nat)
    requires i < |s.clients| == |mutations| && s.clients[i].Writing?
  {
    var Writing(attempt, seen) := s.clients[i];
    s.row.Some? && s.row.value.version == seen.version ==>
      Atomic(s.row, mutations[i](attempt)) == Atomic(Some(seen), mutations[i](attempt))
  }

  /** What holds of a state as long as every write was honest. */
  ghost predicate HonestInv(mutations: seq<Decider>, initial: Option<Room>, s: State)
    requires |s.clients| == |mutations|
  {
    && Serializable(mutations, initial, s) && OnceEach(s)
    && (forall i :: 0 <= i < |s.clients| && s.clients[i].Writing? ==>
          Writes(mutations[i](s.clients[i].attempt)(s.clients[i].seen)))
  }

  lemma WriteIsTheDecision(mutations: seq<Decider>, maxAttempts: nat, s: State, i: nat)
    requires i < |s.clients| == |mutations| && s.clients[i].Writing?
    requires Writes(mutations[i](s.clients[i].attempt)(s.clients[i].seen))
    requires s.row.Some? && s.row.value.version == s.clients[i].seen.version
    ensures var n := WriteStep(mutations, maxAttempts, s, i);
            && n.clients == s.clients[i := n.clients[i]] && n.clients[i].Replied? && n.log == s.log + [Ran(i, s.clients[i].attempt)]
            && (n.row, n.clients[i].reply) == Atomic(Some(s.clients[i].seen), mutations[i](s.clients[i].attempt))
  {
  }

  /** In any state of any run, reused codes and all: a write keeps the store serializable if
      and only if it is honest. */
  lemma WriteSerializableExactlyWhenHonest(mutations: seq<Decider>, maxAttempts: nat, initial: Option<Room>, s: State, i: nat)
    requires |s.clients| == |mutations| && HonestInv(mutations, initial, s)
    requires i < |s.clients| && s.clients[i].Writing?
    ensures Serializable(mutations, initial, WriteStep(mutations, maxAttempts, s, i)) <==> HonestWrite(mutations, s, i)
    ensures HonestWrite(mutations, s, i) ==> HonestInv(mutations, initial, WriteStep(mutations, maxAttempts, s, i))
  {
    var n, attempt := WriteStep(mutations, maxAttempts, s, i), s.clients[i].attempt;
    if s.row.Some? && s.row.value.version == s.clients[i].seen.version {
      WriteIsTheDecision(mutations, maxAttempts, s, i);
      ReplayOneMore(mutations, initial, s.log, Ran(i, attempt));
      if HonestWrite(mutations, s, i) {
        TakesEffect(mutations, initial, s, n, i);
        AppendOnce(s, n, i);
      } else {
        assert Replay(mutations, initial, n.log).replies[i] == Atomic(s.row, mutations[i](attempt)).1;
      }
    } else {
      GoesOn(mutations, initial, s, n, i);
    }
  }

  lemma ReadIsHonest(mutations: seq<Decider>, initial: Option<Room>, s: State, i: nat)
    requires |s.clients| == |mutations| && HonestInv(mutations, initial, s) && i < |s.clients| && s.clients[i].Reading?
    ensures HonestInv(mutations, initial, ReadStep(mutations, s, i))
  {
    var n := ReadStep(mutations, s, i);
    if n.clients[i].Replied? {
      TakesEffect(mutations, initial, s, n, i);
      AppendOnce(s, n, i);
    } else {
      GoesOn(mutations, initial, s, n, i);
    }
  }

  lemma InsertIsHonest(mutations: seq<Decider>, initial: Option<Room>, s: State, room: Room)
    requires |s.clients| == |mutations| && HonestInv(mutations, initial, s) && s.row.None?
    ensures HonestInv(mutations, initial, s.(row := Some(room), log := s.log + [Inserted(room)]))
  {
    ReplayOneMore(mutations, initial, s.log, Inserted(room));
  }

  /** Every write of a run is honest. */
  ghost predicate Honest(mutations: seq<Decider>, maxAttempts: nat, s: State, actions: seq<Action>)
    requires |s.clients| == |mutations|
    decreases |actions|
  {
    actions != [] ==>
      && (actions[0].Write? && actions[0].client < |s.clients| && s.clients[actions[0].client].Writing? ==>
            HonestWrite(mutations, s, actions[0].client))
      && Honest(mutations, maxAttempts, Step(mutations, maxAttempts, s, actions[0]), actions[1..])
  }

  /** The store is serializable after each step of a run. */
  ghost predicate AlwaysSerializable(mutations: seq<Decider>, maxAttempts: nat, initial: Option<Room>, s: State, actions: seq<Action>)
    requires |s.clients| == |mutations|
    decreases |actions|
  {
    && Serializable(mutations, initial, s)
    && (actions != [] ==>
          AlwaysSerializable(mutations, maxAttempts, initial, Step(mutations, maxAttempts, s, actions[0]), actions[1..]))
  }

  lemma StepSerializableExactlyWhenHonest(mutations: seq<Decider>, maxAttempts: nat, initial: Option<Room>, s: State, a: Action)
    requires |s.clients| == |mutations| && HonestInv(mutations, initial, s)
    ensures var honest := a.Write? && a.client < |s.clients| && s.clients[a.client].Writing? ==> HonestWrite(mutations, s, a.client);
            && (Serializable(mutations, initial, Step(mutations, maxAttempts, s, a)) <==> honest)
            && (honest ==> HonestInv(mutations, initial, Step(mutations, maxAttempts, s, a)))
  {
    if a.Read? && a.client < |s.clients| && s.clients[a.client].Reading? {
      ReadIsHonest(mutations, initial, s, a.client);
    } else if a.Write? && a.client < |s.clients| && s.clients[a.client].Writing? {
      WriteSerializableExactlyWhenHonest(mutations, maxAttempts, initial, s, a.client);
    } else if a.Insert? && s.row.None? {
      InsertIsHonest(mutations, initial, s, a.room);
    }
  }

  /** Over every run, with rooms deleted and inserted again whenever: the store stays
      serializable throughout if and only if every write is honest. */
  lemma {:induction false} SerializableExactlyWhenHonest(mutations: seq<Decider>, maxAttempts: nat, initial: Option<Room>, s: State,
                                                         actions: seq<Action>)
    requires |s.clients| == |mutations| && HonestInv(mutations, initial, s)
    ensures AlwaysSerializable(mutations, maxAttempts, initial, s, actions) <==> Honest(mutations, maxAttempts, s, actions)
    decreases |actions|
  {
    if actions != [] {
      var a, n := actions[0], Step(mutations, maxAttempts, s, actions[0]);
      StepSerializableExactlyWhenHonest(mutations, maxAttempts, initial, s, a);
      if HonestInv(mutations, initial, n) {
        SerializableExactlyWhenHonest(mutations, maxAttempts, initial, n, actions[1..]);
      }
    }
  }

  /** As long as no code is used again under way, every write is honest. */
  lemma {:induction false} OrderlyIsHonest(mutations: seq<Decider>, maxAttempts: nat, initial: Option<Room>, s: State, actions: seq<Action>)
    requires |s.clients| == |mutations| && ProtocolInv(mutations, initial, s) && Orderly(mutations, maxAttempts, s, actions)
    ensures Honest(mutations, maxAttempts, s, actions)
    decreases |actions|
  {
    if actions != [] {
      var a := actions[0];
      if a.Write? && a.client < |s.clients| && s.clients[a.client].Writing? {
        WriteKeeps(mutations, maxAttempts, initial, s, a.client);
      } else if a.Read? && a.client < |s.clients| && s.clients[a.client].Reading? {
        ReadKeeps(mutations, initial, s, a.client);
      } else if a.Insert? && s.row.None? {
        InsertKeeps(mutations, initial, s, a.room);
      }
      OrderlyIsHonest(mutations, maxAttempts, initial, Step(mutations, maxAttempts, s, a), actions[1..]);
    }
  }

  // ----- a code that is used again under way -----

  /** Both clients read, the second deletes the room, another room of the same version is
      inserted, and the first writes. */
  function ReuseOf(another: Room): seq<Action> {
    [Read(0), Read(1), Write(1), Insert(another), Write(0)]
  }

  /** Where the first client stands before its write. */
  function BeforeWrite(earlier: Room, another: Room): State {
    State(Some(another), [Writing(1, earlier), Replied(1, Some(earlier), Deleted)], 0, [] + [Ran(1, 1)] + [Inserted(another)])
  }

  lemma PerformFirst(mutations: seq<Decider>, maxAttempts: nat, s: State, a: Action, rest: seq<Action>)
    requires |s.clients| == |mutations|
    ensures Perform(mutations, maxAttempts, s, [a] + rest) == Perform(mutations, maxAttempts, Step(mutations, maxAttempts, s, a), rest)
  {
    assert ([a] + rest)[1..] == rest;
  }

  lemma ReuseRuns(mutations: seq<Decider>, maxAttempts: nat, earlier: Room, another: Room)
    requires |mutations| == 2 && mutations[0](1)(earlier).Changed? && mutations[1](1)(earlier).Removed?
    ensures Perform(mutations, maxAttempts, Start(Some(earlier), 2), ReuseOf(another))
         == Step(mutations, maxAttempts, BeforeWrite(earlier, another), Write(0))
  {
    var s := Start(Some(earlier), 2);
    var s1 := State(Some(earlier), [Writing(1, earlier), Reading(1)], 0, []);
    var s2 := State(Some(earlier), [Writing(1, earlier), Writing(1, earlier)], 0, []);
    var s3 := State(None, [Writing(1, earlier), Replied(1, Some(earlier), Deleted)], 0, [] + [Ran(1, 1)]);
    assert s.clients == [Reading(1), Reading(1)];
    assert Step(mutations, maxAttempts, s, Read(0)) == s1;
    assert Step(mutations, maxAttempts, s1, Read(1)) == s2;
    assert Step(mutations, maxAttempts, s2, Write(1)) == s3;
    assert Step(mutations, maxAttempts, s3, Insert(another)) == BeforeWrite(earlier, another);
    PerformFirst(mutations, maxAttempts, BeforeWrite(earlier, another), Write(0), []);
    PerformFirst(mutations, maxAttempts, s3, Insert(another), [Write(0)]);
    PerformFirst(mutations, maxAttempts, s2, Write(1), [Insert(another), Write(0)]);
    PerformFirst(mutations, maxAttempts, s1, Read(1), [Write(1), Insert(another), Write(0)]);
    PerformFirst(mutations, maxAttempts, s, Read(0), [Read(1), Write(1), Insert(another), Write(0)]);
  }

  lemma BeforeWriteIsHonest(mutations: seq<Decider>, earlier: Room, another: Room)
    requires |mutations| == 2 && mutations[0](1)(earlier).Changed? && mutations[1](1)(earlier).Removed?
    ensures HonestInv(mutations, Some(earlier), BeforeWrite(earlier, another))
  {
    ReplayOneMore(mutations, Some(earlier), [], Ran(1, 1));
    ReplayOneMore(mutations, Some(earlier), [] + [Ran(1, 1)], Inserted(another));
  }

  /** The write goes through and brings the old room back, and row and replies of the run are
      not those of a service one at a time in the order in which the clients took effect,
      exactly when the decision comes to something else on the new room. */
  lemma ReinsertionBreaksTheCheck(mutations: seq<Decider>, maxAttempts: nat, earlier: Room, another: Room)
    requires |mutations| == 2 && mutations[0](1)(earlier).Changed? && mutations[1](1)(earlier).Removed?
    requires another.version == earlier.version
    ensures !Serializable(mutations, Some(earlier), Perform(mutations, maxAttempts, Start(Some(earlier), 2), ReuseOf(another)))
       <==> Atomic(Some(another), mutations[0](1)) != Atomic(Some(earlier), mutations[0](1))
  {
    ReuseRuns(mutations, maxAttempts, earlier, another);
    BeforeWriteIsHonest(mutations, earlier, another);
    WriteSerializableExactlyWhenHonest(mutations, maxAttempts, Some(earlier), BeforeWrite(earlier, another), 0);
  }

  // ----- progress -----

  predicate Committed(c: Client) { c.Replied? && (c.reply.Stored? || c.reply.Deleted?) }

  function Commits(s: State): set<nat> {
    set i | 0 <= i < |s.clients| && Committed(s.clients[i])
  }

  /** A client whose write is bound to fail. */
  predicate Stale(s: State, i: nat)
    requires i < |s.clients|
  {
    s.clients[i].Writing? && !(s.row.Some? && s.row.value.version == s.clients[i].seen.version)
  }

  function StaleClients(s: State): set<nat> {
    set i | 0 <= i < |s.clients| && Stale(s, i)
  }

  /** (n - 1) + (n - 2) + ... for the first c commits of n clients. */
  function Budget(n: nat, c: nat): int {
    if c == 0 then 0 else Budget(n, c - 1) + (n - c)
  }

  lemma {:induction false} BudgetClosed(n: nat, c: nat)
    ensures 2 * Budget(n, c) == c * (2 * n - c - 1)
  {
    if c > 0 {
      BudgetClosed(n, c - 1);
      assert (c - 1) * (2 * n - (c - 1) - 1) + 2 * (n - c) == c * (2 * n - c - 1);
    }
  }

  lemma BudgetBound(n: nat, c: nat)
    requires c <= n
    ensures 2 * Budget(n, c) <= n * (n - 1)
  {
    BudgetClosed(n, c);
    var left := n - c;
    assert n * (n - 1) - c * (2 * n - c - 1) == left * (left - 1);
    assert left * (left - 1) >= 0;
  }

  /** Every conflict is paid for by somebody else's commit since the read. */
  ghost predicate ProgressInv(maxAttempts: nat, s: State) {
    var n, c := |s.clients|, |Commits(s)|;
    && (forall i :: 0 <= i < n ==> 1 <= s.clients[i].attempt <= n)
    && (forall i :: 0 <= i < n && s.clients[i].Reading? ==> s.clients[i].attempt <= c + 1)
    && (forall i :: 0 <= i < n && s.clients[i].Writing? ==> s.clients[i].attempt + (if Stale(s, i) then 1 else 0) <= c + 1)
    && (forall i :: 0 <= i < n && s.clients[i].Replied? ==> s.clients[i].reply != GaveUp)
    && s.conflicts + |StaleClients(s)| <= Budget(n, c)
  }

  lemma NotAllCommitted(s: State, i: nat)
    requires i < |s.clients| && !Committed(s.clients[i])
    ensures |Commits(s)| < |s.clients|
  {
    RangeSize(Commits(s) + {i}, |s.clients|);
  }

  lemma ReadProgress(mutations: seq<Decider>, maxAttempts: nat, s: State, i: nat)
    requires |s.clients| == |mutations| && ProgressInv(maxAttempts, s)
    requires i < |s.clients| && s.clients[i].Reading?
    ensures ProgressInv(maxAttempts, ReadStep(mutations, s, i))
  {
    var n := ReadStep(mutations, s, i);
    assert Commits(n) == Commits(s);
    assert StaleClients(n) == StaleClients(s);
  }

  lemma StaleOrCommitted(s: State)
    ensures |StaleClients(s)| + |Commits(s)| <= |s.clients|
  {
    assert StaleClients(s) !! Commits(s);
    RangeSize(StaleClients(s) + Commits(s), |s.clients|);
  }

  lemma OneMoreCommit(mutations: seq<Decider>, maxAttempts: nat, s: State, i: nat)
    requires |s.clients| == |mutations| && i < |s.clients| && s.clients[i].Writing? && !Stale(s, i)
    ensures |Commits(WriteStep(mutations, maxAttempts, s, i))| == |Commits(s)| + 1
  {
    assert i !in Commits(s);
    assert Commits(WriteStep(mutations, maxAttempts, s, i)) == Commits(s) + {i};
  }

  lemma CommitProgress(mutations: seq<Decider>, maxAttempts: nat, s: State, i: nat)
    requires |s.clients| == |mutations| && ProgressInv(maxAttempts, s)
    requires i < |s.clients| && s.clients[i].Writing? && !Stale(s, i)
    ensures ProgressInv(maxAttempts, WriteStep(mutations, maxAttempts, s, i))
  {
    var n := WriteStep(mutations, maxAttempts, s, i);
    OneMoreCommit(mutations, maxAttempts, s, i);
    StaleOrCommitted(n);
    assert n.conflicts == s.conflicts;
  }

  lemma ConflictProgress(mutations: seq<Decider>, maxAttempts: nat, s: State, i: nat)
    requires |s.clients| == |mutations| <= maxAttempts && ProgressInv(maxAttempts, s)
    requires i < |s.clients| && Stale(s, i)
    ensures ProgressInv(maxAttempts, WriteStep(mutations, maxAttempts, s, i))
  {
    var n := WriteStep(mutations, maxAttempts, s, i);
    NotAllCommitted(s, i);
    assert s.clients[i].attempt < |s.clients|;
    assert Commits(n) == Commits(s);
    assert StaleClients(n) == StaleClients(s) - {i};
  }

  lemma InsertProgress(maxAttempts: nat, s: State, room: Room)
    requires ProgressInv(maxAttempts, s) && Quiet(s)
    ensures ProgressInv(maxAttempts, s.(row := Some(room), log := s.log + [Inserted(room)]))
  {
    var n := s.(row := Some(room), log := s.log + [Inserted(room)]);
    assert Commits(n) == Commits(s);
    assert StaleClients(n) == {};
  }

  lemma {:induction false} ProgressHolds(mutations: seq<Decider>, maxAttempts: nat, s: State, actions: seq<Action>)
    requires |s.clients| == |mutations| <= maxAttempts && ProgressInv(maxAttempts, s)
    requires Orderly(mutations, maxAttempts, s, actions)
    ensures ProgressInv(maxAttempts, Perform(mutations, maxAttempts, s, actions))
    decreases |actions|
  {
    if actions != [] {
      var a := actions[0];
      if a.Read? && a.client < |s.clients| && s.clients[a.client].Reading? {
        ReadProgress(mutations, maxAttempts, s, a.client);
      } else if a.Write? && a.client < |s.clients| && s.clients[a.client].Writing? {
        if Stale(s, a.client) {
          ConflictProgress(mutations, maxAttempts, s, a.client);
        } else {
          CommitProgress(mutations, maxAttempts, s, a.client);
        }
      } else if a.Insert? && s.row.None? {
        InsertProgress(maxAttempts, s, a.room);
      }
      ProgressHolds(mutations, maxAttempts, Step(mutations, maxAttempts, s, a), actions[1..]);
    }
  }

  /** With a bound of at least n attempts, n concurrent clients never give up, none
      starts more than n attempts, and at most n(n - 1)/2 writes conflict in all. */
  lemma RetriesAreBounded(mutations: seq<Decider>, maxAttempts: nat, initial: Option<Room>, actions: seq<Action>)
    requires |mutations| <= maxAttempts
    requires Orderly(mutations, maxAttempts, Start(initial, |mutations|), actions)
    ensures var s := Perform(mutations, maxAttempts, Start(initial, |mutations|), actions);
            var n := |mutations|;
            && (forall i :: 0 <= i < n ==> s.clients[i].attempt <= n)
            && (forall i :: 0 <= i < n && s.clients[i].Replied? ==> s.clients[i].reply != GaveUp)
            && 2 * s.conflicts <= n * (n - 1)
  {
    var s0 := Start(initial, |mutations|);
    assert Commits(s0) == {} && StaleClients(s0) == {};
    ProgressHolds(mutations, maxAttempts, s0, actions);
    var s := Perform(mutations, maxAttempts, s0, actions);
    RangeSize(Commits(s), |mutations|);
    BudgetBound(|mutations|, |Commits(s)|);
  }

  // ----- versions -----

  ghost predicate NoInsert(actions: seq<Action>) {
    forall k :: 0 <= k < |actions| ==> !actions[k].Insert?
  }

  lemma {:induction false} NoInsertIsOrderly(mutations: seq<Decider>, maxAttempts: nat, s: State, actions: seq<Action>)
    requires |s.clients| == |mutations| && NoInsert(actions)
    ensures Orderly(mutations, maxAttempts, s, actions)
    decreases |actions|
  {
    if actions != [] {
      NoInsertIsOrderly(mutations, maxAttempts, Step(mutations, maxAttempts, s, actions[0]), actions[1..]);
    }
  }

  lemma VersionStep(mutations: seq<Decider>, maxAttempts: nat, base: nat, s: State, a: Action)
    requires |s.clients| == |mutations| && !a.Insert?
    requires s.row.Some? ==> s.row.value.version == base + |Commits(s)|
    ensures var n := Step(mutations, maxAttempts, s, a);
            n.row.Some? ==> n.row.value.version == base + |Commits(n)|
  {
    var n := Step(mutations, maxAttempts, s, a);
    var i := a.client;
    if i < |s.clients| && s.clients[i].Writing? && a.Write? && !Stale(s, i) {
      assert Commits(n) == Commits(s) + {i};
    } else {
      assert Commits(n) == Commits(s);
    }
  }

  /** During one lifetime of a room its version is the first one plus the number of updates stored. */
  lemma {:induction false} VersionCountsCommits(mutations: seq<Decider>, maxAttempts: nat, base: nat, s: State, actions: seq<Action>)
    requires |s.clients| == |mutations| && NoInsert(actions)
    requires s.row.Some? ==> s.row.value.version == base + |Commits(s)|
    ensures var n := Perform(mutations, maxAttempts, s, actions);
            n.row.Some? ==> n.row.value.version == base + |Commits(n)|
    decreases |actions|
  {
    if actions != [] {
      VersionStep(mutations, maxAttempts, base, s, actions[0]);
      VersionCountsCommits(mutations, maxAttempts, base, Step(mutations, maxAttempts, s, actions[0]), actions[1..]);
    }
  }
}
