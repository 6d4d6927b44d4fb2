/** The room decisions under the optimistic store: whatever the callers' interleaving,
    the stored room is a run of the domain, so what holds of every run holds of it. */
module StoredRuns {
  import opened Sequences
  import opened Text
  import opened Domain
  import opened RoomStore
  import opened RoomEvents
  import opened OptimisticUpdates
  import BattleRun
  import RoomInvariant
  import SampleRun

  /** Every caller brings one decision on the room; an attempt may bring another draw and
      another moment than the attempt before. */
  type Intent = nat -> Event

  function DecisionOf(fold: Fold, intent: Intent): (d: Decider)
    ensures forall attempt, room :: d(attempt)(room) == Mutate(fold, room, intent(attempt))
  {
    (attempt: nat) => (room: Room) => Mutate(fold, room, intent(attempt))
  }

  function Decisions(fold: Fold, events: seq<Intent>): (r: seq<Decider>)
    ensures |r| == |events|
    ensures forall i, attempt, room :: 0 <= i < |events| ==> r[i](attempt)(room) == Mutate(fold, room, events[i](attempt))
  {
    if events == [] then [] else [DecisionOf(fold, events[0])] + Decisions(fold, events[1..])
  }

  /** The decisions that took effect, in the order in which they did. */
  function Served(events: seq<Intent>, log: seq<Entry>): seq<Event> {
    if log == [] then []
    else
      var before, last := Served(events, log[..|log| - 1]), log[|log| - 1];
      if last.Ran? && last.client < |events| then before + [events[last.client](last.attempt)] else before
  }

  ghost predicate OnlyRuns(log: seq<Entry>) {
    forall k :: 0 <= k < |log| ==> log[k].Ran?
  }

  lemma {:induction false} OnlyRunsAreLogged(mutations: seq<Decider>, maxAttempts: nat, s: State, actions: seq<Action>)
    requires |s.clients| == |mutations| && NoInsert(actions) && OnlyRuns(s.log)
    ensures OnlyRuns(Perform(mutations, maxAttempts, s, actions).log)
    decreases |actions|
  {
    if actions != [] {
      var n := Step(mutations, maxAttempts, s, actions[0]);
      assert !actions[0].Insert?;
      assert OnlyRuns(n.log);
      OnlyRunsAreLogged(mutations, maxAttempts, n, actions[1..]);
    }
  }

  lemma AtomicCommits(room: Room, m: RoomMutation)
    ensures Atomic(Some(room), m).0 == RowAfter(room, m(room))
  {
  }

  lemma ServedIsNext(fold: Fold, events: seq<Intent>, before: Serial, i: nat, attempt: nat)
    requires i < |events| && before.row.Some?
    ensures ReplayEntry(Decisions(fold, events), before, Ran(i, attempt)).row == Next(fold, before.row.value, events[i](attempt))
  {
    AtomicCommits(before.row.value, Decisions(fold, events)[i](attempt));
    NextCommits(fold, before.row.value, events[i](attempt));
  }

  lemma NothingIsServed(mutations: seq<Decider>, before: Serial, i: nat, attempt: nat)
    requires before.row.None?
    ensures ReplayEntry(mutations, before, Ran(i, attempt)).row.None?
  {
  }

  /** The atomic store that serves the log does what a run of the domain does. */
  lemma {:induction false} ReplayIsRun(fold: Fold, events: seq<Intent>, room: Room, log: seq<Entry>)
    requires OnlyRuns(log)
    ensures Replay(Decisions(fold, events), Some(room), log).row == Run(fold, room, Served(events, log))
  {
    if log != [] {
      var before, last := log[..|log| - 1], log[|log| - 1];
      ReplayIsRun(fold, events, room, before);
      var serial := Replay(Decisions(fold, events), Some(room), before);
      if last.client < |events| {
        RunOneMore(fold, room, Served(events, before), events[last.client](last.attempt));
        if serial.row.Some? { ServedIsNext(fold, events, serial, last.client, last.attempt); }
        else { NothingIsServed(Decisions(fold, events), serial, last.client, last.attempt); }
      }
    }
  }

  /** In every interleaving of reads and writes the stored room is the domain's run of
      the decisions that took effect, each of them once, in their order. A caller
      answered with anything but "gave up" is one of them. */
  lemma StoreRunsTheDomain(fold: Fold, events: seq<Intent>, maxAttempts: nat, room: Room, actions: seq<Action>)
    requires NoInsert(actions)
    ensures var s := Perform(Decisions(fold, events), maxAttempts, Start(Some(room), |events|), actions);
            && s.row == Run(fold, room, Served(events, s.log))
            && OnlyRuns(s.log) && OnceEach(s)
            && (forall i :: 0 <= i < |events| && s.clients[i].Replied? && s.clients[i].reply != GaveUp ==>
                  exists attempt :: Ran(i, attempt) in s.log)
  {
    var mutations, initial := Decisions(fold, events), Start(Some(room), |events|);
    var s := Perform(mutations, maxAttempts, initial, actions);
    NoInsertIsOrderly(mutations, maxAttempts, initial, actions);
    StartIsSerializable(mutations, Some(room));
    UpdatesAreSerializable(mutations, maxAttempts, Some(room), initial, actions);
    OnlyRunsAreLogged(mutations, maxAttempts, initial, actions);
    ReplayIsRun(fold, events, room, s.log);
    forall i | 0 <= i < |events| && s.clients[i].Replied? && s.clients[i].reply != GaveUp
      ensures exists attempt :: Ran(i, attempt) in s.log
    {
      RepliesAreLogged(mutations, Some(room), s.log, i);
    }
  }

  lemma {:induction false} RepliesAreLogged(mutations: seq<Decider>, row: Option<Room>, log: seq<Entry>, i: nat)
    ensures i in Replay(mutations, row, log).replies ==> exists attempt :: Ran(i, attempt) in log
  {
    if log != [] {
      RepliesAreLogged(mutations, row, log[..|log| - 1], i);
      assert log == log[..|log| - 1] + [log[|log| - 1]];
    }
  }

  /** Whatever the callers do to a room that satisfies the invariant, and however
      their steps interleave, the stored room satisfies it. */
  lemma StoredRoomKeepsInvariant(fold: Fold, events: seq<Intent>, maxAttempts: nat, room: Room, actions: seq<Action>)
    requires NoInsert(actions) && RoomInvariant.Inv(fold, room)
    ensures var row := Perform(Decisions(fold, events), maxAttempts, Start(Some(room), |events|), actions).row;
            row.Some? ==> RoomInvariant.Inv(fold, row.value)
  {
    StoreRunsTheDomain(fold, events, maxAttempts, room, actions);
    var s := Perform(Decisions(fold, events), maxAttempts, Start(Some(room), |events|), actions);
    RoomInvariant.RunKeeps(fold, room, Served(events, s.log));
  }

  // ----- the end of a battle among concurrent callers -----

  /** A caller whose update took effect reports the end of a battle: its flag, computed on
      the room its last decision saw. */
  predicate Flagged(events: seq<Intent>, clients: seq<Client>, entry: Entry, battleId: Id) {
    && entry.Ran? && entry.client < |events| && entry.client < |clients| && clients[entry.client].Replied?
    && clients[entry.client].saw.Some?
    && FlagsOn(clients[entry.client].saw.value, events[entry.client](entry.attempt), battleId)
  }

  predicate FlagsOn(room: Room, e: Event, battleId: Id) {
    BattleRun.Reports(room, e) && room.battle.Some? && room.battle.value.id == battleId
  }

  /** The callers that report the end of the battle. */
  function Reporters(events: seq<Intent>, clients: seq<Client>, log: seq<Entry>, battleId: Id): set<nat> {
    if log == [] then {}
    else
      var before, last := Reporters(events, clients, log[..|log| - 1], battleId), log[|log| - 1];
      if Flagged(events, clients, last, battleId) then before + {last.client} else before
  }

  lemma {:induction false} ReportsOneMore(fold: Fold, room: Room, served: seq<Event>, e: Event, battleId: Id)
    ensures BattleRun.ReportsOf(fold, room, served + [e], battleId) == BattleRun.ReportsOf(fold, room, served, battleId)
            + match Run(fold, room, served) { case None => 0 case Some(last) => if FlagsOn(last, e, battleId) then 1 else 0 }
    decreases |served|
  {
    if served == [] {
      assert [] + [e] == [e];
      assert [e][1..] == [];
    } else {
      assert (served + [e])[0] == served[0] && (served + [e])[1..] == served[1..] + [e];
      var next := Next(fold, room, served[0]);
      if next.Some? { ReportsOneMore(fold, next.value, served[1..], e, battleId); }
    }
  }

  /** Up to a position of the log, callers are logged once and saw what they were served. */
  ghost predicate LoggedWell(fold: Fold, events: seq<Intent>, room: Room, clients: seq<Client>, log: seq<Entry>) {
    && OnlyRuns(log)
    && (forall k :: 0 <= k < |log| ==> log[k].client < |events| && log[k].client < |clients| && clients[log[k].client].Replied?)
    && (forall j, k :: 0 <= j < k < |log| ==> log[j].client != log[k].client)
    && (forall k :: 0 <= k < |log| ==>
          clients[log[k].client].saw == Replay(Decisions(fold, events), Some(room), log[..k]).row)
  }

  lemma LoggedWellBefore(fold: Fold, events: seq<Intent>, room: Room, clients: seq<Client>, log: seq<Entry>)
    requires log != [] && LoggedWell(fold, events, room, clients, log)
    ensures LoggedWell(fold, events, room, clients, log[..|log| - 1])
  {
    var before := log[..|log| - 1];
    forall k | 0 <= k < |before|
      ensures before[k] == log[k] && before[..k] == log[..k]
    {
    }
  }

  lemma {:induction false} ReportersAreLogged(events: seq<Intent>, clients: seq<Client>, log: seq<Entry>, battleId: Id, c: nat)
    requires OnlyRuns(log) && c in Reporters(events, clients, log, battleId)
    ensures exists k :: 0 <= k < |log| && log[k].client == c
  {
    var before, last := log[..|log| - 1], log[|log| - 1];
    if c in Reporters(events, clients, before, battleId) {
      assert OnlyRuns(before);
      ReportersAreLogged(events, clients, before, battleId, c);
      var k :| 0 <= k < |before| && before[k].client == c;
      assert log[k].client == c;
    } else {
      assert log[|log| - 1].client == c;
    }
  }

  lemma ReportersOneMore(events: seq<Intent>, clients: seq<Client>, log: seq<Entry>, battleId: Id)
    requires log != [] && OnlyRuns(log) && forall j, k :: 0 <= j < k < |log| ==> log[j].client != log[k].client
    ensures |Reporters(events, clients, log, battleId)| == |Reporters(events, clients, log[..|log| - 1], battleId)|
            + (if Flagged(events, clients, log[|log| - 1], battleId) then 1 else 0)
  {
    var before, last := log[..|log| - 1], log[|log| - 1];
    if last.client in Reporters(events, clients, before, battleId) {
      ReportersAreLogged(events, clients, before, battleId, last.client);
    }
  }

  lemma {:induction false} ReportersAreReports(fold: Fold, events: seq<Intent>, room: Room, clients: seq<Client>, log: seq<Entry>, battleId: Id)
    requires LoggedWell(fold, events, room, clients, log)
    ensures |Reporters(events, clients, log, battleId)| == BattleRun.ReportsOf(fold, room, Served(events, log), battleId)
  {
    if log == [] {
      assert Reporters(events, clients, log, battleId) == {};
    } else {
      var before, last := log[..|log| - 1], log[|log| - 1];
      LoggedWellBefore(fold, events, room, clients, log);
      ReportersAreReports(fold, events, room, clients, before, battleId);
      ReportersOneMore(events, clients, log, battleId);
      ReportsOneMore(fold, room, Served(events, before), events[last.client](last.attempt), battleId);
      ReplayIsRun(fold, events, room, before);
    }
  }

  /** Whatever the interleaving of the callers: as many of them report the end of a battle as
      the battle ended. Over the updates that took effect, reporters plus running now equal
      starts plus running before, so a battle that is started once has one reporter at most. */
  lemma CallersReportEachEndOnce(fold: Fold, events: seq<Intent>, maxAttempts: nat, room: Room, actions: seq<Action>, battleId: Id)
    requires NoInsert(actions) && RoomInvariant.Inv(fold, room)
    ensures var s := Perform(Decisions(fold, events), maxAttempts, Start(Some(room), |events|), actions);
            |Reporters(events, s.clients, s.log, battleId)| + (if s.row.Some? then BattleRun.RunningNow(s.row.value, battleId) else 0)
            == BattleRun.StartsOf(fold, room, Served(events, s.log), battleId) + BattleRun.RunningNow(room, battleId)
  {
    var mutations, initial := Decisions(fold, events), Start(Some(room), |events|);
    var s := Perform(mutations, maxAttempts, initial, actions);
    StoreRunsTheDomain(fold, events, maxAttempts, room, actions);
    NoInsertIsOrderly(mutations, maxAttempts, initial, actions);
    StartIsSerializable(mutations, Some(room));
    RunsSawWhatTheyServed(mutations, maxAttempts, Some(room), initial, actions);
    assert LoggedWell(fold, events, room, s.clients, s.log);
    ReportersAreReports(fold, events, room, s.clients, s.log, battleId);
    BattleRun.EndsAreConserved(fold, room, Served(events, s.log), battleId);
  }

  // ----- a code that is used again -----

  /** With rooms as the service creates them and two of its updates: somebody joins a room
      while its host leaves and so deletes it, another host's room gets the same code, and
      the join brings the deleted room back in its place. No service of the two callers
      one at a time, in the order in which they took effect, does that. */
  lemma ReusedCodeBringsARoomBack(fold: Fold, maxAttempts: nat, earlier: Room, another: Room)
    requires SampleRun.IsNew(earlier) && SampleRun.IsNew(another) && earlier.code == another.code && earlier.hostId != another.hostId
    ensures var events: seq<Intent> := [(k: nat) => Join(SampleRun.Guest(earlier), "A"), (k: nat) => Leave(earlier.hostId, 0, 0)];
            var s := Perform(Decisions(fold, events), maxAttempts, Start(Some(earlier), 2), ReuseOf(another));
            && !Serializable(Decisions(fold, events), Some(earlier), s)
            && s.row.Some? && s.row.value.hostId == earlier.hostId
  {
    var events: seq<Intent> := [(k: nat) => Join(SampleRun.Guest(earlier), "A"), (k: nat) => Leave(earlier.hostId, 0, 0)];
    var join, leave := Decisions(fold, events)[0](1), Decisions(fold, events)[1](1);
    assert join(earlier) == Mutate(fold, earlier, Join(SampleRun.Guest(earlier), "A"));
    assert leave(earlier) == Mutate(fold, earlier, Leave(earlier.hostId, 0, 0));
    assert join(another) == Mutate(fold, another, Join(SampleRun.Guest(earlier), "A"));
    JoinOfNew(fold, earlier);
    SampleRun.HostLeaves(fold, earlier);
    HostStays(fold, another, SampleRun.Guest(earlier));
    DeletedRoomComesBack(Decisions(fold, events), maxAttempts, earlier, another);
  }

  lemma DeletedRoomComesBack(mutations: seq<Decider>, maxAttempts: nat, earlier: Room, another: Room)
    requires |mutations| == 2 && another.version == earlier.version && another.hostId != earlier.hostId
    requires mutations[0](1)(earlier).Changed? && mutations[0](1)(earlier).room.hostId == earlier.hostId && mutations[1](1)(earlier).Removed?
    requires !mutations[0](1)(another).Removed?
    requires mutations[0](1)(another).Changed? ==> mutations[0](1)(another).room.hostId == another.hostId
    ensures var s := Perform(mutations, maxAttempts, Start(Some(earlier), 2), ReuseOf(another));
            !Serializable(mutations, Some(earlier), s) && s.row.Some? && s.row.value.hostId == earlier.hostId
  {
    ReinsertionBreaksTheCheck(mutations, maxAttempts, earlier, another);
    ReuseRuns(mutations, maxAttempts, earlier, another);
  }

  lemma JoinOfNew(fold: Fold, r: Room)
    requires SampleRun.IsNew(r)
    ensures var o := Mutate(fold, r, Join(SampleRun.Guest(r), "A")); o.Changed? && o.room.hostId == r.hostId
  {
    SampleRun.GuestJoins(fold, r);
    NextCommits(fold, r, Join(SampleRun.Guest(r), "A"));
  }

  lemma HostStays(fold: Fold, r: Room, id: Id)
    ensures var o := Mutate(fold, r, Join(id, "A")); !o.Removed? && (o.Changed? ==> o.room.hostId == r.hostId)
  {
  }
}
