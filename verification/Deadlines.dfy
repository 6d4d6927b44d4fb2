/** The deadline timers of a room: what is pending follows the newest state published,
    in whatever order the states are published. */
module Deadlines {
  import opened Sequences
  import opened Text
  import opened Domain
  import RoomInvariant
  import SongSelecting

  datatype Kind = SongChallenge | SongChoose | BattleEnd

  /** When a timer goes off, and the challenge or battle it was set for. */
  datatype Timer = Timer(at: int, subject: Id)

  /** At most one timer of each kind. */
  datatype Pending = Pending(challenge: Option<Timer>, choose: Option<Timer>, end: Option<Timer>)

  const NOTHING_PENDING := Pending(None, None, None)

  function OfKind(p: Pending, kind: Kind): Option<Timer> {
    match kind
    case SongChallenge => p.challenge
    case SongChoose => p.choose
    case BattleEnd => p.end
  }

  function WithKind(p: Pending, kind: Kind, timer: Option<Timer>): Pending {
    match kind
    case SongChallenge => p.(challenge := timer)
    case SongChoose => p.(choose := timer)
    case BattleEnd => p.(end := timer)
  }

  /** The deadlines a state of a room has. */
  function DeadlinesOf(room: Room): Pending {
    var selection := room.songSelection;
    Pending(
      if room.status == Waiting && selection.Some? && selection.value.phase == Typing
      then Some(Timer(selection.value.challenge.expiresAt, selection.value.challenge.id)) else None,
      if room.status == Waiting && selection.Some? && selection.value.phase == Choosing && selection.value.chooseDeadline.Some?
      then Some(Timer(selection.value.chooseDeadline.value, selection.value.challenge.id)) else None,
      if room.status == Battling && room.battle.Some? then Some(Timer(room.battle.value.endsAt, room.battle.value.id)) else None)
  }

  /** In a reachable room no deadline is without its timer: a challenge being typed, a
      turn to choose and a running battle each have theirs, and only one of them exists. */
  lemma EveryDeadlineHasItsTimer(fold: Fold, room: Room)
    requires RoomInvariant.Inv(fold, room)
    ensures var p := DeadlinesOf(room);
            && (p.challenge.Some? <==> SongSelecting.IsTyping(room))
            && (p.choose.Some? <==> SongSelecting.IsChoosing(room))
            && (p.end.Some? <==> room.status == Battling)
            && (p.challenge.Some? ==> p.choose.None? && p.end.None?) && (p.choose.Some? ==> p.end.None?)
  {
    assert RoomInvariant.SelectionInv(room) && RoomInvariant.SeatsInv(room);
    if SongSelecting.IsTyping(room) || SongSelecting.IsChoosing(room) { assert SongSelecting.InProgress(room); }
  }

  // ----- one room -----

  /** The version the timers were last armed for, and what is pending. */
  datatype Armed = Armed(version: Option<nat>, pending: Pending)

  datatype Action = Publish(room: Room) | Fire(kind: Kind)

  /** Publishing an older version than the one armed does nothing; a timer fires once. */
  function Step(s: Armed, a: Action): Armed {
    match a
    case Publish(room) =>
      if s.version.Some? && room.version < s.version.value then s else Armed(Some(room.version), DeadlinesOf(room))
    case Fire(kind) => s.(pending := WithKind(s.pending, kind, None))
  }

  function After(actions: seq<Action>): Armed {
    if actions == [] then Armed(None, NOTHING_PENDING)
    else Step(After(actions[..|actions| - 1]), actions[|actions| - 1])
  }

  /** The last time the highest version so far was published. */
  ghost predicate Newest(actions: seq<Action>, i: nat) {
    && i < |actions| && actions[i].Publish?
    && (forall j :: 0 <= j < i && actions[j].Publish? ==> actions[j].room.version <= actions[i].room.version)
    && (forall j :: i < j < |actions| && actions[j].Publish? ==> actions[j].room.version < actions[i].room.version)
  }

  function FiredAfter(actions: seq<Action>, i: nat): set<Kind> {
    set j | i < j < |actions| && actions[j].Fire? :: actions[j].kind
  }

  ghost predicate FollowsNewest(actions: seq<Action>, i: nat)
    requires i < |actions| && actions[i].Publish?
  {
    var s := After(actions);
    && s.version == Some(actions[i].room.version)
    && forall kind :: OfKind(s.pending, kind)
                        == if kind in FiredAfter(actions, i) then None else OfKind(DeadlinesOf(actions[i].room), kind)
  }

  lemma FiredAfterOneMore(actions: seq<Action>, i: nat)
    requires i < |actions| - 1
    ensures var last := actions[|actions| - 1];
            FiredAfter(actions, i) == FiredAfter(actions[..|actions| - 1], i) + if last.Fire? then {last.kind} else {}
  {
    var before, last := actions[..|actions| - 1], actions[|actions| - 1];
    forall kind | kind in FiredAfter(actions, i) ensures kind in FiredAfter(before, i) || (last.Fire? && last.kind == kind) {
      var j :| i < j < |actions| && actions[j].Fire? && actions[j].kind == kind;
      assert j < |before| ==> before[j] == actions[j];
    }
    forall kind | kind in FiredAfter(before, i) ensures kind in FiredAfter(actions, i) {
      var j :| i < j < |before| && before[j].Fire? && before[j].kind == kind;
      assert actions[j] == before[j];
    }
    if last.Fire? { assert actions[|actions| - 1].kind in FiredAfter(actions, i); }
  }

  /** For any order of publishing and firing, the pending timers are exactly those of the
      highest version published so far, less the ones that fired since it last was. */
  lemma {:induction false} TimersFollowTheNewest(actions: seq<Action>, i: nat)
    requires Newest(actions, i)
    ensures FollowsNewest(actions, i)
    decreases |actions|
  {
    var n := |actions| - 1;
    var before := actions[..n];
    if i == n {
      assert FiredAfter(actions, i) == {};
      if before != [] { ArmedIsHighest(before); }
    } else {
      assert forall j :: 0 <= j < n ==> before[j] == actions[j];
      TimersFollowTheNewest(before, i);
      FiredAfterOneMore(actions, i);
    }
  }

  /** The version armed is one that was published, and none published is higher. */
  lemma {:induction false} ArmedIsHighest(actions: seq<Action>)
    ensures var v := After(actions).version;
            && (v.None? <==> forall j :: 0 <= j < |actions| ==> !actions[j].Publish?)
            && (v.Some? ==> forall j :: 0 <= j < |actions| && actions[j].Publish? ==> actions[j].room.version <= v.value)
            && (v.Some? ==> exists j :: 0 <= j < |actions| && actions[j].Publish? && actions[j].room.version == v.value)
  {
    if actions != [] {
      var n := |actions| - 1;
      var before := actions[..n];
      ArmedIsHighest(before);
      assert forall j :: 0 <= j < n ==> before[j] == actions[j];
      if actions[n].Publish? && After(actions) != After(before) { assert actions[n].room.version == After(actions).version.value; }
    }
  }

  /** One version of a live room is one state of it. */
  ghost predicate OneStateEach(a: seq<Action>, b: seq<Action>) {
    forall i, j :: 0 <= i < |a| && 0 <= j < |b| && a[i].Publish? && b[j].Publish? && a[i].room.version == b[j].room.version
                   ==> a[i].room == b[j].room
  }

  /** So two publishing orders whose highest version is the same leave the same timers,
      as long as nothing fires. */
  lemma OrderOfPublishingIsIrrelevant(a: seq<Action>, b: seq<Action>, i: nat, j: nat)
    requires Newest(a, i) && Newest(b, j) && a[i].room.version == b[j].room.version && OneStateEach(a, b)
    requires FiredAfter(a, i) == {} == FiredAfter(b, j)
    ensures After(a) == After(b)
  {
    TimersFollowTheNewest(a, i);
    TimersFollowTheNewest(b, j);
    forall kind ensures OfKind(After(a).pending, kind) == OfKind(After(b).pending, kind) {
    }
    SamePending(After(a).pending, After(b).pending);
  }

  lemma SamePending(p: Pending, q: Pending)
    requires forall kind :: OfKind(p, kind) == OfKind(q, kind)
    ensures p == q
  {
    assert OfKind(p, SongChallenge) == OfKind(q, SongChallenge);
    assert OfKind(p, SongChoose) == OfKind(q, SongChoose);
    assert OfKind(p, BattleEnd) == OfKind(q, BattleEnd);
  }

  // ----- the timers of all rooms -----

  function KindName(kind: Kind): (r: string)
    ensures '|' !in r
  {
    match kind
    case SongChallenge => "song-challenge"
    case SongChoose => "song-choose"
    case BattleEnd => "battle-end"
  }

  function TimerKey(code: string, kind: Kind): string { Upper(code) + "|" + KindName(kind) }

  lemma KindNamesDiffer(a: Kind, b: Kind)
    requires KindName(a) == KindName(b)
    ensures a == b
  {
    assert KindName(SongChallenge)[5] == 'c' && KindName(SongChallenge)[6] == 'h' && KindName(SongChallenge)[7] == 'a';
    assert KindName(SongChoose)[5] == 'c' && KindName(SongChoose)[6] == 'h' && KindName(SongChoose)[7] == 'o';
    assert KindName(BattleEnd)[0] == 'b' && KindName(SongChoose)[0] == 's' && KindName(SongChallenge)[0] == 's';
  }

  /** A longer head puts the separator where the other text has none. */
  lemma LongerHead(a: string, x: string, b: string, y: string)
    requires |a| < |b| && '|' !in x
    ensures a + "|" + x != b + "|" + y
  {
    var s, t := a + "|" + x, b + "|" + y;
    assert t[|b|] == '|';
    if |b| < |s| {
      assert s[|b|] == x[|b| - |a| - 1];
    }
  }

  /** Room and kind can be told from a key. */
  lemma KeysDiffer(a: string, x: Kind, b: string, y: Kind)
    requires TimerKey(a, x) == TimerKey(b, y)
    ensures Upper(a) == Upper(b) && x == y
  {
    if |a| < |b| {
      LongerHead(Upper(a), KindName(x), Upper(b), KindName(y));
    } else if |b| < |a| {
      LongerHead(Upper(b), KindName(y), Upper(a), KindName(x));
    } else {
      var k := |a|;
      assert TimerKey(a, x)[..k] == Upper(a) && TimerKey(b, y)[..k] == Upper(b);
      assert TimerKey(a, x)[k + 1..] == KindName(x) && TimerKey(b, y)[k + 1..] == KindName(y);
      KindNamesDiffer(x, y);
    }
  }

  /** In codes without the separator the prefix of a room fits only that room's keys. */
  lemma PrefixOfOneRoom(code: string, other: string, kind: Kind)
    requires '|' !in Upper(code) && '|' !in Upper(other)
    ensures Upper(code) + "|" <= TimerKey(other, kind) <==> Upper(other) == Upper(code)
  {
    var prefix, key, k, m := Upper(code) + "|", TimerKey(other, kind), |Upper(code)|, |Upper(other)|;
    if k < m {
      assert prefix[k] == '|' && key[k] == Upper(other)[k];
    } else if m < k {
      assert key[m] == '|' && prefix[m] == Upper(code)[m];
    } else {
      assert prefix[..k] == Upper(code) && key[..k] == Upper(other);
    }
  }

  function TimerOf(timers: map<string, Timer>, code: string, kind: Kind): Option<Timer> {
    if TimerKey(code, kind) in timers then Some(timers[TimerKey(code, kind)]) else None
  }

  function PendingOf(timers: map<string, Timer>, code: string): (p: Pending)
    ensures forall kind :: OfKind(p, kind) == TimerOf(timers, code, kind)
  {
    Pending(TimerOf(timers, code, SongChallenge), TimerOf(timers, code, SongChoose), TimerOf(timers, code, BattleEnd))
  }

  class RoomTimers {
    var timers: map<string, Timer>

    constructor ()
      ensures timers == map[]
    {
      timers := map[];
    }

    /** (Re)schedules a timer; a deadline that passed fires right away. */
    method Set(code: string, kind: Kind, at: int, subject: Id)
      modifies this
      ensures PendingOf(timers, code) == WithKind(PendingOf(old(timers), code), kind, Some(Timer(at, subject)))
      ensures forall other :: Upper(other) != Upper(code) ==> PendingOf(timers, other) == PendingOf(old(timers), other)
    {
      OtherKeys(code, kind);
      timers := timers[TimerKey(code, kind) := Timer(at, subject)];
    }

    method Clear(code: string, kind: Kind)
      modifies this
      ensures PendingOf(timers, code) == WithKind(PendingOf(old(timers), code), kind, None)
      ensures forall other :: Upper(other) != Upper(code) ==> PendingOf(timers, other) == PendingOf(old(timers), other)
    {
      OtherKeys(code, kind);
      timers := timers - {TimerKey(code, kind)};
    }

    /** The moment of a timer came: it is no longer pending, and its task gets its subject. */
    method Fire(code: string, kind: Kind) returns (fired: Option<Timer>)
      modifies this
      ensures fired == TimerOf(old(timers), code, kind)
      ensures PendingOf(timers, code) == WithKind(PendingOf(old(timers), code), kind, None)
      ensures forall other :: Upper(other) != Upper(code) ==> PendingOf(timers, other) == PendingOf(old(timers), other)
    {
      OtherKeys(code, kind);
      fired := TimerOf(timers, code, kind);
      timers := timers - {TimerKey(code, kind)};
    }

    /** Clears every timer of a room, found by the prefix of its keys. */
    method ClearRoom(code: string)
      modifies this
      ensures PendingOf(timers, code) == NOTHING_PENDING
      ensures forall other :: '|' !in Upper(code) && '|' !in Upper(other) && Upper(other) != Upper(code) ==>
                PendingOf(timers, other) == PendingOf(old(timers), other)
    {
      var prefix, keys := Upper(code) + "|", timers.Keys;
      while keys != {}
        invariant keys <= old(timers).Keys
        invariant forall key :: key in timers <==> key in old(timers) && (key in keys || !(prefix <= key))
        invariant forall key :: key in timers ==> timers[key] == old(timers)[key]
        decreases |keys|
      {
        var key :| key in keys;
        keys := keys - {key};
        if prefix <= key {
          timers := timers - {key};
        }
      }
      forall other, kind | '|' !in Upper(code) && '|' !in Upper(other) && Upper(other) != Upper(code)
        ensures TimerOf(timers, other, kind) == TimerOf(old(timers), other, kind)
      {
        PrefixOfOneRoom(code, other, kind);
      }
    }
  }

  /** Changing the timer under one key leaves every other timer alone. */
  lemma OtherKeys(code: string, kind: Kind)
    ensures forall other, k :: TimerKey(other, k) == TimerKey(code, kind) ==> Upper(other) == Upper(code) && k == kind
  {
    forall other, k | TimerKey(other, k) == TimerKey(code, kind) ensures Upper(other) == Upper(code) && k == kind {
      KeysDiffer(other, k, code, kind);
    }
  }

  class RoomPublisher {
    const timers: RoomTimers
    var armedVersions: map<string, nat>

    constructor (timers: RoomTimers)
      ensures this.timers == timers && armedVersions == map[]
    {
      this.timers, armedVersions := timers, map[];
    }

    ghost function ArmedFor(code: string): Armed
      reads this, timers
    {
      Armed(if Upper(code) in armedVersions then Some(armedVersions[Upper(code)]) else None, PendingOf(timers.timers, code))
    }

    /** Re-derives the timers of a published room: one step of that room and of no other. */
    method ArmRoomTimers(room: Room)
      modifies this, timers
      ensures ArmedFor(room.code) == Step(old(ArmedFor(room.code)), Publish(room))
      ensures forall other :: Upper(other) != Upper(room.code) ==> ArmedFor(other) == old(ArmedFor(other))
    {
      var key := Upper(room.code);
      if key in armedVersions && room.version < armedVersions[key] {
        return;
      }
      armedVersions := armedVersions[key := room.version];
      var selection := room.songSelection;
      if room.status == Waiting && selection.Some? && selection.value.phase == Typing {
        timers.Set(room.code, SongChallenge, selection.value.challenge.expiresAt, selection.value.challenge.id);
      } else {
        timers.Clear(room.code, SongChallenge);
      }
      if room.status == Waiting && selection.Some? && selection.value.phase == Choosing && selection.value.chooseDeadline.Some? {
        timers.Set(room.code, SongChoose, selection.value.chooseDeadline.value, selection.value.challenge.id);
      } else {
        timers.Clear(room.code, SongChoose);
      }
      if room.status == Battling && room.battle.Some? {
        timers.Set(room.code, BattleEnd, room.battle.value.endsAt, room.battle.value.id);
      } else {
        timers.Clear(room.code, BattleEnd);
      }
    }

    /** What follows a departure. Spectators whose vote it discarded are told while the
        room exists; a room that is gone is forgotten, any other is published; an end of
        the battle is announced; and the word race is stopped unless the battle goes on. */
    method AnnounceLeave(code: string, room: Option<Room>, battleFinished: bool, discardedVoterIds: seq<Id>)
      returns (endAnnounced: bool, told: seq<Id>, raceStopped: bool)
      requires room.Some? ==> Upper(room.value.code) == Upper(code)
      modifies this, timers
      ensures endAnnounced <==> room.Some? && battleFinished
      ensures told == if room.Some? then discardedVoterIds else []
      ensures raceStopped <==> !(room.Some? && !battleFinished && room.value.status == Battling)
      ensures ArmedFor(code) == if room.Some? then Step(old(ArmedFor(code)), Publish(room.value)) else Armed(None, NOTHING_PENDING)
      ensures forall other :: '|' !in Upper(code) && '|' !in Upper(other) && Upper(other) != Upper(code) ==>
                ArmedFor(other) == old(ArmedFor(other))
    {
      told := [];
      if room.None? {
        ForgetRoomTimers(code);
        return false, told, true;
      }
      for k := 0 to |discardedVoterIds|
        invariant told == discardedVoterIds[..k]
      {
        told := told + [discardedVoterIds[k]];
      }
      SameCode(room.value.code, code);
      ArmRoomTimers(room.value);
      assert ArmedFor(code) == ArmedFor(room.value.code);
      if battleFinished {
        return true, told, true;
      }
      return false, told, room.value.status != Battling;
    }

    /** Codes that differ in case only have the same timers. */
    lemma SameCode(a: string, b: string)
      requires Upper(a) == Upper(b)
      ensures ArmedFor(a) == ArmedFor(b)
    {
      forall kind ensures TimerOf(timers.timers, a, kind) == TimerOf(timers.timers, b, kind) {
      }
      SamePending(PendingOf(timers.timers, a), PendingOf(timers.timers, b));
    }

    /** The room is gone: nothing of it stays behind. */
    method ForgetRoomTimers(code: string)
      modifies this, timers
      ensures ArmedFor(code) == Armed(None, NOTHING_PENDING)
      ensures forall other :: '|' !in Upper(code) && '|' !in Upper(other) && Upper(other) != Upper(code) ==>
                ArmedFor(other) == old(ArmedFor(other))
    {
      timers.ClearRoom(code);
      armedVersions := armedVersions - {Upper(code)};
    }
  }
}
