/** The stores of rooms: what one atomic update does, the in-memory store that does
    it in one step, and the store that reads, decides, compares and sets. */
module RoomStore {
  import opened Sequences
  import opened Text
  import opened Domain

  /** A decision that is taken anew on every attempt, counted from 1: it may draw and read
      the clock again. */
  type Decider = nat -> RoomMutation

  /** What an update answers its caller. */
  datatype Reply =
    | Stored(room: Room)
    | Kept(room: Room)
    | Deleted
    | Failed(error: ErrorCode)
    | StaleWrite
    | GaveUp

  /** One atomic update of the row of a room: the specification of both stores. */
  function Atomic(row: Option<Room>, mutate: RoomMutation): (Option<Room>, Reply) {
    match row
    case None => (None, Failed(ROOM_NOT_FOUND))
    case Some(room) =>
      match mutate(room)
      case Unchanged => (row, Kept(room))
      case Refused(error) => (row, Failed(error))
      case Removed => (None, Deleted)
      case Changed(next) => var stored := next.(version := room.version + 1); (Some(stored), Stored(stored))
  }

  function RowOf(rows: map<string, Room>, key: string): Option<Room> {
    if key in rows then Some(rows[key]) else None
  }

  function WithRow(rows: map<string, Room>, key: string, row: Option<Room>): map<string, Room> {
    match row
    case None => rows - {key}
    case Some(room) => rows[key := room]
  }

  /** Process-local store; room codes are looked up without regard to case. */
  class InMemoryRoomRepository {
    var rooms: map<string, Room>

    constructor ()
      ensures rooms == map[]
    {
      rooms := map[];
    }

    method FindByCode(code: string) returns (room: Option<Room>)
      ensures room == RowOf(rooms, Upper(code))
    {
      room := if Upper(code) in rooms then Some(rooms[Upper(code)]) else None;
    }

    /** Stores a brand-new room unless its code is taken. */
    method Insert(room: Room) returns (inserted: bool)
      modifies this
      ensures inserted <==> Upper(room.code) !in old(rooms)
      ensures rooms == if inserted then old(rooms)[Upper(room.code) := room] else old(rooms)
    {
      if Upper(room.code) in rooms {
        return false;
      }
      rooms := rooms[Upper(room.code) := room];
      return true;
    }

    /** Reads, decides, checks the version and writes in one step. For a mutation that
        keeps the version this is exactly the atomic update, and no other room moves;
        a mutation that answers with a room of another version is refused. */
    method Update(code: string, mutate: RoomMutation) returns (reply: Reply)
      modifies this
      ensures var row := RowOf(old(rooms), Upper(code));
              if row.Some? && mutate(row.value).Changed? && mutate(row.value).room.version != row.value.version
              then reply == StaleWrite && rooms == old(rooms)
              else reply == Atomic(row, mutate).1 && RowOf(rooms, Upper(code)) == Atomic(row, mutate).0
      ensures forall key :: key != Upper(code) ==> RowOf(rooms, key) == RowOf(old(rooms), key)
    {
      if Upper(code) !in rooms {
        return Failed(ROOM_NOT_FOUND);
      }
      var current := rooms[Upper(code)];
      match mutate(current) {
        case Unchanged => reply := Kept(current);
        case Refused(error) => reply := Failed(error);
        case Removed =>
          rooms := rooms - {Upper(code)};
          reply := Deleted;
        case Changed(next) =>
          if next.version != current.version {
            return StaleWrite;
          }
          var stored := next.(version := current.version + 1);
          rooms := rooms[Upper(code) := stored];
          reply := Stored(stored);
      }
    }
  }

  /** The row after other writers' atomic updates, one after another. */
  function AfterAll(row: Option<Room>, mutations: seq<RoomMutation>): Option<Room>
    decreases |mutations|
  {
    if mutations == [] then row else AfterAll(Atomic(row, mutations[0]).0, mutations[1..])
  }

  /** A row of which nothing newer was stored: still the room seen, or gone, or of a higher version. */
  ghost predicate SeenOrNewer(seen: Room, row: Option<Room>) {
    row.Some? ==> row.value.version > seen.version || row.value == seen
  }

  lemma {:induction false} OthersOnlyAdvance(seen: Room, row: Option<Room>, mutations: seq<RoomMutation>)
    requires SeenOrNewer(seen, row)
    ensures SeenOrNewer(seen, AfterAll(row, mutations))
    decreases |mutations|
  {
    if mutations != [] {
      OthersOnlyAdvance(seen, Atomic(row, mutations[0]).0, mutations[1..]);
    }
  }

  lemma {:induction false} AfterAllThen(row: Option<Room>, a: seq<RoomMutation>, b: seq<RoomMutation>)
    ensures AfterAll(row, a + b) == AfterAll(AfterAll(row, a), b)
    decreases |a|
  {
    if a == [] {
      assert a + b == b;
    } else {
      assert (a + b)[0] == a[0] && (a + b)[1..] == a[1..] + b;
      AfterAllThen(Atomic(row, a[0]).0, a[1..], b);
    }
  }

  /** Everything other writers did while the first n attempts were under way. */
  function RivalsDuring(rivals: seq<seq<RoomMutation>>, n: nat): seq<RoomMutation>
    requires n <= |rivals|
  {
    if n == 0 then [] else RivalsDuring(rivals, n - 1) + rivals[n - 1]
  }

  /** A remote table written only by comparing versions. */
  class RemoteRoomStore {
    var rows: map<string, Room>
    var conflicts: nat
    const maxAttempts: nat

    constructor (maxAttempts: nat)
      ensures rows == map[] && conflicts == 0 && this.maxAttempts == maxAttempts
    {
      rows, conflicts, this.maxAttempts := map[], 0, maxAttempts;
    }

    /** Writes the decided state only if the row still has the version it was decided on. */
    method CompareAndSet(code: string, expectedVersion: nat, next: Option<Room>) returns (written: bool)
      modifies this`rows
      ensures written <==> code in old(rows) && old(rows)[code].version == expectedVersion
      ensures !written ==> rows == old(rows)
      ensures written && next.None? ==> rows == old(rows) - {code}
      ensures written && next.Some? ==> rows == old(rows)[code := next.value.(version := expectedVersion + 1)]
    {
      if code !in rows || rows[code].version != expectedVersion {
        return false;
      }
      match next {
        case None => rows := rows - {code};
        case Some(room) => rows := rows[code := room.(version := expectedVersion + 1)];
      }
      return true;
    }

    /** Other writers' updates of the same row, between two steps of ours. */
    method OthersWrite(code: string, mutations: seq<RoomMutation>)
      modifies this`rows
      ensures RowOf(rows, code) == AfterAll(RowOf(old(rows), code), mutations)
      ensures forall key :: key != code ==> RowOf(rows, key) == RowOf(old(rows), key)
    {
      var row := RowOf(rows, code);
      var k := 0;
      while k < |mutations|
        invariant 0 <= k <= |mutations|
        invariant AfterAll(row, mutations[k..]) == AfterAll(RowOf(rows, code), mutations)
      {
        assert mutations[k..][1..] == mutations[k + 1..];
        row := Atomic(row, mutations[k]).0;
        k := k + 1;
      }
      rows := WithRow(rows, code, row);
    }

    /** One attempt: read, decide, and compare and set after the rivals moved. Nothing is
        answered exactly when the write met a newer row; otherwise the attempt is one
        atomic update, of the row read when nothing is written and of the row met when
        something is. */
    method Attempt(code: string, mutate: RoomMutation, rivals: seq<RoomMutation>) returns (reply: Option<Reply>)
      modifies this`rows
      ensures var read := RowOf(old(rows), code);
              var met := AfterAll(read, rivals);
              match reply
              case None => RowOf(rows, code) == met
              case Some(answer) =>
                && answer != GaveUp
                && (RowOf(rows, code), answer) == Atomic(if answer.Stored? || answer.Deleted? then met else read, mutate)
    {
      if code !in rows {
        return Some(Failed(ROOM_NOT_FOUND));
      }
      var current := rows[code];
      var next := mutate(current);
      if next.Unchanged? {
        return Some(Kept(current));
      }
      if next.Refused? {
        return Some(Failed(next.error));
      }
      OthersWrite(code, rivals);
      OthersOnlyAdvance(current, Some(current), rivals);
      var written := CompareAndSet(code, current.version, if next.Changed? then Some(next.room) else None);
      if !written {
        return None;
      }
      reply := Some(if next.Changed? then Stored(next.room.(version := current.version + 1)) else Deleted);
    }

    /** Read, decide, compare and set, retried on a conflict. `rivals[k]` is whatever
        other writers do to the room between the read and the write of attempt k + 1.
        The update takes effect exactly as one atomic update on the state left by the
        rivals before it, or, when every attempt lost, not at all. */
    method Update(code: string, mutate: Decider, rivals: seq<seq<RoomMutation>>) returns (reply: Reply, ghost attempts: nat)
      requires |rivals| == maxAttempts
      modifies this
      ensures 0 <= attempts <= maxAttempts
      ensures reply == GaveUp ==>
                && attempts == maxAttempts && conflicts == old(conflicts) + maxAttempts
                && RowOf(rows, code) == AfterAll(RowOf(old(rows), code), RivalsDuring(rivals, maxAttempts))
      ensures reply != GaveUp ==>
                && attempts >= 1 && conflicts == old(conflicts) + attempts - 1
                && var wrote := reply.Stored? || reply.Deleted?;
                   var before := AfterAll(RowOf(old(rows), code), RivalsDuring(rivals, if wrote then attempts else attempts - 1));
                   (RowOf(rows, code), reply) == Atomic(before, mutate(attempts))
    {
      ghost var start := RowOf(rows, code);
      attempts := 0;
      var attempt := 0;
      while attempt < maxAttempts
        invariant 0 <= attempt <= maxAttempts && attempts == attempt
        invariant conflicts == old(conflicts) + attempt
        invariant RowOf(rows, code) == AfterAll(start, RivalsDuring(rivals, attempt))
      {
        AfterAllThen(start, RivalsDuring(rivals, attempt), rivals[attempt]);
        attempts := attempt + 1;
        var answer := Attempt(code, mutate(attempt + 1), rivals[attempt]);
        if answer.Some? {
          return answer.value, attempts;
        }
        conflicts := conflicts + 1;
        attempt := attempt + 1;
      }
      reply := GaveUp;
    }
  }
}
