/** users-service: the stored form of a match, with wire values instead of enums and its
    participants as an unordered collection. */
module MatchStorage {
  import opened Sequences
  import opened Domain
  import opened MatchHistory

  // ----- wire values -----

  function WireRole(role: ParticipantRole): string {
    if role == DANCER then "dancer" else "spectator"
  }

  function RoleFromWire(value: string): Option<ParticipantRole> {
    if value == "dancer" then Some(DANCER) else if value == "spectator" then Some(SPECTATOR) else None
  }

  function WireReason(reason: EndReason): string {
    match reason
    case SongEnd => "song-end"
    case NotEnoughDancers => "not-enough-dancers"
  }

  function ReasonFromWire(value: string): Option<EndReason> {
    if value == "song-end" then Some(SongEnd) else if value == "not-enough-dancers" then Some(NotEnoughDancers) else None
  }

  // ----- rows -----

  datatype ParticipantRow = ParticipantRow(playerId: Id, displayName: string, role: string,
                                           votes: Option<int>, wordsWon: Option<int>, score: Option<int>,
                                           rank: Option<int>, leftEarly: bool)

  datatype MatchRow = MatchRow(id: Id, roomCode: string, songId: Option<Id>, songTitle: Option<string>,
                               startedAt: int, finishedAt: int, winnerPlayerId: Option<Id>, endReason: string,
                               participants: seq<ParticipantRow>)

  function FromDomain(p: MatchParticipant): ParticipantRow {
    ParticipantRow(p.playerId, p.displayName, WireRole(p.role), p.votes, p.wordsWon, p.score, p.rank, p.leftEarly)
  }

  /** Only rows with a known role can be read back. */
  function ToParticipant(row: ParticipantRow): MatchParticipant {
    var role := RoleFromWire(row.role);
    MatchParticipant(row.playerId, row.displayName, if role.Some? then role.value else DANCER,
                     row.votes, row.wordsWon, row.score, row.rank, row.leftEarly)
  }

  predicate Readable(row: MatchRow) {
    && ReasonFromWire(row.endReason).Some?
    && forall k :: 0 <= k < |row.participants| ==> RoleFromWire(row.participants[k].role).Some?
  }

  function RowOfMatch(m: Match): MatchRow {
    MatchRow(m.id, m.roomCode, m.songId, m.songTitle, m.startedAt, m.finishedAt, m.winnerPlayerId,
             WireReason(m.endReason), Map(m.participants, FromDomain))
  }

  /** The match a row stands for, put through the constructor again; none for unknown wire values. */
  function MatchOfRow(row: MatchRow): Option<MatchReply> {
    if !Readable(row) then None
    else
      Some(MakeMatch(Match(row.id, row.roomCode, row.songId, row.songTitle, row.startedAt, row.finishedAt,
                           row.winnerPlayerId, ReasonFromWire(row.endReason).value, Map(row.participants, ToParticipant))))
  }

  class MatchEntity {
    const id: Id
    var roomCode: string
    var songId: Option<Id>
    var songTitle: Option<string>
    var startedAt: int
    var finishedAt: int
    var winnerPlayerId: Option<Id>
    var endReason: string
    var participants: seq<ParticipantRow>
    var newEntity: bool

    /** A match that is not stored yet. */
    constructor (id: Id)
      ensures this.id == id && newEntity && participants == []
    {
      this.id := id;
      participants, newEntity := [], true;
    }

    function Row(): MatchRow
      reads this
    {
      MatchRow(id, roomCode, songId, songTitle, startedAt, finishedAt, winnerPlayerId, endReason, participants)
    }

    /** Overwrites every column and all participants, but only with the match of the same id. */
    method ReplaceWith(m: Match) returns (replaced: bool)
      modifies this
      ensures replaced <==> m.id == id
      ensures Row() == if replaced then RowOfMatch(m) else old(Row())
      ensures newEntity == old(newEntity)
    {
      if id != m.id {
        return false;
      }
      roomCode, songId, songTitle := m.roomCode, m.songId, m.songTitle;
      startedAt, finishedAt, winnerPlayerId := m.startedAt, m.finishedAt, m.winnerPlayerId;
      endReason := WireReason(m.endReason);
      participants := [];
      for k := 0 to |m.participants|
        modifies this`participants
        invariant |participants| == k && forall j :: 0 <= j < k ==> participants[j] == FromDomain(m.participants[j])
      {
        participants := participants + [FromDomain(m.participants[k])];
      }
      assert participants == Map(m.participants, FromDomain);
      return true;
    }

    method ToDomain() returns (reply: Option<MatchReply>)
      ensures reply == MatchOfRow(Row())
    {
      if !Readable(Row()) {
        return None;
      }
      var made := NewMatch(Match(id, roomCode, songId, songTitle, startedAt, finishedAt, winnerPlayerId,
                                 ReasonFromWire(endReason).value, Map(participants, ToParticipant)));
      return Some(made);
    }

    method MarkStored()
      modifies this`newEntity
      ensures !newEntity
    {
      newEntity := false;
    }
  }

  /** What the columns hold: the match's own values, with its roles and reason in words. */
  lemma ColumnsHoldTheMatch(m: Match)
    ensures var row := RowOfMatch(m);
            && row.id == m.id && row.roomCode == m.roomCode && row.songId == m.songId && row.songTitle == m.songTitle
            && row.startedAt == m.startedAt && row.finishedAt == m.finishedAt && row.winnerPlayerId == m.winnerPlayerId
            && row.endReason == (if m.endReason == SongEnd then "song-end" else "not-enough-dancers")
            && |row.participants| == |m.participants|
            && forall k :: 0 <= k < |m.participants| ==>
                 var line, p := row.participants[k], m.participants[k];
                 && line.playerId == p.playerId && line.displayName == p.displayName && line.leftEarly == p.leftEarly
                 && line.role == (if p.role == DANCER then "dancer" else "spectator")
                 && line.votes == p.votes && line.wordsWon == p.wordsWon && line.score == p.score && line.rank == p.rank
  {
  }

  // ----- what is stored comes back -----

  /** An accepted match is put through the constructor again without a change. */
  lemma MakingTwice(m: Match)
    requires MakeMatch(m).Accepted?
    ensures MakeMatch(MakeMatch(m).match_) == MakeMatch(m)
  {
    var made := MakeMatch(m).match_;
    AcceptedExactly(m);
    NormalizingTwice(m.roomCode);
    MatchIsCanonical(made, m.participants);
    assert made.(participants := m.participants) == m.(roomCode := made.roomCode);
  }

  lemma ParticipantsRoundTrip(participants: seq<MatchParticipant>)
    ensures Map(Map(participants, FromDomain), ToParticipant) == participants
  {
  }

  lemma RolesReadable(rows: seq<ParticipantRow>, participants: seq<MatchParticipant>)
    requires multiset(rows) == multiset(Map(participants, FromDomain))
    ensures forall k :: 0 <= k < |rows| ==> RoleFromWire(rows[k].role).Some?
  {
    forall k | 0 <= k < |rows| ensures RoleFromWire(rows[k].role).Some? {
      assert rows[k] in multiset(Map(participants, FromDomain));
      assert rows[k] in Map(participants, FromDomain);
    }
  }

  lemma ReasonRoundTrip(reason: EndReason)
    ensures ReasonFromWire(WireReason(reason)) == Some(reason)
  {
  }

  /** Reading back a row in another order submits the same match in that order. */
  lemma RowIsResubmitted(made: Match, rows: seq<ParticipantRow>)
    requires multiset(rows) == multiset(Map(made.participants, FromDomain))
    ensures MatchOfRow(RowOfMatch(made).(participants := rows)) == Some(MakeMatch(made.(participants := Map(rows, ToParticipant))))
  {
    RolesReadable(rows, made.participants);
    ReasonRoundTrip(made.endReason);
    var row := RowOfMatch(made).(participants := rows);
    assert Readable(row);
    assert made.(participants := Map(rows, ToParticipant))
        == Match(row.id, row.roomCode, row.songId, row.songTitle, row.startedAt, row.finishedAt,
                 row.winnerPlayerId, ReasonFromWire(row.endReason).value, Map(row.participants, ToParticipant));
  }

  lemma PermutedRowsReadAlike(participants: seq<MatchParticipant>, rows: seq<ParticipantRow>)
    requires multiset(rows) == multiset(Map(participants, FromDomain))
    ensures multiset(Map(rows, ToParticipant)) == multiset(participants)
  {
    MapPermutes(rows, Map(participants, FromDomain), ToParticipant);
    ParticipantsRoundTrip(participants);
  }

  /** A match that was accepted and stored is the match that is read, in whatever order
      the database hands out its participants. */
  lemma StoredMatchComesBack(m: Match, rows: seq<ParticipantRow>)
    requires MakeMatch(m).Accepted?
    requires multiset(rows) == multiset(RowOfMatch(MakeMatch(m).match_).participants)
    ensures MatchOfRow(RowOfMatch(MakeMatch(m).match_).(participants := rows)) == Some(MakeMatch(m))
  {
    var made := MakeMatch(m).match_;
    RowIsResubmitted(made, rows);
    PermutedRowsReadAlike(made.participants, rows);
    MatchIsCanonical(made, Map(rows, ToParticipant));
    MakingTwice(m);
  }
}
