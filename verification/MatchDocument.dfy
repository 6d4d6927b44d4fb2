/** The document battle-service hands over when a battle finishes, and why users-service
    always accepts it. */
module MatchDocument {
  import opened Sequences
  import opened Text
  import opened Domain
  import opened RoomInvariant
  import opened MatchHistory
  import Scoring
  import MatchStorage

  /** The line of a dancer; of two lines for one dancer the later counts. */
  function LineOf(standings: seq<Standing>, id: Id): (r: Option<Standing>)
    ensures r.Some? <==> id in Scoring.StandingIds(standings)
    ensures r.Some? ==> r.value in standings && r.value.dancerId == id
  {
    if standings == [] then None
    else
      var before, last := standings[..|standings| - 1], standings[|standings| - 1];
      assert Scoring.StandingIds(standings) == Scoring.StandingIds(before) + [last.dancerId];
      if last.dancerId == id then Some(last) else LineOf(before, id)
  }

  function DancerRecord(b: Battle, standings: seq<Standing>, entry: RosterEntry): MatchParticipant {
    var left := entry.id !in b.dancerIds;
    match LineOf(standings, entry.id)
    case Some(line) =>
      MatchParticipant(entry.id, entry.displayName, DANCER, Some(line.votes), Some(line.wordsWon), Some(line.score), Some(line.rank), left)
    case None =>
      MatchParticipant(entry.id, entry.displayName, DANCER, None, Some(Scoring.WordsWonBy(b, entry.id)), None, None, left)
  }

  function SpectatorRecord(players: seq<Player>, entry: RosterEntry): MatchParticipant {
    MatchParticipant(entry.id, entry.displayName, SPECTATOR, None, None, None, None, !Seated(players, entry.id))
  }

  function DancerRecords(b: Battle, standings: seq<Standing>): (r: seq<MatchParticipant>)
    ensures |r| == |b.roster| && forall k :: 0 <= k < |r| ==> r[k] == DancerRecord(b, standings, b.roster[k])
  {
    seq(|b.roster|, k requires 0 <= k < |b.roster| => DancerRecord(b, standings, b.roster[k]))
  }

  function SpectatorRecords(players: seq<Player>, audience: seq<RosterEntry>): (r: seq<MatchParticipant>)
    ensures |r| == |audience| && forall k :: 0 <= k < |r| ==> r[k] == SpectatorRecord(players, audience[k])
  {
    seq(|audience|, k requires 0 <= k < |audience| => SpectatorRecord(players, audience[k]))
  }

  /** Dancers first, then spectators. */
  function Participants(room: Room, b: Battle, result: BattleResult): seq<MatchParticipant> {
    DancerRecords(b, result.standings) + SpectatorRecords(room.players, b.audience)
  }

  /** The document of a room's finished battle, if it has one. */
  function FromFinishedRoom(room: Room): Option<Match> {
    if room.status != Finished || room.battle.None? then None
    else
      var b := room.battle.value;
      if b.result.None? || b.finishedAt.None? || b.endReason.None? then None
      else
        Some(Match(b.id, room.code,
                   if b.song.Some? then Some(b.song.value.id) else None,
                   if b.song.Some? then Some(b.song.value.title) else None,
                   b.startedAt, b.finishedAt.value, b.result.value.winnerId, b.endReason.value,
                   Participants(room, b, b.result.value)))
  }

  // ----- what is known of a battle that ended in a reachable room -----

  ghost predicate Closed(b: Battle) {
    && Distinct(CastIds(b)) && Distinct(b.dancerIds)
    && (forall id :: id in b.dancerIds ==> id in EntryIds(b.roster))
  }

  lemma FinishedIsClosed(fold: Fold, room: Room)
    requires Inv(fold, room) && room.status == Finished
    ensures room.battle.Some? && Closed(room.battle.value)
    ensures room.battle.value.result == Some(Scoring.ResultOf(room.battle.value))
    ensures room.battle.value.finishedAt.Some? && room.battle.value.endReason.Some?
  {
    DancersDistinct(room.code, room.battle.value);
  }

  /** The participants of the document of a battle that ended. */
  function Listed(room: Room, b: Battle): seq<MatchParticipant> {
    Participants(room, b, Scoring.ResultOf(b))
  }

  /** A finished room, and no other, has a document. */
  lemma DocumentOfFinished(fold: Fold, room: Room)
    requires Inv(fold, room)
    ensures FromFinishedRoom(room).Some? <==> room.status == Finished
    ensures room.status == Finished ==>
              && room.battle.Some? && room.battle.value.finishedAt.Some?
              && var m, b := FromFinishedRoom(room).value, room.battle.value;
                 && m.participants == Listed(room, b) && m.winnerPlayerId == Scoring.ResultOf(b).winnerId
                 && m.id == b.id && m.roomCode == room.code && m.startedAt == b.startedAt && m.finishedAt == b.finishedAt.value
                 && b.song.Some? && m.songId == Some(b.song.value.id) && m.songTitle == Some(b.song.value.title)
                 && Some(m.endReason) == b.endReason
  {
    if room.status == Finished { FinishedIsClosed(fold, room); }
  }

  lemma DancerRecordIds(b: Battle, standings: seq<Standing>)
    ensures PlayerIds(DancerRecords(b, standings)) == EntryIds(b.roster)
  {
  }

  lemma SpectatorRecordIds(players: seq<Player>, audience: seq<RosterEntry>)
    ensures PlayerIds(SpectatorRecords(players, audience)) == EntryIds(audience)
  {
  }

  lemma ListedAre(room: Room, b: Battle)
    ensures PlayerIds(Listed(room, b)) == CastIds(b)
  {
    DancerRecordIds(b, Scoring.ResultOf(b).standings);
    SpectatorRecordIds(room.players, b.audience);
    MapConcat(DancerRecords(b, Scoring.ResultOf(b).standings), SpectatorRecords(room.players, b.audience), PlayerIdOf);
  }

  lemma ListedAt(room: Room, b: Battle, k: nat)
    requires k < |b.roster| + |b.audience|
    ensures |Listed(room, b)| == |b.roster| + |b.audience|
    ensures Listed(room, b)[k] == if k < |b.roster| then DancerRecord(b, Scoring.ResultOf(b).standings, b.roster[k])
                                  else SpectatorRecord(room.players, b.audience[k - |b.roster|])
  {
  }

  /** The document lists each dancer of the roster and each spectator of the start exactly once. */
  lemma DocumentListsEveryoneOnce(fold: Fold, room: Room)
    requires Inv(fold, room) && room.status == Finished
    ensures room.battle.Some? && FromFinishedRoom(room).Some?
    ensures PlayerIds(FromFinishedRoom(room).value.participants) == CastIds(room.battle.value)
    ensures Distinct(PlayerIds(FromFinishedRoom(room).value.participants))
  {
    DocumentOfFinished(fold, room);
    FinishedIsClosed(fold, room);
    ListedAre(room, room.battle.value);
  }

  /** So users-service never refuses it for a repeated player, and keeps everyone in it. */
  lemma DocumentIsAccepted(fold: Fold, room: Room)
    requires Inv(fold, room) && room.status == Finished
    ensures FromFinishedRoom(room).Some?
    ensures MakeMatch(FromFinishedRoom(room).value).Accepted?
    ensures multiset(MakeMatch(FromFinishedRoom(room).value).match_.participants) == multiset(FromFinishedRoom(room).value.participants)
  {
    DocumentListsEveryoneOnce(fold, room);
    AcceptedExactly(FromFinishedRoom(room).value);
  }

  // ----- ranks -----

  /** What the document says of a dancer who stayed, and of one who left. */
  ghost predicate Describes(b: Battle, p: MatchParticipant) {
    && p.role == DANCER && (p.leftEarly <==> p.playerId !in b.dancerIds)
    && p.wordsWon == Some(Scoring.WordsWonBy(b, p.playerId))
    && (if p.leftEarly then p.votes.None? && p.score.None? && p.rank.None?
        else
          var score := Scoring.ScoreOf(b, b.scoring, p.playerId);
          && p.votes == Some(Scoring.VotesFor(b, p.playerId)) && p.score == Some(score)
          && p.rank == Some(1 + Scoring.HigherScores(b, b.scoring, score)))
  }

  lemma LineDescribes(b: Battle, line: Standing)
    requires line in Scoring.Standings(b, b.scoring)
    ensures var score := Scoring.ScoreOf(b, b.scoring, line.dancerId);
            && line.wordsWon == Scoring.WordsWonBy(b, line.dancerId) && line.votes == Scoring.VotesFor(b, line.dancerId)
            && line.score == score && line.rank == 1 + Scoring.HigherScores(b, b.scoring, score)
  {
    var s := Scoring.Standings(b, b.scoring);
    Scoring.StandingsDescribeDancers(b, b.scoring);
    var j :| 0 <= j < |s| && s[j] == line;
  }

  lemma DancersHaveLines(b: Battle, id: Id)
    ensures LineOf(Scoring.Standings(b, b.scoring), id).Some? <==> id in b.dancerIds
  {
    Scoring.StandingsDescribeDancers(b, b.scoring);
  }

  lemma RecordDescribes(b: Battle, entry: RosterEntry)
    ensures Describes(b, DancerRecord(b, Scoring.Standings(b, b.scoring), entry))
  {
    var line := LineOf(Scoring.Standings(b, b.scoring), entry.id);
    DancersHaveLines(b, entry.id);
    if line.Some? { LineDescribes(b, line.value); }
  }

  /** A dancer is unranked exactly when they left early, and then keeps only the words they
      won; a ranked one carries their votes, words, score and rank. */
  lemma UnrankedExactlyWhenLeft(fold: Fold, room: Room, k: nat)
    requires Inv(fold, room) && room.status == Finished && room.battle.Some? && k < |room.battle.value.roster|
    ensures FromFinishedRoom(room).Some? && k < |FromFinishedRoom(room).value.participants|
    ensures var p := FromFinishedRoom(room).value.participants[k];
            && p.playerId == room.battle.value.roster[k].id && p.displayName == room.battle.value.roster[k].displayName
            && (p.leftEarly <==> p.rank.None?) && Describes(room.battle.value, p)
  {
    DocumentOfFinished(fold, room);
    ListedAt(room, room.battle.value, k);
    RecordDescribes(room.battle.value, room.battle.value.roster[k]);
  }

  /** A spectator carries no statistics and is marked as gone exactly when they left. */
  lemma SpectatorsCarryNothing(fold: Fold, room: Room, k: nat)
    requires Inv(fold, room) && room.status == Finished && room.battle.Some? && k < |room.battle.value.audience|
    ensures FromFinishedRoom(room).Some? && |room.battle.value.roster| + k < |FromFinishedRoom(room).value.participants|
    ensures FromFinishedRoom(room).value.participants[|room.battle.value.roster| + k]
         == MatchParticipant(room.battle.value.audience[k].id, room.battle.value.audience[k].displayName, SPECTATOR,
                             None, None, None, None, !Seated(room.players, room.battle.value.audience[k].id))
  {
    DocumentOfFinished(fold, room);
    ListedAt(room, room.battle.value, |room.battle.value.roster| + k);
  }

  function Higher(b: Battle, id: Id): set<nat> {
    set j | 0 <= j < |b.dancerIds| && Scoring.ScoreOf(b, b.scoring, b.dancerIds[j]) > Scoring.ScoreOf(b, b.scoring, id)
  }

  /** Nobody scores more than the winner, and somebody scores more than any other dancer. */
  lemma RankOneIsTheWinner(b: Battle, winner: Id, id: Id)
    requires Scoring.BeatsAll(b, b.scoring, winner) && id in b.dancerIds
    ensures Scoring.HigherScores(b, b.scoring, Scoring.ScoreOf(b, b.scoring, id)) == 0 <==> id == winner
  {
    assert Scoring.HigherScores(b, b.scoring, Scoring.ScoreOf(b, b.scoring, id)) == |Higher(b, id)|;
    if id == winner {
      forall j | 0 <= j < |b.dancerIds| ensures j !in Higher(b, id) {
        assert b.dancerIds[j] in b.dancerIds;
      }
      assert Higher(b, id) == {};
    } else {
      var j :| 0 <= j < |b.dancerIds| && b.dancerIds[j] == winner;
      assert j in Higher(b, id);
    }
  }

  lemma OnlyWinnerOnTop(room: Room, b: Battle, winner: Id, k: nat)
    requires Closed(b) && Scoring.BeatsAll(b, b.scoring, winner) && k < |Listed(room, b)|
    ensures var p := Listed(room, b)[k];
            && (p.rank == Some(1) <==> p.playerId == winner)
            && (p.playerId == winner ==> p.role == DANCER && !p.leftEarly)
  {
    var p := Listed(room, b)[k];
    ListedAt(room, b, k);
    if k < |b.roster| {
      RecordDescribes(b, b.roster[k]);
      if p.playerId in b.dancerIds { RankOneIsTheWinner(b, winner, p.playerId); }
    } else {
      RosterDistinct(b);
      assert EntryIds(b.audience)[k - |b.roster|] == p.playerId;
    }
  }

  /** The winner is the only participant of rank 1, and one of the dancers who stayed. */
  ghost predicate TopsTheList(participants: seq<MatchParticipant>, winner: Id) {
    exists k :: 0 <= k < |participants|
             && participants[k].playerId == winner && participants[k].role == DANCER && !participants[k].leftEarly
             && forall j :: 0 <= j < |participants| ==> (participants[j].rank == Some(1) <==> j == k)
  }

  lemma WinnerTops(room: Room, b: Battle, winner: Id)
    requires Closed(b) && Scoring.BeatsAll(b, b.scoring, winner)
    ensures TopsTheList(Listed(room, b), winner)
  {
    var p := Listed(room, b);
    var k :| 0 <= k < |b.roster| && EntryIds(b.roster)[k] == winner;
    ListedAre(room, b);
    OnlyWinnerOnTop(room, b, winner, k);
    assert CastIds(b)[k] == winner;
    forall j | 0 <= j < |p| ensures p[j].rank == Some(1) <==> j == k {
      OnlyWinnerOnTop(room, b, winner, j);
      assert PlayerIds(p)[j] == CastIds(b)[j];
    }
  }

  /** A winner in the document is one of the dancers listed, stayed to the end, and is the
      only participant of rank 1. */
  lemma WinnerIsListed(fold: Fold, room: Room)
    requires Inv(fold, room) && room.status == Finished
    ensures FromFinishedRoom(room).Some?
    ensures var m := FromFinishedRoom(room).value;
            m.winnerPlayerId.Some? ==> TopsTheList(m.participants, m.winnerPlayerId.value)
  {
    DocumentOfFinished(fold, room);
    FinishedIsClosed(fold, room);
    var b := room.battle.value;
    if Scoring.ResultOf(b).winnerId.Some? {
      var winner := Scoring.ResultOf(b).winnerId.value;
      Scoring.WinnerBeatsAll(b, winner);
      WinnerTops(room, b, winner);
    }
  }

  /** From the battle to the history: the document of any room that a series of updates
      leads to is accepted, and what is stored of it comes back unchanged in whatever
      order the participants are read. */
  lemma ReachableBattleIsRecorded(fold: Fold, room: Room, rows: seq<MatchStorage.ParticipantRow>)
    requires Reachable(fold, room) && room.status == Finished
    ensures FromFinishedRoom(room).Some? && MakeMatch(FromFinishedRoom(room).value).Accepted?
    ensures var m := MakeMatch(FromFinishedRoom(room).value).match_;
            var row := MatchStorage.RowOfMatch(m);
            multiset(rows) == multiset(row.participants) ==>
              MatchStorage.MatchOfRow(row.(participants := rows)) == Some(Accepted(m))
  {
    ReachableInv(fold, room);
    DocumentIsAccepted(fold, room);
    var m := FromFinishedRoom(room).value;
    if multiset(rows) == multiset(MatchStorage.RowOfMatch(MakeMatch(m).match_).participants) {
      MatchStorage.StoredMatchComesBack(m, rows);
    }
  }
}
