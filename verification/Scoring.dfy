/** The ranking of a battle: what it means, and the loops that compute it. */
module Scoring {
  import opened Sequences
  import opened Domain

  // ----- what the ranking means -----

  function VotesFor(b: Battle, dancer: Id): nat {
    |set v | v in b.votes && b.votes[v] == dancer|
  }

  function WordsWonBy(b: Battle, dancer: Id): nat {
    if dancer in b.wordsWon then b.wordsWon[dancer] else 0
  }

  function ScoreOf(b: Battle, points: ScoringPoints, dancer: Id): int {
    points.votePoints * VotesFor(b, dancer) + points.wordBonusPoints * WordsWonBy(b, dancer)
  }

  /** The roster name of a dancer; of two entries with one id the later counts. */
  function NameIn(roster: seq<RosterEntry>, id: Id): string {
    if roster == [] then id
    else if roster[|roster| - 1].id == id then roster[|roster| - 1].displayName
    else NameIn(roster[..|roster| - 1], id)
  }

  /** A line of the table together with its place in the battle's dancer list. */
  datatype Row = Row(order: nat, standing: Standing)

  predicate Above(a: Row, b: Row) {
    a.standing.score > b.standing.score || (a.standing.score == b.standing.score && a.order <= b.order)
  }

  function UnrankedRow(b: Battle, points: ScoringPoints, k: nat): Row
    requires k < |b.dancerIds|
  {
    var id := b.dancerIds[k];
    Row(k, Standing(id, NameIn(b.roster, id), VotesFor(b, id), WordsWonBy(b, id), ScoreOf(b, points, id), 0))
  }

  function Rows(b: Battle, points: ScoringPoints): seq<Row> {
    seq(|b.dancerIds|, k requires 0 <= k < |b.dancerIds| => UnrankedRow(b, points, k))
  }

  function SortedRows(b: Battle, points: ScoringPoints): seq<Row> {
    Sort(Rows(b, points), Above)
  }

  /** How many dancers score strictly more than `score`. */
  function HigherScores(b: Battle, points: ScoringPoints, score: int): nat {
    |set k | 0 <= k < |b.dancerIds| && ScoreOf(b, points, b.dancerIds[k]) > score|
  }

  /** The ranking: best score first, ties in dancer-list order, rank one more
      than the number of strictly higher scores. */
  function Standings(b: Battle, points: ScoringPoints): seq<Standing> {
    var rows := SortedRows(b, points);
    seq(|rows|, k requires 0 <= k < |rows| =>
      rows[k].standing.(rank := 1 + HigherScores(b, points, rows[k].standing.score)))
  }

  function Leaders(standings: seq<Standing>): seq<Standing> {
    if standings == [] then []
    else if standings[0].rank == 1 then [standings[0]] + Leaders(standings[1..])
    else Leaders(standings[1..])
  }

  function ResultOf(b: Battle): BattleResult {
    var standings := Standings(b, b.scoring);
    var leaders := Leaders(standings);
    BattleResult(standings, if |leaders| == 1 then Some(leaders[0].dancerId) else None)
  }

  // ----- the ranking has the promised shape -----

  lemma AboveIsTotal()
    ensures TotalPreorder(Above)
  {
  }

  lemma RowsSorted(b: Battle, points: ScoringPoints)
    ensures SortedBy(SortedRows(b, points), Above)
    ensures multiset(SortedRows(b, points)) == multiset(Rows(b, points))
    ensures |SortedRows(b, points)| == |b.dancerIds|
  {
    AboveIsTotal();
    SortSorts(Rows(b, points), Above);
    SortPermutes(Rows(b, points), Above);
  }

  /** Every sorted row is the row of one dancer, and each dancer has exactly one. */
  lemma RowAt(b: Battle, points: ScoringPoints, k: nat)
    requires k < |b.dancerIds|
    ensures |SortedRows(b, points)| == |b.dancerIds|
    ensures SortedRows(b, points)[k].order < |b.dancerIds|
    ensures SortedRows(b, points)[k] == UnrankedRow(b, points, SortedRows(b, points)[k].order)
  {
    RowsSorted(b, points);
    assert SortedRows(b, points)[k] in multiset(Rows(b, points));
  }

  lemma RowOf(b: Battle, points: ScoringPoints, j: nat) returns (k: nat)
    requires j < |b.dancerIds|
    ensures |SortedRows(b, points)| == |b.dancerIds|
    ensures k < |b.dancerIds| && SortedRows(b, points)[k] == UnrankedRow(b, points, j)
  {
    RowsSorted(b, points);
    assert Rows(b, points)[j] in multiset(SortedRows(b, points));
    k :| 0 <= k < |b.dancerIds| && SortedRows(b, points)[k] == Rows(b, points)[j];
  }

  lemma OrdersDiffer(b: Battle, points: ScoringPoints, i: nat, j: nat)
    requires i < j < |b.dancerIds|
    ensures |SortedRows(b, points)| == |b.dancerIds|
    ensures SortedRows(b, points)[i].order != SortedRows(b, points)[j].order
  {
    RowsSorted(b, points);
    PermutationDistinct(Rows(b, points), SortedRows(b, points));
    RowAt(b, points, i);
    RowAt(b, points, j);
  }

  function OrdersBefore(rows: seq<Row>, k: nat): set<nat>
    requires k <= |rows|
  {
    set i | 0 <= i < k :: rows[i].order
  }

  lemma {:induction false} SizeOfOrdersBefore(rows: seq<Row>, k: nat)
    requires k <= |rows|
    requires forall i, j :: 0 <= i < j < |rows| ==> rows[i].order != rows[j].order
    ensures |OrdersBefore(rows, k)| == k
  {
    if k > 0 {
      SizeOfOrdersBefore(rows, k - 1);
      assert OrdersBefore(rows, k) == OrdersBefore(rows, k - 1) + {rows[k - 1].order};
    } else {
      assert OrdersBefore(rows, 0) == {};
    }
  }

  /** The rows whose score is strictly higher are exactly those before the first tied one. */
  lemma HigherAreBefore(b: Battle, points: ScoringPoints, k: nat)
    requires k < |b.dancerIds|
    ensures |SortedRows(b, points)| == |b.dancerIds|
    ensures k == 0 || SortedRows(b, points)[k - 1].standing.score > SortedRows(b, points)[k].standing.score
            ==> HigherScores(b, points, SortedRows(b, points)[k].standing.score) == k
  {
    RowsSorted(b, points);
    var rows := SortedRows(b, points);
    var score := rows[k].standing.score;
    if k == 0 || rows[k - 1].standing.score > score {
      var higher := set j | 0 <= j < |b.dancerIds| && ScoreOf(b, points, b.dancerIds[j]) > score;
      forall i, j | 0 <= i < j < |rows| ensures rows[i].order != rows[j].order {
        OrdersDiffer(b, points, i, j);
      }
      SizeOfOrdersBefore(rows, k);
      forall i | k < i < |rows| ensures rows[i].standing.score <= score {
        assert Above(rows[k], rows[i]);
      }
      forall j | j in higher ensures j in OrdersBefore(rows, k) {
        var i := RowOf(b, points, j);
        assert rows[i].standing.score > score;
      }
      forall i | 0 <= i < k ensures rows[i].order in higher {
        RowAt(b, points, i);
        assert i < k - 1 ==> Above(rows[i], rows[k - 1]);
      }
      assert higher == OrdersBefore(rows, k);
    }
  }

  function StandingIds(standings: seq<Standing>): (r: seq<Id>)
    ensures |r| == |standings| && forall k :: 0 <= k < |r| ==> r[k] == standings[k].dancerId
  {
    seq(|standings|, k requires 0 <= k < |standings| => standings[k].dancerId)
  }

  /** The table is about exactly the dancers still in the battle; each line
      carries their votes, words and score, and lines never go up in score. */
  lemma StandingsDescribeDancers(b: Battle, points: ScoringPoints)
    ensures var s := Standings(b, points);
            && |s| == |b.dancerIds|
            && (forall id :: id in StandingIds(s) <==> id in b.dancerIds)
            && (forall k :: 0 <= k < |s| ==>
                  && s[k].votes == VotesFor(b, s[k].dancerId)
                  && s[k].wordsWon == WordsWonBy(b, s[k].dancerId)
                  && s[k].score == points.votePoints * s[k].votes + points.wordBonusPoints * s[k].wordsWon
                  && s[k].rank == 1 + HigherScores(b, points, s[k].score))
            && (forall i, j :: 0 <= i < j < |s| ==> s[i].score >= s[j].score && s[i].rank <= s[j].rank)
  {
    RowsSorted(b, points);
    var rows, s := SortedRows(b, points), Standings(b, points);
    forall k | 0 <= k < |s|
      ensures s[k].dancerId in b.dancerIds
      ensures s[k].votes == VotesFor(b, s[k].dancerId) && s[k].wordsWon == WordsWonBy(b, s[k].dancerId)
      ensures s[k].score == points.votePoints * s[k].votes + points.wordBonusPoints * s[k].wordsWon
    {
      RowAt(b, points, k);
    }
    forall id | id in b.dancerIds ensures id in StandingIds(s) {
      var j :| 0 <= j < |b.dancerIds| && b.dancerIds[j] == id;
      var k := RowOf(b, points, j);
      assert StandingIds(s)[k] == id;
    }
    forall i, j | 0 <= i < j < |s| ensures s[i].score >= s[j].score && s[i].rank <= s[j].rank {
      assert Above(rows[i], rows[j]);
      SubsetSize(
        set k | 0 <= k < |b.dancerIds| && ScoreOf(b, points, b.dancerIds[k]) > s[i].score,
        set k | 0 <= k < |b.dancerIds| && ScoreOf(b, points, b.dancerIds[k]) > s[j].score);
    }
  }

  /** Among entries without repeated ids an id has one name. */
  lemma {:induction false} NameInRoster(roster: seq<RosterEntry>, k: nat)
    requires Distinct(EntryIds(roster)) && k < |roster|
    ensures NameIn(roster, roster[k].id) == roster[k].displayName
  {
    var n := |roster| - 1;
    if k < n {
      assert EntryIds(roster)[k] != EntryIds(roster)[n];
      assert EntryIds(roster[..n]) == EntryIds(roster)[..n];
      NameInRoster(roster[..n], k);
    }
  }

  /** In a roster without repeated ids every line bears the name its dancer has there. */
  ghost predicate NamedByRoster(roster: seq<RosterEntry>, standings: seq<Standing>) {
    Distinct(EntryIds(roster)) ==>
      forall line, entry :: line in standings && entry in roster && entry.id == line.dancerId ==> line.displayName == entry.displayName
  }

  lemma StandingsNameDancers(b: Battle, points: ScoringPoints)
    ensures NamedByRoster(b.roster, Standings(b, points))
  {
    if Distinct(EntryIds(b.roster)) {
      forall line, entry | line in Standings(b, points) && entry in b.roster && entry.id == line.dancerId
        ensures line.displayName == entry.displayName
      {
        var i :| 0 <= i < |Standings(b, points)| && Standings(b, points)[i] == line;
        var k :| 0 <= k < |b.roster| && b.roster[k] == entry;
        RowsSorted(b, points);
        RowAt(b, points, i);
        NameInRoster(b.roster, k);
      }
    }
  }

  /** Without repeated dancers no dancer has two lines, and ties stay in dancer-list order. */
  lemma StandingsPermuteDancers(b: Battle, points: ScoringPoints)
    requires Distinct(b.dancerIds)
    ensures var s := Standings(b, points);
            && Distinct(StandingIds(s))
            && multiset(StandingIds(s)) == multiset(b.dancerIds)
            && (forall i, j, x, y ::
                  (0 <= i < j < |s| && s[i].score == s[j].score && 0 <= x < |b.dancerIds| && 0 <= y < |b.dancerIds|
                   && b.dancerIds[x] == s[i].dancerId && b.dancerIds[y] == s[j].dancerId) ==> x < y)
  {
    RowsSorted(b, points);
    var rows, s := SortedRows(b, points), Standings(b, points);
    StandingsDescribeDancers(b, points);
    forall i, j | 0 <= i < j < |s|
      ensures StandingIds(s)[i] != StandingIds(s)[j]
      ensures s[i].score == s[j].score ==> rows[i].order < rows[j].order
    {
      RowAt(b, points, i);
      RowAt(b, points, j);
      OrdersDiffer(b, points, i, j);
      assert Above(rows[i], rows[j]);
    }
    forall k | 0 <= k < |s| ensures rows[k].order < |b.dancerIds| && b.dancerIds[rows[k].order] == s[k].dancerId {
      RowAt(b, points, k);
    }
    DistinctSameElements(StandingIds(s), b.dancerIds);
  }

  /** The leaders of a table are its lines of rank 1: one leader is the only such line. */
  lemma {:induction false} LeadersMeaning(s: seq<Standing>)
    ensures |Leaders(s)| <= |s|
    ensures |Leaders(s)| >= 1 <==> exists k :: 0 <= k < |s| && s[k].rank == 1
    ensures |Leaders(s)| == 1 ==>
              exists k :: 0 <= k < |s| && s[k] == Leaders(s)[0] && forall j :: 0 <= j < |s| ==> (s[j].rank == 1 <==> j == k)
    ensures (exists i, j :: 0 <= i < j < |s| && s[i].rank == 1 && s[j].rank == 1) <==> |Leaders(s)| >= 2
  {
    if s != [] {
      var rest := s[1..];
      LeadersMeaning(rest);
      assert forall k :: 0 <= k < |rest| ==> rest[k] == s[k + 1];
      if s[0].rank == 1 {
        if exists k :: 0 <= k < |rest| && rest[k].rank == 1 {
          var k :| 0 <= k < |rest| && rest[k].rank == 1;
          assert s[0].rank == 1 && s[k + 1].rank == 1;
        } else {
          assert Leaders(s) == [s[0]];
        }
      } else {
        if |Leaders(rest)| == 1 {
          var k :| 0 <= k < |rest| && rest[k] == Leaders(rest)[0] && forall j :: 0 <= j < |rest| ==> (rest[j].rank == 1 <==> j == k);
          assert s[k + 1] == Leaders(s)[0];
          forall j | 0 <= j < |s| ensures s[j].rank == 1 <==> j == k + 1 {
            if j > 0 { assert s[j] == rest[j - 1]; }
          }
        }
        if exists i, j :: 0 <= i < j < |s| && s[i].rank == 1 && s[j].rank == 1 {
          var i, j :| 0 <= i < j < |s| && s[i].rank == 1 && s[j].rank == 1;
          assert rest[i - 1].rank == 1 && rest[j - 1].rank == 1;
        }
        if exists i, j :: 0 <= i < j < |rest| && rest[i].rank == 1 && rest[j].rank == 1 {
          var i, j :| 0 <= i < j < |rest| && rest[i].rank == 1 && rest[j].rank == 1;
          assert s[i + 1].rank == 1 && s[j + 1].rank == 1;
        }
      }
    }
  }

  ghost predicate BeatsAll(b: Battle, points: ScoringPoints, dancer: Id) {
    dancer in b.dancerIds
    && forall other :: other in b.dancerIds && other != dancer ==> ScoreOf(b, points, other) < ScoreOf(b, points, dancer)
  }

  /** Rank 1 is exactly "nobody scores more". */
  lemma TopRank(b: Battle, points: ScoringPoints, k: nat)
    requires k < |Standings(b, points)|
    ensures Standings(b, points)[k].rank == 1
       <==> forall id :: id in b.dancerIds ==> ScoreOf(b, points, id) <= Standings(b, points)[k].score
  {
    var score := Standings(b, points)[k].score;
    var higher := set j | 0 <= j < |b.dancerIds| && ScoreOf(b, points, b.dancerIds[j]) > score;
    if higher == {} {
      forall id | id in b.dancerIds ensures ScoreOf(b, points, id) <= score {
        var j :| 0 <= j < |b.dancerIds| && b.dancerIds[j] == id;
        assert j !in higher;
      }
    } else {
      var j :| j in higher;
      assert b.dancerIds[j] in b.dancerIds;
    }
  }

  lemma WinnerIsAhead(b: Battle, dancer: Id)
    requires Distinct(b.dancerIds) && ResultOf(b).winnerId == Some(dancer)
    ensures BeatsAll(b, b.scoring, dancer)
  {
    var points, s := b.scoring, Standings(b, b.scoring);
    StandingsDescribeDancers(b, points);
    LeadersMeaning(s);
    var k :| 0 <= k < |s| && s[k] == Leaders(s)[0] && forall j :: 0 <= j < |s| ==> (s[j].rank == 1 <==> j == k);
    TopRank(b, points, k);
    assert StandingIds(s)[k] == dancer;
    forall other | other in b.dancerIds && other != dancer
      ensures ScoreOf(b, points, other) < ScoreOf(b, points, dancer)
    {
      var j :| 0 <= j < |s| && StandingIds(s)[j] == other;
      TopRank(b, points, j);
    }
  }

  lemma AheadIsWinner(b: Battle, dancer: Id)
    requires Distinct(b.dancerIds) && BeatsAll(b, b.scoring, dancer)
    ensures ResultOf(b).winnerId == Some(dancer)
  {
    var points, s := b.scoring, Standings(b, b.scoring);
    StandingsDescribeDancers(b, points);
    StandingsPermuteDancers(b, points);
    var k :| 0 <= k < |s| && StandingIds(s)[k] == dancer;
    TopRank(b, points, k);
    forall j | 0 <= j < |s| && s[j].rank == 1 ensures j == k {
      TopRank(b, points, j);
      assert StandingIds(s)[j] in b.dancerIds;
    }
    LeadersMeaning(s);
  }

  /** The winner is the one dancer who scores strictly more than every other, and
      nobody when there is no such dancer. */
  lemma WinnerBeatsAll(b: Battle, dancer: Id)
    requires Distinct(b.dancerIds)
    ensures ResultOf(b).winnerId == Some(dancer) <==> BeatsAll(b, b.scoring, dancer)
  {
    if ResultOf(b).winnerId == Some(dancer) { WinnerIsAhead(b, dancer); }
    if BeatsAll(b, b.scoring, dancer) { AheadIsWinner(b, dancer); }
  }

  /** A single remaining dancer wins. */
  lemma LastDancerWins(b: Battle)
    requires |b.dancerIds| == 1
    ensures ResultOf(b).winnerId == Some(b.dancerIds[0])
  {
    assert BeatsAll(b, b.scoring, b.dancerIds[0]);
    WinnerBeatsAll(b, b.dancerIds[0]);
  }

  // ----- conservation of votes -----

  function TotalVotes(standings: seq<Standing>): nat {
    if standings == [] then 0 else standings[0].votes + TotalVotes(standings[1..])
  }

  ghost function VotesAmong(b: Battle, dancers: set<Id>): set<Id> {
    set v | v in b.votes && b.votes[v] in dancers
  }

  lemma VotesOfOneMore(b: Battle, dancer: Id, others: set<Id>)
    requires dancer !in others
    ensures |VotesAmong(b, {dancer} + others)| == VotesFor(b, dancer) + |VotesAmong(b, others)|
  {
    var first := set v | v in b.votes && b.votes[v] == dancer;
    assert VotesAmong(b, {dancer} + others) == first + VotesAmong(b, others);
    assert first !! VotesAmong(b, others);
  }

  lemma {:induction false} TotalOfTable(b: Battle, s: seq<Standing>)
    requires Distinct(StandingIds(s))
    requires forall k :: 0 <= k < |s| ==> s[k].votes == VotesFor(b, s[k].dancerId)
    ensures TotalVotes(s) == |VotesAmong(b, ToSet(StandingIds(s)))|
  {
    if s == [] {
      assert VotesAmong(b, {}) == {};
      assert ToSet(StandingIds(s)) == {};
    } else {
      var ids, rest := StandingIds(s), StandingIds(s[1..]);
      assert forall i :: 0 <= i < |rest| ==> rest[i] == ids[i + 1];
      assert ids == [ids[0]] + rest;
      assert ids[0] !in rest;
      TotalOfTable(b, s[1..]);
      VotesOfOneMore(b, ids[0], ToSet(rest));
      assert ToSet(ids) == {ids[0]} + ToSet(rest);
    }
  }

  /** When every vote is for a dancer still in the battle, the table counts every vote once. */
  lemma EveryVoteCounted(b: Battle, points: ScoringPoints)
    requires Distinct(b.dancerIds)
    requires forall v :: v in b.votes ==> b.votes[v] in b.dancerIds
    ensures TotalVotes(Standings(b, points)) == |b.votes|
  {
    var s := Standings(b, points);
    StandingsDescribeDancers(b, points);
    StandingsPermuteDancers(b, points);
    TotalOfTable(b, s);
    assert VotesAmong(b, ToSet(StandingIds(s))) == b.votes.Keys;
  }

  /** Scoring looks only at dancers, roster, votes, words and points, so closing a battle cannot change its table. */
  lemma ScoringIgnoresTheEnd(b: Battle, finishedAt: Option<int>, endReason: Option<EndReason>, result: Option<BattleResult>)
    ensures ResultOf(b.(finishedAt := finishedAt, endReason := endReason, result := result)) == ResultOf(b)
  {
    var c := b.(finishedAt := finishedAt, endReason := endReason, result := result);
    var points := b.scoring;
    assert forall id :: VotesFor(c, id) == VotesFor(b, id);
    assert forall id :: ScoreOf(c, points, id) == ScoreOf(b, points, id);
    assert Rows(c, points) == Rows(b, points);
    forall score ensures HigherScores(c, points, score) == HigherScores(b, points, score) {
      assert (set k | 0 <= k < |c.dancerIds| && ScoreOf(c, points, c.dancerIds[k]) > score)
          == (set k | 0 <= k < |b.dancerIds| && ScoreOf(b, points, b.dancerIds[k]) > score);
    }
    assert Standings(c, points) == Standings(b, points);
  }

  // ----- the loops -----

  ghost function CountedFor(b: Battle, seen: set<Id>, dancer: Id): set<Id> {
    set v | v in seen && v in b.votes && b.votes[v] == dancer
  }

  lemma OneMoreCounted(b: Battle, seen: set<Id>, voter: Id, dancer: Id)
    requires voter in b.votes && voter !in seen
    ensures |CountedFor(b, seen + {voter}, dancer)|
         == |CountedFor(b, seen, dancer)| + (if b.votes[voter] == dancer then 1 else 0)
  {
    var before, after := CountedFor(b, seen, dancer), CountedFor(b, seen + {voter}, dancer);
    if b.votes[voter] == dancer {
      assert after == before + {voter};
    } else {
      assert after == before;
    }
  }

  ghost predicate Tallied(b: Battle, counts: map<Id, nat>, seen: set<Id>) {
    counts.Keys == ToSet(b.dancerIds) && forall id :: id in counts ==> counts[id] == |CountedFor(b, seen, id)|
  }

  function CountOne(counts: map<Id, nat>, dancer: Id): map<Id, nat> {
    if dancer in counts then counts[dancer := counts[dancer] + 1] else counts
  }

  lemma TallyOneMore(b: Battle, counts: map<Id, nat>, seen: set<Id>, voter: Id)
    requires Tallied(b, counts, seen) && voter in b.votes && voter !in seen
    ensures Tallied(b, CountOne(counts, b.votes[voter]), seen + {voter})
  {
    forall id | id in counts
      ensures |CountedFor(b, seen + {voter}, id)| == CountOne(counts, b.votes[voter])[id]
    {
      OneMoreCounted(b, seen, voter, id);
    }
  }

  /** Counts the votes in whatever order the record lists them. */
  method VoteCounts(b: Battle) returns (counts: map<Id, nat>)
    ensures counts.Keys == ToSet(b.dancerIds)
    ensures forall id :: id in b.dancerIds ==> counts[id] == VotesFor(b, id)
  {
    counts := map id | id in b.dancerIds :: 0;
    var todo := b.votes.Keys;
    ghost var seen: set<Id> := {};
    while todo != {}
      invariant seen + todo == b.votes.Keys && seen !! todo
      invariant Tallied(b, counts, seen)
      decreases |todo|
    {
      var voter :| voter in todo;
      TallyOneMore(b, counts, seen, voter);
      counts := CountOne(counts, b.votes[voter]);
      todo, seen := todo - {voter}, seen + {voter};
    }
    forall id | id in b.dancerIds ensures counts[id] == VotesFor(b, id) {
      assert CountedFor(b, seen, id) == (set v | v in b.votes && b.votes[v] == id);
    }
  }

  /** A line shares the rank of the one above if they tie, and otherwise has its own place. */
  lemma RankFromTheRowAbove(b: Battle, points: ScoringPoints, index: nat)
    requires index < |b.dancerIds|
    ensures var s := Standings(b, points);
            && |s| == |b.dancerIds| == |SortedRows(b, points)|
            && s[index] == SortedRows(b, points)[index].standing.(rank := s[index].rank)
            && s[index].rank == if index > 0 && s[index - 1].score == s[index].score then s[index - 1].rank else index + 1
  {
    RowsSorted(b, points);
    HigherAreBefore(b, points, index);
    assert index > 0 ==> Above(SortedRows(b, points)[index - 1], SortedRows(b, points)[index]);
  }

  /** Builds the rows, sorts them and hands out ranks by looking only at the row above. */
  method RankDancers(b: Battle, points: ScoringPoints) returns (standings: seq<Standing>)
    ensures standings == Standings(b, points)
    ensures NamedByRoster(b.roster, standings)
  {
    var counts := VoteCounts(b);
    var rows: seq<Row> := [];
    for order := 0 to |b.dancerIds|
      invariant rows == Rows(b, points)[..order]
    {
      var id := b.dancerIds[order];
      var votes := if id in counts then counts[id] else 0;
      var wordsWon := if id in b.wordsWon then b.wordsWon[id] else 0;
      var score := points.votePoints * votes + points.wordBonusPoints * wordsWon;
      rows := rows + [Row(order, Standing(id, NameIn(b.roster, id), votes, wordsWon, score, 0))];
    }
    assert rows == Rows(b, points);
    rows := Sort(rows, Above);
    RowsSorted(b, points);
    standings := [];
    for index := 0 to |rows|
      invariant rows == SortedRows(b, points)
      invariant standings == Standings(b, points)[..index]
    {
      var standing := rows[index].standing;
      RankFromTheRowAbove(b, points, index);
      var rank := if index > 0 && standings[index - 1].score == standing.score
                  then standings[index - 1].rank
                  else index + 1;
      standings := standings + [standing.(rank := rank)];
    }
    StandingsNameDancers(b, points);
  }

  method Result(b: Battle) returns (result: BattleResult)
    ensures result == ResultOf(b)
  {
    var standings := RankDancers(b, b.scoring);
    var leaders := Leaders(standings);
    result := BattleResult(standings, if |leaders| == 1 then Some(leaders[0].dancerId) else None);
  }
}
