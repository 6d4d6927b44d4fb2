/** users-service: the stored match, its canonical form, and the row it is kept in. */
module MatchHistory {
  import opened Sequences
  import opened Text
  import opened Domain

  datatype ParticipantRole = DANCER | SPECTATOR

  datatype MatchParticipant = MatchParticipant(playerId: Id, displayName: string, role: ParticipantRole,
                                               votes: Option<int>, wordsWon: Option<int>, score: Option<int>,
                                               rank: Option<int>, leftEarly: bool)

  datatype Match = Match(id: Id, roomCode: string, songId: Option<Id>, songTitle: Option<string>,
                         startedAt: int, finishedAt: int, winnerPlayerId: Option<Id>, endReason: EndReason,
                         participants: seq<MatchParticipant>)

  // ----- the order of a results table -----

  /** `String.compareTo`, by UTF-16 code units. */
  predicate TextLeq(a: string, b: string) {
    a == [] || (b != [] && (a[0] < b[0] || (a[0] == b[0] && TextLeq(a[1..], b[1..]))))
  }

  /** What the order looks at. */
  datatype Key = Key(role: ParticipantRole, rank: Option<int>, displayName: string, playerId: Id)

  function KeyOf(p: MatchParticipant): Key {
    Key(p.role, if p.role == DANCER then p.rank else None, p.displayName, p.playerId)
  }

  /** Absent ranks come last. */
  predicate RankLeq(a: Option<int>, b: Option<int>) {
    b.None? || (a.Some? && a.value <= b.value)
  }

  predicate KeyLeq(a: Key, b: Key) {
    if a.role != b.role then a.role == DANCER
    else if a.rank != b.rank then RankLeq(a.rank, b.rank)
    else if a.displayName != b.displayName then TextLeq(a.displayName, b.displayName)
    else TextLeq(a.playerId, b.playerId)
  }

  predicate ResultsOrder(a: MatchParticipant, b: MatchParticipant) {
    KeyLeq(KeyOf(a), KeyOf(b))
  }

  lemma {:induction false} TextLeqTotal(a: string, b: string)
    ensures TextLeq(a, b) || TextLeq(b, a)
    ensures TextLeq(a, b) && TextLeq(b, a) ==> a == b
  {
    if a != [] && b != [] && a[0] == b[0] {
      TextLeqTotal(a[1..], b[1..]);
      assert a == [a[0]] + a[1..] && b == [b[0]] + b[1..];
    }
  }

  lemma {:induction false} TextLeqTransitive(a: string, b: string, c: string)
    requires TextLeq(a, b) && TextLeq(b, c)
    ensures TextLeq(a, c)
  {
    if a != [] && a[0] == b[0] == c[0] { TextLeqTransitive(a[1..], b[1..], c[1..]); }
  }

  lemma KeysCompare(a: Key, b: Key)
    ensures KeyLeq(a, b) || KeyLeq(b, a)
    ensures KeyLeq(a, b) && KeyLeq(b, a) ==> a == b
  {
    TextLeqTotal(a.displayName, b.displayName);
    TextLeqTotal(a.playerId, b.playerId);
  }

  lemma KeysChain(a: Key, b: Key, c: Key)
    requires KeyLeq(a, b) && KeyLeq(b, c)
    ensures KeyLeq(a, c)
  {
    if a.displayName == b.displayName == c.displayName {
      if TextLeq(a.playerId, b.playerId) && TextLeq(b.playerId, c.playerId) {
        TextLeqTransitive(a.playerId, b.playerId, c.playerId);
      }
    } else if TextLeq(a.displayName, b.displayName) && TextLeq(b.displayName, c.displayName) {
      TextLeqTransitive(a.displayName, b.displayName, c.displayName);
      TextLeqTotal(a.displayName, b.displayName);
    }
  }

  /** The results order compares any two participants and is transitive. */
  lemma ResultsOrderIsTotal()
    ensures TotalPreorder(ResultsOrder)
  {
    forall x, y ensures ResultsOrder(x, y) || ResultsOrder(y, x) {
      KeysCompare(KeyOf(x), KeyOf(y));
    }
    forall x, y, z | ResultsOrder(x, y) && ResultsOrder(y, z) ensures ResultsOrder(x, z) {
      KeysChain(KeyOf(x), KeyOf(y), KeyOf(z));
    }
  }

  // ----- the canonical constructor -----

  /** `String.trim()` of Java: everything up to the space is cut off at both ends. */
  function JavaTrimStart(s: string): (r: string)
    ensures r == [] || r[0] > ' '
    ensures |r| <= |s|
  {
    if s != [] && s[0] <= ' ' then JavaTrimStart(s[1..]) else s
  }

  function JavaTrimEnd(s: string): (r: string)
    ensures r == [] || r[|r| - 1] > ' '
    ensures r <= s
  {
    if s != [] && s[|s| - 1] <= ' ' then JavaTrimEnd(s[..|s| - 1]) else s
  }

  function NormalizeRoomCode(code: string): string {
    Upper(JavaTrimEnd(JavaTrimStart(code)))
  }

  predicate Cut(c: char) { c <= ' ' }

  lemma {:induction false} JavaTrimStartCuts(s: string) returns (before: string)
    ensures s == before + JavaTrimStart(s) && forall k :: 0 <= k < |before| ==> Cut(before[k])
  {
    before := [];
    if s != [] && s[0] <= ' ' {
      before := JavaTrimStartCuts(s[1..]);
      before := [s[0]] + before;
    }
  }

  lemma {:induction false} JavaTrimEndCuts(s: string) returns (after: string)
    ensures s == JavaTrimEnd(s) + after && forall k :: 0 <= k < |after| ==> Cut(after[k])
    ensures s != [] && s[0] > ' ' ==> JavaTrimEnd(s) != []
  {
    after := [];
    if s != [] && s[|s| - 1] <= ' ' {
      after := JavaTrimEndCuts(s[..|s| - 1]);
      after := after + [s[|s| - 1]];
    }
  }

  /** The canonical code is the given one in upper case, without what is cut off at its ends. */
  lemma NormalizedCode(code: string) returns (before: string, core: string, after: string)
    ensures code == before + core + after && NormalizeRoomCode(code) == Upper(core)
    ensures forall k :: 0 <= k < |before| ==> Cut(before[k])
    ensures forall k :: 0 <= k < |after| ==> Cut(after[k])
    ensures core == [] || (!Cut(core[0]) && !Cut(core[|core| - 1]))
  {
    before := JavaTrimStartCuts(code);
    after := JavaTrimEndCuts(JavaTrimStart(code));
    core := JavaTrimEnd(JavaTrimStart(code));
  }

  /** A normalised code stays as it is. */
  lemma NormalizingTwice(code: string)
    ensures NormalizeRoomCode(NormalizeRoomCode(code)) == NormalizeRoomCode(code)
  {
    var trimmed := JavaTrimEnd(JavaTrimStart(code));
    var upper := Upper(trimmed);
    if upper != [] {
      assert trimmed[0] > ' ' && trimmed[|trimmed| - 1] > ' ';
      assert UpperChar(trimmed[0]) > ' ' && UpperChar(trimmed[|trimmed| - 1]) > ' ';
    }
    assert JavaTrimEnd(JavaTrimStart(upper)) == upper;
    assert Upper(upper) == upper;
  }

  function PlayerIdOf(p: MatchParticipant): Id { p.playerId }

  function PlayerIds(participants: seq<MatchParticipant>): (r: seq<Id>)
    ensures |r| == |participants| && forall k :: 0 <= k < |r| ==> r[k] == participants[k].playerId
  {
    Map(participants, PlayerIdOf)
  }

  /** The first id that already occurred before it. */
  function FirstRepeat(ids: seq<Id>): Option<Id> {
    if ids == [] then None
    else
      var before, last := FirstRepeat(ids[..|ids| - 1]), ids[|ids| - 1];
      if before.Some? then before else if last in ids[..|ids| - 1] then Some(last) else None
  }

  /** Nothing repeats exactly when all are different; what repeats first does so after distinct ids. */
  lemma {:induction false} FirstRepeatMeaning(ids: seq<Id>)
    ensures FirstRepeat(ids).None? <==> Distinct(ids)
    ensures FirstRepeat(ids).Some? ==>
              exists i, j :: 0 <= i < j < |ids| && ids[i] == ids[j] == FirstRepeat(ids).value && Distinct(ids[..j])
  {
    if ids != [] {
      var n := |ids| - 1;
      var before := ids[..n];
      FirstRepeatMeaning(before);
      if FirstRepeat(before).Some? {
        var i, j :| 0 <= i < j < n && before[i] == before[j] == FirstRepeat(before).value && Distinct(before[..j]);
        assert before[..j] == ids[..j];
        assert ids[i] == ids[j];
      } else if ids[n] in before {
        var i :| 0 <= i < n && before[i] == ids[n];
        assert ids[i] == ids[n];
      } else {
        assert ids == before + [ids[n]];
      }
    }
  }

  /** The duplicate check: a loop that adds every player to a set. */
  method FindRepeatedPlayer(participants: seq<MatchParticipant>) returns (repeated: Option<Id>)
    ensures repeated == FirstRepeat(PlayerIds(participants))
  {
    var seen: set<Id> := {};
    var ids := PlayerIds(participants);
    for k := 0 to |participants|
      invariant forall id :: id in seen <==> id in ids[..k]
      invariant FirstRepeat(ids[..k]) == None
    {
      RepeatAt(ids, k);
      if participants[k].playerId in seen {
        RepeatStays(ids, k + 1);
        return Some(participants[k].playerId);
      }
      seen := seen + {participants[k].playerId};
    }
    assert ids[..|ids|] == ids;
    return None;
  }

  lemma RepeatAt(ids: seq<Id>, k: nat)
    requires k < |ids| && FirstRepeat(ids[..k]) == None
    ensures FirstRepeat(ids[..k + 1]) == if ids[k] in ids[..k] then Some(ids[k]) else None
  {
    assert ids[..k + 1][..k] == ids[..k];
  }

  lemma {:induction false} RepeatStays(ids: seq<Id>, k: nat)
    requires k <= |ids| && FirstRepeat(ids[..k]).Some?
    ensures FirstRepeat(ids) == FirstRepeat(ids[..k])
    decreases |ids|
  {
    if k < |ids| {
      assert ids[..|ids| - 1][..k] == ids[..k];
      RepeatStays(ids[..|ids| - 1], k);
    } else {
      assert ids[..k] == ids;
    }
  }

  datatype MatchReply = Accepted(match_: Match) | RepeatedPlayer(playerId: Id)

  /** `new Match(...)`: the code normalised, the participants in results order, no player twice. */
  function MakeMatch(m: Match): MatchReply {
    var sorted := Sort(m.participants, ResultsOrder);
    var repeated := FirstRepeat(PlayerIds(sorted));
    if repeated.Some? then RepeatedPlayer(repeated.value)
    else Accepted(m.(roomCode := NormalizeRoomCode(m.roomCode), participants := sorted))
  }

  method NewMatch(m: Match) returns (reply: MatchReply)
    ensures reply == MakeMatch(m)
  {
    var sorted := Sort(m.participants, ResultsOrder);
    var repeated := FindRepeatedPlayer(sorted);
    if repeated.Some? {
      return RepeatedPlayer(repeated.value);
    }
    return Accepted(m.(roomCode := NormalizeRoomCode(m.roomCode), participants := sorted));
  }

  // ----- Match is canonical -----

  function KeysOf(s: seq<MatchParticipant>): (r: seq<Key>)
    ensures |r| == |s| && forall k :: 0 <= k < |r| ==> r[k] == KeyOf(s[k])
  {
    Map(s, KeyOf)
  }

  /** Two sorted permutations look the same to the order, and so list the same players. */
  lemma SameKeysSorted(a: seq<MatchParticipant>, b: seq<MatchParticipant>)
    requires multiset(a) == multiset(b)
    ensures KeysOf(Sort(a, ResultsOrder)) == KeysOf(Sort(b, ResultsOrder))
    ensures PlayerIds(Sort(a, ResultsOrder)) == PlayerIds(Sort(b, ResultsOrder))
  {
    var x, y := Sort(a, ResultsOrder), Sort(b, ResultsOrder);
    ResultsOrderIsTotal();
    SortPermutes(a, ResultsOrder);
    SortPermutes(b, ResultsOrder);
    SortSorts(a, ResultsOrder);
    SortSorts(b, ResultsOrder);
    MapPermutes(x, y, KeyOf);
    forall i, j | 0 <= i < |x| && 0 <= j < |x| && KeyLeq(KeysOf(x)[i], KeysOf(x)[j]) && KeyLeq(KeysOf(x)[j], KeysOf(x)[i])
      ensures KeysOf(x)[i] == KeysOf(x)[j]
    {
      KeysCompare(KeysOf(x)[i], KeysOf(x)[j]);
    }
    assert SortedBy(KeysOf(x), KeyLeq) by {
      forall i, j | 0 <= i < j < |x| ensures KeyLeq(KeysOf(x)[i], KeysOf(x)[j]) { assert ResultsOrder(x[i], x[j]); }
    }
    assert SortedBy(KeysOf(y), KeyLeq) by {
      forall i, j | 0 <= i < j < |y| ensures KeyLeq(KeysOf(y)[i], KeysOf(y)[j]) { assert ResultsOrder(y[i], y[j]); }
    }
    SortedUnique(KeysOf(x), KeysOf(y), KeyLeq);
    forall k | 0 <= k < |x| ensures PlayerIds(x)[k] == PlayerIds(y)[k] {
      assert KeysOf(x)[k].playerId == KeysOf(y)[k].playerId;
    }
  }

  /** Where no player occurs twice the sorted list does not depend on the given order. */
  lemma SortIsCanonical(a: seq<MatchParticipant>, b: seq<MatchParticipant>)
    requires multiset(a) == multiset(b) && Distinct(PlayerIds(Sort(a, ResultsOrder)))
    ensures Sort(a, ResultsOrder) == Sort(b, ResultsOrder)
  {
    var x, y := Sort(a, ResultsOrder), Sort(b, ResultsOrder);
    SameKeysSorted(a, b);
    SortPermutes(a, ResultsOrder);
    SortPermutes(b, ResultsOrder);
    forall k | 0 <= k < |x| ensures x[k] == y[k] {
      assert x[k] in multiset(y);
      var j :| 0 <= j < |y| && y[j] == x[k];
      assert PlayerIds(x)[k] == PlayerIds(y)[j] == PlayerIds(x)[j];
    }
  }

  /** However a match is submitted, every copy of it is the same match or the same refusal. */
  lemma MatchIsCanonical(m: Match, participants: seq<MatchParticipant>)
    requires multiset(participants) == multiset(m.participants)
    ensures MakeMatch(m.(participants := participants)) == MakeMatch(m)
  {
    SameKeysSorted(m.participants, participants);
    FirstRepeatMeaning(PlayerIds(Sort(m.participants, ResultsOrder)));
    if Distinct(PlayerIds(Sort(m.participants, ResultsOrder))) {
      SortIsCanonical(m.participants, participants);
    }
  }

  /** That player is listed more than once. */
  ghost predicate RepeatedIn(participants: seq<MatchParticipant>, playerId: Id) {
    multiset(PlayerIds(participants))[playerId] >= 2
  }

  lemma RepeatIsRepeated(sorted: seq<MatchParticipant>, participants: seq<MatchParticipant>)
    requires multiset(sorted) == multiset(participants) && FirstRepeat(PlayerIds(sorted)).Some?
    ensures RepeatedIn(participants, FirstRepeat(PlayerIds(sorted)).value)
  {
    var ids := PlayerIds(sorted);
    FirstRepeatMeaning(ids);
    var i, j :| 0 <= i < j < |ids| && ids[i] == ids[j] == FirstRepeat(ids).value && Distinct(ids[..j]);
    CountedTwice(ids, i, j);
    IdsPermute(sorted, participants);
  }

  /** A match is accepted exactly when no player occurs twice, and then it is the one submitted
      but for the form of its code and the order of its participants. */
  lemma AcceptedExactly(m: Match)
    ensures MakeMatch(m).Accepted? <==> Distinct(PlayerIds(m.participants))
    ensures MakeMatch(m).RepeatedPlayer? ==> RepeatedIn(m.participants, MakeMatch(m).playerId)
    ensures MakeMatch(m).Accepted? ==>
              && MakeMatch(m).match_ == m.(roomCode := NormalizeRoomCode(m.roomCode), participants := MakeMatch(m).match_.participants)
              && multiset(MakeMatch(m).match_.participants) == multiset(m.participants)
              && SortedBy(MakeMatch(m).match_.participants, ResultsOrder)
  {
    var sorted := Sort(m.participants, ResultsOrder);
    ResultsOrderIsTotal();
    SortPermutes(m.participants, ResultsOrder);
    SortSorts(m.participants, ResultsOrder);
    IdsPermute(sorted, m.participants);
    FirstRepeatMeaning(PlayerIds(sorted));
    if Distinct(PlayerIds(sorted)) { PermutationDistinct(PlayerIds(sorted), PlayerIds(m.participants)); }
    if FirstRepeat(PlayerIds(sorted)).Some? { RepeatIsRepeated(sorted, m.participants); }
    if Distinct(PlayerIds(m.participants)) { PermutationDistinct(PlayerIds(m.participants), PlayerIds(sorted)); }
  }

  lemma IdsPermute(a: seq<MatchParticipant>, b: seq<MatchParticipant>)
    requires multiset(a) == multiset(b)
    ensures multiset(PlayerIds(a)) == multiset(PlayerIds(b))
  {
    MapPermutes(a, b, PlayerIdOf);
  }
}
