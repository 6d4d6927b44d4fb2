/** Facts about sequences that the rest of the project relies on: filtering by
    membership, duplicate-freeness, and a stable sort whose result is unique. */
module Sequences {

  datatype Option<T> = None | Some(value: T)

  ghost predicate Distinct<T>(s: seq<T>) {
    forall i, j :: 0 <= i < j < |s| ==> s[i] != s[j]
  }

  function ToSet<T(==)>(s: seq<T>): set<T> {
    set x | x in s
  }

  /** `s.filter(x => wanted.has(x))` */
  function Keep<T(==,!new)>(s: seq<T>, wanted: set<T>): (r: seq<T>)
    ensures forall x :: x in r <==> x in s && x in wanted
    ensures |r| <= |s|
  {
    if s == [] then []
    else if s[0] in wanted then [s[0]] + Keep(s[1..], wanted)
    else Keep(s[1..], wanted)
  }

  /** `s.filter(x => x !== gone)` */
  function Drop<T(==,!new)>(s: seq<T>, gone: T): (r: seq<T>)
    ensures forall x :: x in r <==> x in s && x != gone
  {
    if s == [] then []
    else if s[0] != gone then [s[0]] + Drop(s[1..], gone)
    else Drop(s[1..], gone)
  }

  /** Filtering goes from front to back and keeps the order. */
  lemma {:induction false} KeepAppend<T(!new)>(s: seq<T>, x: T, wanted: set<T>)
    ensures Keep(s + [x], wanted) == Keep(s, wanted) + (if x in wanted then [x] else [])
  {
    if s == [] {
      assert [] + [x] == [x] && [x][1..] == [];
    } else {
      assert (s + [x])[0] == s[0] && (s + [x])[1..] == s[1..] + [x];
      KeepAppend(s[1..], x, wanted);
    }
  }

  lemma {:induction false} DropAppend<T(!new)>(s: seq<T>, x: T, gone: T)
    ensures Drop(s + [x], gone) == Drop(s, gone) + (if x != gone then [x] else [])
  {
    if s == [] {
      assert [] + [x] == [x] && [x][1..] == [];
    } else {
      assert (s + [x])[0] == s[0] && (s + [x])[1..] == s[1..] + [x];
      DropAppend(s[1..], x, gone);
    }
  }

  lemma {:induction false} KeepDistinct<T(!new)>(s: seq<T>, wanted: set<T>)
    requires Distinct(s)
    ensures Distinct(Keep(s, wanted))
  {
    if s != [] {
      assert forall x :: x in s[1..] ==> x != s[0];
      KeepDistinct(s[1..], wanted);
    }
  }

  lemma {:induction false} DropIsKeep<T(!new)>(s: seq<T>, gone: T, wanted: set<T>)
    requires forall x :: x in s ==> (x in wanted <==> x != gone)
    ensures Drop(s, gone) == Keep(s, wanted)
  {
    if s != [] {
      DropIsKeep(s[1..], gone, wanted);
    }
  }

  lemma DroppedAll<T(!new)>(s: seq<T>, gone: T)
    requires Drop(s, gone) == []
    ensures ToSet(s) <= {gone}
  {
    forall x | x in s ensures x == gone {
      assert x in Drop(s, gone) <==> x != gone;
    }
  }

  /** Dropping one more element of an already filtered sequence filters by the smaller set. */
  lemma {:induction false} DropFromKeep<T(!new)>(s: seq<T>, wanted: set<T>, gone: T)
    ensures Drop(Keep(s, wanted), gone) == Keep(s, wanted - {gone})
  {
    if s != [] {
      DropFromKeep(s[1..], wanted, gone);
    }
  }

  lemma {:induction false} KeepTwice<T(!new)>(s: seq<T>, first: set<T>, second: set<T>)
    ensures Keep(Keep(s, first), second) == Keep(s, first * second)
  {
    if s != [] {
      KeepTwice(s[1..], first, second);
    }
  }

  lemma {:induction false} KeepSame<T(!new)>(s: seq<T>, a: set<T>, b: set<T>)
    requires forall x :: x in s ==> (x in a <==> x in b)
    ensures Keep(s, a) == Keep(s, b)
  {
    if s != [] {
      KeepSame(s[1..], a, b);
    }
  }

  lemma {:induction false} KeepAll<T(!new)>(s: seq<T>, wanted: set<T>)
    requires forall x :: x in s ==> x in wanted
    ensures Keep(s, wanted) == s
  {
    if s != [] {
      KeepAll(s[1..], wanted);
    }
  }

  /** A sequence is duplicate-free exactly when its set of elements is as large as it is. */
  lemma {:induction false} DistinctBySize<T>(s: seq<T>)
    ensures |ToSet(s)| <= |s|
    ensures Distinct(s) <==> |ToSet(s)| == |s|
  {
    if s != [] {
      DistinctBySize(s[1..]);
      if s[0] in s[1..] {
        var k :| 0 <= k < |s[1..]| && s[1..][k] == s[0];
        assert s[0] == s[k + 1];
        assert ToSet(s) == ToSet(s[1..]);
      } else {
        assert ToSet(s) == {s[0]} + ToSet(s[1..]);
        if Distinct(s[1..]) {
          forall i, j | 0 <= i < j < |s| ensures s[i] != s[j] {
            if i == 0 { assert s[j] == s[1..][j - 1]; }
            else { assert s[i] == s[1..][i - 1] && s[j] == s[1..][j - 1]; }
          }
        }
        if Distinct(s) {
          forall i, j | 0 <= i < j < |s[1..]| ensures s[1..][i] != s[1..][j] {
            assert s[1..][i] == s[i + 1] && s[1..][j] == s[j + 1];
          }
        }
      }
    }
  }

  lemma DistinctConcat<T>(a: seq<T>, b: seq<T>)
    requires Distinct(a) && Distinct(b)
    requires forall x :: x in a ==> x !in b
    ensures Distinct(a + b)
  {
    forall i, j | 0 <= i < j < |a + b| ensures (a + b)[i] != (a + b)[j] {
      if i < |a| <= j {
        assert (a + b)[i] == a[i] && a[i] in a;
        assert (a + b)[j] == b[j - |a|] && b[j - |a|] in b;
      }
    }
  }

  lemma DistinctCount<T>(s: seq<T>, x: T)
    requires Distinct(s)
    ensures multiset(s)[x] == if x in s then 1 else 0
  {
    if x in s {
      var k :| 0 <= k < |s| && s[k] == x;
      assert s == s[..k] + [s[k]] + s[k + 1..];
      assert x !in s[..k] && x !in s[k + 1..];
    }
  }

  lemma CountedTwice<T>(s: seq<T>, i: nat, j: nat)
    requires i < j < |s| && s[i] == s[j]
    ensures multiset(s)[s[i]] >= 2
  {
    assert s == s[..j] + [s[j]] + s[j + 1..];
    assert s[..j][i] == s[i];
  }

  lemma PermutationDistinct<T>(a: seq<T>, b: seq<T>)
    requires Distinct(a) && multiset(a) == multiset(b)
    ensures Distinct(b)
  {
    forall i, j | 0 <= i < j < |b| ensures b[i] != b[j] {
      DistinctCount(a, b[i]);
      if b[i] == b[j] { CountedTwice(b, i, j); }
    }
  }

  lemma DistinctSameElements<T>(a: seq<T>, b: seq<T>)
    requires Distinct(a) && Distinct(b)
    requires forall x :: x in a ==> x in b
    requires forall x :: x in b ==> x in a
    ensures multiset(a) == multiset(b)
  {
    forall x | x in multiset(a) || x in multiset(b) ensures multiset(a)[x] == multiset(b)[x] {
      DistinctCount(a, x);
      DistinctCount(b, x);
    }
  }

  /** A subset of `[0, n)` has at most n elements. */
  lemma {:induction false} RangeSize(s: set<int>, n: nat)
    requires forall i :: i in s ==> 0 <= i < n
    ensures |s| <= n
    ensures (forall i :: 0 <= i < n ==> i in s) ==> |s| == n
  {
    if n > 0 {
      RangeSize(s - {n - 1}, n - 1);
      if n - 1 !in s { assert s - {n - 1} == s; }
    } else {
      assert forall i :: i !in s;
    }
  }

  lemma {:induction false} SubsetSize<T>(a: set<T>, b: set<T>)
    requires a <= b
    ensures |a| <= |b|
    ensures |a| == |b| ==> a == b
  {
    if a != {} {
      var x :| x in a;
      SubsetSize(a - {x}, b - {x});
    }
  }

  // ----- mapping -----

  /** `s.map(f)` */
  function Map<S, T>(s: seq<S>, f: S -> T): (r: seq<T>)
    ensures |r| == |s| && forall k :: 0 <= k < |r| ==> r[k] == f(s[k])
  {
    if s == [] then [] else [f(s[0])] + Map(s[1..], f)
  }

  lemma MapConcat<S, T>(a: seq<S>, b: seq<S>, f: S -> T)
    ensures Map(a + b, f) == Map(a, f) + Map(b, f)
  {
  }

  lemma TakeOut<T>(s: seq<T>, k: nat)
    requires k < |s|
    ensures s == s[..k] + [s[k]] + s[k + 1..]
    ensures multiset(s[..k] + s[k + 1..]) == multiset(s) - multiset{s[k]}
  {
    assert s == s[..k] + [s[k]] + s[k + 1..];
  }

  lemma MapSkips<S, T>(s: seq<S>, k: nat, f: S -> T)
    requires k < |s|
    ensures Map(s[..k] + s[k + 1..], f) == Map(s, f)[..k] + Map(s, f)[k + 1..]
  {
  }

  lemma MapWithout<S, T>(s: seq<S>, k: nat, f: S -> T)
    requires k < |s|
    ensures multiset(Map(s, f)) == multiset{f(s[k])} + multiset(Map(s[..k] + s[k + 1..], f))
  {
    TakeOut(Map(s, f), k);
    MapSkips(s, k, f);
  }

  /** A permutation is mapped to a permutation. */
  lemma {:induction false} MapPermutes<S, T>(a: seq<S>, b: seq<S>, f: S -> T)
    requires multiset(a) == multiset(b)
    ensures multiset(Map(a, f)) == multiset(Map(b, f))
  {
    if a == [] {
      assert |multiset(b)| == 0;
    } else {
      assert a[0] in multiset(b);
      var k :| 0 <= k < |b| && b[k] == a[0];
      HeadAndTail(a);
      TakeOut(b, k);
      MapPermutes(a[1..], b[..k] + b[k + 1..], f);
      MapWithout(b, k, f);
    }
  }

  // ----- a stable sort, standing for the library sorts of both services -----

  ghost predicate SortedBy<T>(s: seq<T>, leq: (T, T) -> bool) {
    forall i, j :: 0 <= i < j < |s| ==> leq(s[i], s[j])
  }

  /** A comparator that compares any two values and is transitive. */
  ghost predicate TotalPreorder<T(!new)>(leq: (T, T) -> bool) {
    && (forall x, y :: leq(x, y) || leq(y, x))
    && (forall x, y, z :: leq(x, y) && leq(y, z) ==> leq(x, z))
  }

  function Insert<T>(x: T, s: seq<T>, leq: (T, T) -> bool): seq<T> {
    if s == [] then [x]
    else if leq(x, s[0]) then [x] + s
    else [s[0]] + Insert(x, s[1..], leq)
  }

  function Sort<T>(s: seq<T>, leq: (T, T) -> bool): seq<T> {
    if s == [] then [] else Insert(s[0], Sort(s[1..], leq), leq)
  }

  lemma {:induction false} InsertPermutes<T>(x: T, s: seq<T>, leq: (T, T) -> bool)
    ensures multiset(Insert(x, s, leq)) == multiset{x} + multiset(s)
    ensures |Insert(x, s, leq)| == |s| + 1
  {
    if s != [] && !leq(x, s[0]) {
      InsertPermutes(x, s[1..], leq);
      assert s == [s[0]] + s[1..];
    }
  }

  lemma {:induction false} SortPermutes<T>(s: seq<T>, leq: (T, T) -> bool)
    ensures multiset(Sort(s, leq)) == multiset(s)
    ensures |Sort(s, leq)| == |s|
  {
    if s != [] {
      SortPermutes(s[1..], leq);
      InsertPermutes(s[0], Sort(s[1..], leq), leq);
      assert s == [s[0]] + s[1..];
    }
  }

  lemma {:induction false} InsertSorted<T(!new)>(x: T, s: seq<T>, leq: (T, T) -> bool)
    requires TotalPreorder(leq) && SortedBy(s, leq)
    ensures SortedBy(Insert(x, s, leq), leq)
  {
    if s != [] && !leq(x, s[0]) {
      var rest := Insert(x, s[1..], leq);
      InsertSorted(x, s[1..], leq);
      InsertPermutes(x, s[1..], leq);
      forall j | 0 <= j < |rest| ensures leq(s[0], rest[j]) {
        assert rest[j] in multiset(rest);
      }
    }
  }

  lemma {:induction false} SortSorts<T(!new)>(s: seq<T>, leq: (T, T) -> bool)
    requires TotalPreorder(leq)
    ensures SortedBy(Sort(s, leq), leq)
  {
    if s != [] {
      SortSorts(s[1..], leq);
      InsertSorted(s[0], Sort(s[1..], leq), leq);
    }
  }

  ghost predicate Antisymmetric<T(!new)>(s: seq<T>, leq: (T, T) -> bool) {
    forall i, j :: 0 <= i < |s| && 0 <= j < |s| && leq(s[i], s[j]) && leq(s[j], s[i]) ==> s[i] == s[j]
  }

  lemma SameHead<T(!new)>(a: seq<T>, b: seq<T>, leq: (T, T) -> bool)
    requires a != [] && multiset(a) == multiset(b)
    requires SortedBy(a, leq) && SortedBy(b, leq) && Antisymmetric(a, leq)
    ensures b != [] && a[0] == b[0]
  {
    assert |multiset(a)| == |multiset(b)|;
    assert b[0] in multiset(a);
    assert a[0] in multiset(b);
    var i :| 0 <= i < |a| && a[i] == b[0];
    var j :| 0 <= j < |b| && b[j] == a[0];
    assert i > 0 ==> leq(a[0], a[i]);
    assert j > 0 ==> leq(b[0], b[j]);
  }

  lemma HeadAndTail<T>(s: seq<T>)
    requires s != []
    ensures s == [s[0]] + s[1..] && multiset(s[1..]) == multiset(s) - multiset{s[0]}
  {
    assert s == [s[0]] + s[1..];
  }

  lemma TailKeepsOrder<T(!new)>(s: seq<T>, leq: (T, T) -> bool)
    requires s != [] && SortedBy(s, leq)
    ensures SortedBy(s[1..], leq) && (Antisymmetric(s, leq) ==> Antisymmetric(s[1..], leq))
  {
  }

  /** Where the order tells any two of the elements apart, two sorted permutations are equal. */
  lemma {:induction false} SortedUnique<T(!new)>(a: seq<T>, b: seq<T>, leq: (T, T) -> bool)
    requires multiset(a) == multiset(b)
    requires SortedBy(a, leq) && SortedBy(b, leq) && Antisymmetric(a, leq)
    ensures a == b
  {
    if a == [] {
      assert |multiset(b)| == 0;
    } else {
      SameHead(a, b, leq);
      HeadAndTail(a);
      HeadAndTail(b);
      TailKeepsOrder(a, leq);
      TailKeepsOrder(b, leq);
      SortedUnique(a[1..], b[1..], leq);
    }
  }
}
