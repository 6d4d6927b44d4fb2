/** Text handling: trimming, decimal digits, letter case and the display names of
    a room. Characters stand for UTF-16 code units. */
module Text {
  import opened Sequences

  const MAX_DISPLAY_NAME_LENGTH := 32
  const MAX_PLAYER_ID_LENGTH := 64

  /** White space and line terminators as ECMAScript's trim() sees them. */
  predicate IsSpace(c: char) {
    || c == ' ' || c == '\U{09}' || c == '\U{0A}' || c == '\U{0B}' || c == '\U{0C}' || c == '\U{0D}'
    || c == '\U{A0}' || c == '\U{1680}' || ('\U{2000}' <= c <= '\U{200A}')
    || c == '\U{2028}' || c == '\U{2029}' || c == '\U{202F}' || c == '\U{205F}'
    || c == '\U{3000}' || c == '\U{FEFF}'
  }

  function TrimStart(s: string): (r: string)
    ensures |r| <= |s|
    ensures r == [] || !IsSpace(r[0])
  {
    if s != [] && IsSpace(s[0]) then TrimStart(s[1..]) else s
  }

  function TrimEnd(s: string): (r: string)
    ensures r <= s
    ensures r == [] || !IsSpace(r[|r| - 1])
    ensures s != [] && !IsSpace(s[0]) ==> r != []
  {
    if s != [] && IsSpace(s[|s| - 1]) then TrimEnd(s[..|s| - 1]) else s
  }

  function Trim(s: string): (r: string)
    ensures |r| <= |s|
    ensures Trimmed(r)
  {
    TrimEnd(TrimStart(s))
  }

  predicate Trimmed(s: string) {
    s == [] || (!IsSpace(s[0]) && !IsSpace(s[|s| - 1]))
  }

  ghost predicate AllSpace(s: string) { forall k :: 0 <= k < |s| ==> IsSpace(s[k]) }

  /** `core` with white space before and after it. */
  ghost predicate Padded(s: string, before: string, core: string, after: string) {
    s == before + core + after && AllSpace(before) && AllSpace(after)
  }

  lemma {:induction false} TrimStartCuts(s: string) returns (before: string)
    ensures s == before + TrimStart(s) && AllSpace(before)
  {
    before := [];
    if s != [] && IsSpace(s[0]) {
      before := TrimStartCuts(s[1..]);
      before := [s[0]] + before;
    }
  }

  lemma {:induction false} TrimEndCuts(s: string) returns (after: string)
    ensures s == TrimEnd(s) + after && AllSpace(after)
  {
    after := [];
    if s != [] && IsSpace(s[|s| - 1]) {
      after := TrimEndCuts(s[..|s| - 1]);
      after := after + [s[|s| - 1]];
    }
  }

  /** Trimming cuts white space off both ends, all of it and nothing else. */
  lemma TrimCutsSpace(s: string) returns (before: string, after: string)
    ensures Padded(s, before, Trim(s), after)
  {
    before := TrimStartCuts(s);
    after := TrimEndCuts(TrimStart(s));
  }

  lemma {:induction false} TrimStartOfPadded(before: string, s: string)
    requires AllSpace(before) && (s == [] || !IsSpace(s[0]))
    ensures TrimStart(before + s) == s
  {
    if before != [] {
      assert (before + s)[1..] == before[1..] + s;
      TrimStartOfPadded(before[1..], s);
    } else {
      assert before + s == s;
    }
  }

  lemma {:induction false} TrimEndOfPadded(s: string, after: string)
    requires AllSpace(after) && (s == [] || !IsSpace(s[|s| - 1]))
    ensures TrimEnd(s + after) == s
  {
    if after != [] {
      assert (s + after)[..|s + after| - 1] == s + after[..|after| - 1];
      TrimEndOfPadded(s, after[..|after| - 1]);
    } else {
      assert s + after == s;
    }
  }

  lemma {:induction false} TrimOfSpace(s: string)
    requires AllSpace(s)
    ensures TrimStart(s) == []
  {
    if s != [] { TrimOfSpace(s[1..]); }
  }

  /** There is one way to cut: whatever is put around a trimmed text comes off again. */
  lemma TrimOfPadded(s: string, before: string, core: string, after: string)
    requires Padded(s, before, core, after) && Trimmed(core)
    ensures Trim(s) == core
  {
    if core == [] {
      TrimOfSpace(s);
    } else {
      assert s == before + (core + after);
      TrimStartOfPadded(before, core + after);
      TrimEndOfPadded(core, after);
    }
  }

  lemma TrimFixesExactlyTrimmed(s: string)
    ensures Trim(s) == s <==> Trimmed(s)
  {
  }

  // ----- decimal numbers -----

  predicate IsDigit(c: char) { '0' <= c <= '9' }

  function Digit(d: nat): char
    requires d < 10
  {
    '0' + d as char
  }

  /** `String(n)` */
  function Digits(n: nat): (r: string)
    ensures r != []
    ensures forall k :: 0 <= k < |r| ==> IsDigit(r[k])
    ensures n < 10 ==> |r| == 1
  {
    if n < 10 then [Digit(n)] else Digits(n / 10) + [Digit(n % 10)]
  }

  /** The number a series of digits stands for. */
  function ReadDecimal(s: string): nat
    requires forall k :: 0 <= k < |s| ==> IsDigit(s[k])
  {
    if s == [] then 0
    else
      assert IsDigit(s[|s| - 1]);
      10 * ReadDecimal(s[..|s| - 1]) + (s[|s| - 1] as int - '0' as int)
  }

  /** `d` is the numeral of n, without leading zeros. */
  ghost predicate IsNumeral(d: string, n: nat) {
    && d != [] && (forall k :: 0 <= k < |d| ==> IsDigit(d[k])) && ReadDecimal(d) == n
    && (|d| > 1 ==> d[0] != '0')
  }

  /** Read back as a decimal, the digits give the number. */
  lemma {:induction false} DigitsAreTheNumeral(n: nat)
    ensures IsNumeral(Digits(n), n)
  {
    var d := Digits(n);
    if n >= 10 {
      DigitsAreTheNumeral(n / 10);
      assert d[..|d| - 1] == Digits(n / 10);
    } else {
      assert d[..|d| - 1] == [];
    }
  }

  lemma {:induction false} DigitsInjective(n: nat, m: nat)
    requires Digits(n) == Digits(m)
    ensures n == m
  {
    var a, b := Digits(n), Digits(m);
    assert a[|a| - 1] == Digit(n % 10) && b[|b| - 1] == Digit(m % 10);
    assert n % 10 == m % 10;
    if n >= 10 && m >= 10 {
      assert a[..|a| - 1] == Digits(n / 10) && b[..|b| - 1] == Digits(m / 10);
      DigitsInjective(n / 10, m / 10);
    }
  }

  // ----- letter case -----

  /** Upper case of the letters room codes are made of. */
  function UpperChar(c: char): (r: char)
    ensures 'a' <= c <= 'z' ==> 'A' <= r <= 'Z' && r as int - 'A' as int == c as int - 'a' as int
    ensures !('a' <= c <= 'z') ==> r == c
  {
    if 'a' <= c <= 'z' then 'A' + (c - 'a') else c
  }

  function Upper(s: string): (r: string)
    ensures |r| == |s|
    ensures forall k :: 0 <= k < |s| ==> r[k] == UpperChar(s[k])
  {
    seq(|s|, k requires 0 <= k < |s| => UpperChar(s[k]))
  }

  /** Lower-casing of a locale, character by character. All that is assumed of it
      is that it leaves digits and the space alone. */
  type Fold = f: char -> char | forall c: char :: c == ' ' || IsDigit(c) ==> f(c) == c witness (c: char) => c

  function Lower(fold: Fold, s: string): (r: string)
    ensures |r| == |s|
    ensures forall k :: 0 <= k < |s| ==> r[k] == fold(s[k])
  {
    seq(|s|, k requires 0 <= k < |s| => fold(s[k]))
  }

  // ----- unique display names -----

  /** `s.slice(0, end)`: a negative end counts from the end of the text. */
  function SliceTo(s: string, end: int): (r: string)
    ensures r <= s
    ensures end >= 0 ==> |r| <= end
    ensures end >= 1 && s != [] ==> r != []
  {
    if end >= 0 then (if end <= |s| then s[..end] else s)
    else if |s| + end >= 0 then s[..|s| + end] else []
  }

  function Suffix(n: nat): string { " " + Digits(n) }

  /** What is left of a name to make room for a number. */
  function Base(name: string, n: nat): (r: string)
    ensures r <= name
    ensures Trimmed(name) && |name| + |Suffix(n)| <= MAX_DISPLAY_NAME_LENGTH ==> r == name
  {
    TrimEnd(SliceTo(name, MAX_DISPLAY_NAME_LENGTH - |Suffix(n)|))
  }

  function Candidate(name: string, n: nat): string {
    Base(name, n) + Suffix(n)
  }

  function Folded(fold: Fold, name: string, n: nat): string {
    Lower(fold, Candidate(name, n))
  }

  lemma CandidateEnds(name: string, n: nat, k: nat)
    requires k < |Digits(n)|
    ensures var c := Candidate(name, n);
            |c| > |Digits(n)| && c[|c| - |Digits(n)| - 1] == ' ' && c[|c| - |Digits(n)| + k] == Digits(n)[k]
  {
  }

  /** A shorter number follows a space where the longer one still has a digit. */
  lemma LengthsTellApart(fold: Fold, name: string, n: nat, m: nat)
    requires |Digits(n)| < |Digits(m)|
    ensures Folded(fold, name, n) != Folded(fold, name, m)
  {
    var a, b := Candidate(name, n), Candidate(name, m);
    var at := |Digits(m)| - |Digits(n)| - 1;
    CandidateEnds(name, n, 0);
    CandidateEnds(name, m, at);
    if |a| == |b| {
      assert Folded(fold, name, n)[|a| - |Digits(n)| - 1] == ' ';
      assert IsDigit(Folded(fold, name, m)[|b| - |Digits(m)| + at]);
    }
  }

  /** Candidates for different numbers differ even when case is ignored. */
  lemma CandidatesDiffer(fold: Fold, name: string, n: nat, m: nat)
    requires Folded(fold, name, n) == Folded(fold, name, m)
    ensures n == m
  {
    var x, y := Digits(n), Digits(m);
    if |x| < |y| {
      LengthsTellApart(fold, name, n, m);
    } else if |y| < |x| {
      LengthsTellApart(fold, name, m, n);
    } else {
      forall k | 0 <= k < |x| ensures x[k] == y[k] {
        CandidateEnds(name, n, k);
        CandidateEnds(name, m, k);
        var at := |Candidate(name, n)| - |x| + k;
        assert Folded(fold, name, n)[at] == x[k] && Folded(fold, name, m)[at] == y[k];
      }
      DigitsInjective(n, m);
    }
  }

  /** Lower-cased candidates for the numbers 2 to n - 1. */
  ghost function Tried(fold: Fold, name: string, n: nat): set<string> {
    set k | 2 <= k < n :: Folded(fold, name, k)
  }

  lemma {:induction false} TriedGrows(fold: Fold, name: string, n: nat)
    requires n >= 2
    ensures Tried(fold, name, n + 1) == Tried(fold, name, n) + {Folded(fold, name, n)}
    ensures Folded(fold, name, n) !in Tried(fold, name, n)
    ensures |Tried(fold, name, n)| == n - 2
  {
    forall k | 2 <= k < n ensures Folded(fold, name, k) != Folded(fold, name, n) {
      if Folded(fold, name, k) == Folded(fold, name, n) { CandidatesDiffer(fold, name, k, n); }
    }
    if n > 2 {
      TriedGrows(fold, name, n - 1);
    } else {
      assert Tried(fold, name, n) == {};
    }
  }

  lemma TriedShrinks(fold: Fold, taken: set<string>, name: string, n: nat)
    requires n >= 2 && Folded(fold, name, n) in taken
    ensures |taken - Tried(fold, name, n + 1)| < |taken - Tried(fold, name, n)|
  {
    var c := Folded(fold, name, n);
    TriedGrows(fold, name, n);
    assert taken - Tried(fold, name, n + 1) == (taken - Tried(fold, name, n)) - {c};
  }

  /** The smallest number from n on whose candidate nobody uses. */
  function FirstFree(fold: Fold, taken: set<string>, name: string, n: nat): (r: nat)
    requires n >= 2
    ensures r >= n && Folded(fold, name, r) !in taken
    decreases |taken - Tried(fold, name, n)|
  {
    if Folded(fold, name, n) !in taken then n
    else
      TriedShrinks(fold, taken, name, n);
      FirstFree(fold, taken, name, n + 1)
  }

  lemma {:induction false} FirstFreeSkipsOnlyTaken(fold: Fold, taken: set<string>, name: string, n: nat, k: nat)
    requires 2 <= n <= k < FirstFree(fold, taken, name, n)
    ensures Folded(fold, name, k) in taken
    decreases k - n
  {
    if n < k {
      FirstFreeSkipsOnlyTaken(fold, taken, name, n + 1, k);
    }
  }

  /** The display name a player who asks for `name` gets. */
  function UniqueName(fold: Fold, taken: set<string>, name: string): (r: string)
    ensures Lower(fold, r) !in taken
    ensures Lower(fold, name) !in taken ==> r == name
  {
    if Lower(fold, name) !in taken then name else Candidate(name, FirstFree(fold, taken, name, 2))
  }

  /** `base` is as much of the name, from its start, as leaves room for a number of that many
      characters, less white space at its end. */
  ghost predicate FitsBefore(name: string, base: string, room: nat) {
    && base <= name && |base| <= room && (base == [] || !IsSpace(base[|base| - 1]))
    && AllSpace(name[|base|..if |name| <= room then |name| else room])
  }

  /** The name is shortened as needed and followed by a space and the numeral of n; every
      smaller number from 2 on gives a name somebody uses. */
  ghost predicate Numbered(fold: Fold, taken: set<string>, name: string, r: string, n: nat) {
    && n >= 2
    && (exists base, d :: r == base + " " + d && IsNumeral(d, n)
                          && (|d| < MAX_DISPLAY_NAME_LENGTH ==> FitsBefore(name, base, MAX_DISPLAY_NAME_LENGTH - 1 - |d|)))
    && forall k :: 2 <= k < n ==> Folded(fold, name, k) in taken
  }

  lemma CutFits(name: string, room: nat)
    ensures FitsBefore(name, TrimEnd(SliceTo(name, room)), room)
  {
    var head := SliceTo(name, room);
    var after := TrimEndCuts(head);
    assert head == name[..|head|];
    assert name[|TrimEnd(head)|..|head|] == after;
  }

  lemma BaseFits(name: string, n: nat)
    requires |Digits(n)| < MAX_DISPLAY_NAME_LENGTH
    ensures FitsBefore(name, Base(name, n), MAX_DISPLAY_NAME_LENGTH - 1 - |Digits(n)|)
  {
    CutFits(name, MAX_DISPLAY_NAME_LENGTH - 1 - |Digits(n)|);
  }

  /** A candidate is such a name for its number. */
  lemma CandidateIsNumbered(name: string, n: nat)
    ensures exists base, d :: Candidate(name, n) == base + " " + d && IsNumeral(d, n)
                              && (|d| < MAX_DISPLAY_NAME_LENGTH ==> FitsBefore(name, base, MAX_DISPLAY_NAME_LENGTH - 1 - |d|))
  {
    DigitsAreTheNumeral(n);
    if |Digits(n)| < MAX_DISPLAY_NAME_LENGTH { BaseFits(name, n); }
    assert Candidate(name, n) == Base(name, n) + " " + Digits(n);
  }

  /** A name that is taken becomes a part of it from its start, as much as fits, with
      the smallest number from 2 on whose candidate nobody uses. */
  lemma TakenNamesAreNumbered(fold: Fold, taken: set<string>, name: string)
    requires Lower(fold, name) in taken
    ensures exists n :: Numbered(fold, taken, name, UniqueName(fold, taken, name), n)
  {
    var n := FirstFree(fold, taken, name, 2);
    forall k | 2 <= k < n ensures Folded(fold, name, k) in taken {
      FirstFreeSkipsOnlyTaken(fold, taken, name, 2, k);
    }
    CandidateIsNumbered(name, n);
    assert Numbered(fold, taken, name, UniqueName(fold, taken, name), n);
  }

  /** The suffix search looks at no more than |taken| + 1 candidates. */
  lemma SearchIsShort(fold: Fold, taken: set<string>, name: string)
    ensures FirstFree(fold, taken, name, 2) <= |taken| + 2
  {
    var n := FirstFree(fold, taken, name, 2);
    TriedGrows(fold, name, n);
    forall k | 2 <= k < n ensures Folded(fold, name, k) in taken {
      FirstFreeSkipsOnlyTaken(fold, taken, name, 2, k);
    }
    assert Tried(fold, name, n) <= taken;
    SubsetSize(Tried(fold, name, n), taken);
  }

  predicate ValidName(s: string): (valid: bool)
    ensures valid <==> 1 <= |s| <= 32 && Trimmed(s)
  {
    1 <= |s| <= MAX_DISPLAY_NAME_LENGTH && Trimmed(s)
  }

  predicate ValidId(s: string): (valid: bool)
    ensures valid <==> 1 <= |s| <= 64 && Trimmed(s)
  {
    TrimFixesExactlyTrimmed(s);
    1 <= |s| <= MAX_PLAYER_ID_LENGTH && Trim(s) == s
  }

  lemma CandidateIsValid(name: string, n: nat)
    requires ValidName(name) && |Suffix(n)| < MAX_DISPLAY_NAME_LENGTH
    ensures ValidName(Candidate(name, n))
  {
    var head := SliceTo(name, MAX_DISPLAY_NAME_LENGTH - |Suffix(n)|);
    assert head[0] == name[0];
    assert TrimEnd(head)[0] == name[0];
    var c := Candidate(name, n);
    assert IsDigit(c[|c| - 1]);
  }

  /** With at most seven names taken the name handed out is valid whenever the name asked for is. */
  lemma UniqueNameIsValid(fold: Fold, taken: set<string>, name: string)
    requires ValidName(name) && |taken| <= 7
    ensures ValidName(UniqueName(fold, taken, name))
  {
    SearchIsShort(fold, taken, name);
    var n := FirstFree(fold, taken, name, 2);
    assert |Digits(n)| == 1;
    CandidateIsValid(name, n);
  }

  /** The loop that looks for a free name. It terminates because candidates for
      different numbers never coincide, after at most |names| + 1 candidates. */
  method UniqueDisplayName(fold: Fold, names: seq<string>, displayName: string) returns (r: string, ghost tries: nat)
    ensures r == UniqueName(fold, ToSet(seq(|names|, k requires 0 <= k < |names| => Lower(fold, names[k]))), displayName)
    ensures tries <= |names| + 1
  {
    var lowered := seq(|names|, k requires 0 <= k < |names| => Lower(fold, names[k]));
    var taken := ToSet(lowered);
    tries := 0;
    if Lower(fold, displayName) !in taken {
      return displayName, tries;
    }
    DistinctBySize(lowered);
    SearchIsShort(fold, taken, displayName);
    ghost var goal := FirstFree(fold, taken, displayName, 2);
    var n := 2;
    r := Candidate(displayName, n);
    tries := 1;
    while Lower(fold, r) in taken
      invariant 2 <= n <= goal
      invariant r == Candidate(displayName, n) && tries == n - 1
      invariant FirstFree(fold, taken, displayName, n) == goal
      decreases goal - n
    {
      n := n + 1;
      r := Candidate(displayName, n);
      tries := tries + 1;
    }
  }
}
