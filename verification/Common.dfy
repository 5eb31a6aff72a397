/** Values shared by every model file. */
module Common {

  datatype Option<+T> = None | Some(value: T)

  datatype Result<+T, +E> = Ok(value: T) | Err(error: E)

  /** Lower case of one character. Only the ASCII letters are folded. */
  function LowerChar(c: char): char {
    if 'A' <= c <= 'Z' then (c as int + 32) as char else c
  }

  /** Python's str.lower() restricted to ASCII: the form names are compared in. */
  function Lower(s: string): (r: string)
    ensures |r| == |s|
  {
    seq(|s|, i requires 0 <= i < |s| => LowerChar(s[i]))
  }

  /** The 26 capital letters become the small ones; no other character changes, so lower case stays lower case. */
  lemma LettersFold(c: char)
    ensures LowerChar(LowerChar(c)) == LowerChar(c) && !('A' <= LowerChar(c) <= 'Z')
    ensures if 'A' <= c <= 'Z' then 'a' <= LowerChar(c) <= 'z' && LowerChar(c) - 'a' == c - 'A' else LowerChar(c) == c
  {
  }

  /** What Python's str.isspace() accepts, as far as it is ASCII: tab to carriage return, and the separators to the space. */
  predicate IsSpace(c: char) { 9 <= c as int <= 13 || 28 <= c as int <= 32 }

  lemma SpacesAre()
    ensures forall c :: c in " \t\n\r" ==> IsSpace(c)
    ensures forall c :: IsSpace(c) ==> c <= ' ' && c as int !in {0, 8, 14, 27}
  {
    var space := " \t\n\r";
    assert space[0] == 32 as char && space[1] == 9 as char && space[2] == 10 as char && space[3] == 13 as char;
  }

  function WithoutTrailingDots(s: string): string {
    if s != "" && s[|s| - 1] == '.' then WithoutTrailingDots(s[..|s| - 1]) else s
  }

  /** Dots are dropped from the end, and nothing else. */
  lemma {:induction false} OnlyDotsDropped(s: string)
    ensures WithoutTrailingDots(s) <= s
    ensures forall i :: |WithoutTrailingDots(s)| <= i < |s| ==> s[i] == '.'
    ensures WithoutTrailingDots(s) == "" || WithoutTrailingDots(s)[|WithoutTrailingDots(s)| - 1] != '.'
  {
    if s != "" && s[|s| - 1] == '.' { OnlyDotsDropped(s[..|s| - 1]); }
  }

  /** A sequence without repetition drawn from a set is no longer than the set. */
  lemma {:induction false} Pigeonhole<T>(s: seq<T>, pool: set<T>)
    requires forall i, j :: 0 <= i < j < |s| ==> s[i] != s[j]
    requires forall i :: 0 <= i < |s| ==> s[i] in pool
    ensures |s| <= |pool|
  {
    if s != [] {
      var last := s[|s| - 1];
      Pigeonhole(s[..|s| - 1], pool - {last});
    }
  }

  lemma {:induction false} SubsetSize<T>(a: set<T>, b: set<T>)
    requires a <= b
    ensures |a| <= |b|
  {
    if x :| x in a { SubsetSize(a - {x}, b - {x}); }
  }

  // ------------------------------------------------------------------ stable sorting

  /** Lexicographic order of two texts. */
  predicate TextLess(a: string, b: string) {
    if b == [] then false
    else if a == [] then true
    else a[0] < b[0] || (a[0] == b[0] && TextLess(a[1..], b[1..]))
  }

  /** The shorter of two texts, one of which begins with the other, comes first; otherwise the first difference decides. */
  lemma {:induction false} TextLessIs(a: string, b: string)
    ensures TextLess(a, b) <==> a < b || exists i: nat :: FirstDifference(a, b, i) && a[i] < b[i]
  {
    if a != [] && b != [] && a[0] == b[0] {
      TextLessIs(a[1..], b[1..]);
      if i: nat :| FirstDifference(a[1..], b[1..], i) && a[1..][i] < b[1..][i] { DifferLater(a, b, i); }
      if i: nat :| FirstDifference(a, b, i) && a[i] < b[i] { DifferLater(a, b, i - 1); }
    } else if a != [] && b != [] {
      assert FirstDifference(a, b, 0);
      if i: nat :| FirstDifference(a, b, i) { DifferAtOnce(a, b, i); }
    }
  }

  lemma DifferLater(a: string, b: string, i: nat)
    requires a != [] && b != [] && a[0] == b[0]
    ensures FirstDifference(a[1..], b[1..], i) <==> FirstDifference(a, b, i + 1)
  {
    if i < |a[1..]| && i < |b[1..]| {
      assert a[..i + 1] == [a[0]] + a[1..][..i] && b[..i + 1] == [b[0]] + b[1..][..i];
    }
  }

  lemma DifferAtOnce(a: string, b: string, i: nat)
    requires FirstDifference(a, b, i)
    ensures i == 0 || a[0] == b[0]
  {
    if i > 0 { assert a[0] == a[..i][0] && b[0] == b[..i][0]; }
  }

  /** The texts agree up to this place, and no further. */
  predicate FirstDifference(a: string, b: string, i: nat) { i < |a| && i < |b| && a[..i] == b[..i] && a[i] != b[i] }

  /** Of two texts exactly one comes first, unless they are equal. */
  predicate TextOrder(a: string, b: string) {
    (TextLess(a, b) ==> !TextLess(b, a)) && (TextLess(a, b) || a == b || TextLess(b, a)) && !TextLess(a, a)
  }

  lemma {:induction false} TextIsOrder(a: string, b: string)
    ensures TextOrder(a, b)
  {
    NotBeforeItself(a);
    if a != [] && b != [] && a[0] == b[0] {
      TextIsOrder(a[1..], b[1..]);
      assert a == [a[0]] + a[1..] && b == [b[0]] + b[1..];
    }
  }

  lemma {:induction false} NotBeforeItself(a: string)
    ensures !TextLess(a, a)
  {
    if a != [] { NotBeforeItself(a[1..]); }
  }

  lemma {:induction false} TextLessJoin(a: string, b: string, c: string)
    ensures TextLess(a, b) && TextLess(b, c) ==> TextLess(a, c)
  {
    if a != [] && b != [] && c != [] { TextLessJoin(a[1..], b[1..], c[1..]); }
  }

  /** Inserts behind everything that `x` does not come before. */
  function InsertBy<T>(sorted: seq<T>, x: T, before: (T, T) -> bool): (r: seq<T>)
    ensures multiset(r) == multiset(sorted) + multiset{x}
  {
    if sorted == [] || before(x, sorted[0]) then [x] + sorted
    else
      assert sorted == [sorted[0]] + sorted[1..];
      [sorted[0]] + InsertBy(sorted[1..], x, before)
  }

  /** A stable sort. */
  function SortBy<T>(s: seq<T>, before: (T, T) -> bool): (r: seq<T>)
    ensures multiset(r) == multiset(s)
  {
    if s == [] then []
    else
      assert s == s[..|s| - 1] + [s[|s| - 1]];
      InsertBy(SortBy(s[..|s| - 1], before), s[|s| - 1], before)
  }

  lemma SortByElements<T>(s: seq<T>, before: (T, T) -> bool)
    ensures |SortBy(s, before)| == |s|
    ensures forall x {:trigger x in SortBy(s, before)} {:trigger x in s} :: x in SortBy(s, before) <==> x in s
  {
    assert |multiset(SortBy(s, before))| == |multiset(s)|;
    forall x ensures x in SortBy(s, before) <==> x in s {
      assert x in multiset(SortBy(s, before)) <==> x in multiset(s);
    }
  }

  /** "Does not come after" is transitive, and of two elements at most one comes before the other. */
  ghost predicate IsOrder<T(!new)>(before: (T, T) -> bool) {
    && (forall x, y :: before(x, y) ==> !before(y, x))
    && (forall x, y, z :: !before(y, x) && !before(z, y) ==> !before(z, x))
  }

  ghost predicate SortedBy<T>(s: seq<T>, before: (T, T) -> bool) {
    forall i, j :: 0 <= i < j < |s| ==> !before(s[j], s[i])
  }

  lemma {:induction false} InsertBySorted<T(!new)>(sorted: seq<T>, x: T, before: (T, T) -> bool)
    requires SortedBy(sorted, before) && IsOrder(before)
    ensures SortedBy(InsertBy(sorted, x, before), before)
  {
    if sorted != [] && !before(x, sorted[0]) {
      InsertBySorted(sorted[1..], x, before);
      var rest := InsertBy(sorted[1..], x, before);
      forall y | y in rest ensures !before(y, sorted[0]) {
        assert y in multiset(rest) && y in multiset(sorted[1..]) + multiset{x};
      }
    }
  }

  lemma {:induction false} SortBySorted<T(!new)>(s: seq<T>, before: (T, T) -> bool)
    requires IsOrder(before)
    ensures SortedBy(SortBy(s, before), before)
  {
    if s != [] {
      SortBySorted(s[..|s| - 1], before);
      InsertBySorted(SortBy(s[..|s| - 1], before), s[|s| - 1], before);
    }
  }

  function Filtered<T>(s: seq<T>, p: T -> bool): seq<T> {
    if s == [] then [] else Filtered(s[..|s| - 1], p) + if p(s[|s| - 1]) then [s[|s| - 1]] else []
  }

  lemma {:induction false} FilteredJoin<T>(a: seq<T>, b: seq<T>, p: T -> bool)
    ensures Filtered(a + b, p) == Filtered(a, p) + Filtered(b, p)
  {
    if b == [] {
      assert a + b == a;
    } else {
      FilteredJoin(a, b[..|b| - 1], p);
      assert (a + b)[..|a + b| - 1] == a + b[..|b| - 1];
    }
  }

  lemma {:induction false} NoneFiltered<T>(s: seq<T>, p: T -> bool)
    requires forall x :: x in s ==> !p(x)
    ensures Filtered(s, p) == []
  {
    if s != [] { NoneFiltered(s[..|s| - 1], p); }
  }

  lemma OneFiltered<T>(x: T, p: T -> bool)
    ensures Filtered([x], p) == if p(x) then [x] else []
    ensures Filtered([], p) == []
  {
    assert [x][..0] == [];
  }

  /** The sort is stable: elements none of which comes before another keep their order. */
  lemma {:induction false} SortByKeeps<T(!new)>(s: seq<T>, before: (T, T) -> bool, p: T -> bool)
    requires IsOrder(before) && forall x, y :: p(x) && p(y) ==> !before(x, y)
    ensures Filtered(SortBy(s, before), p) == Filtered(s, p)
  {
    if s != [] {
      SortByKeeps(s[..|s| - 1], before, p);
      SortBySorted(s[..|s| - 1], before);
      InsertByKeeps(SortBy(s[..|s| - 1], before), s[|s| - 1], before, p);
    }
  }

  lemma NoneBehind<T(!new)>(sorted: seq<T>, x: T, before: (T, T) -> bool, p: T -> bool)
    requires IsOrder(before) && SortedBy(sorted, before) && sorted != [] && before(x, sorted[0])
    requires p(x) && forall x, y :: p(x) && p(y) ==> !before(x, y)
    ensures Filtered(sorted, p) == []
  {
    forall y | y in sorted ensures !p(y) {
      var i :| 0 <= i < |sorted| && sorted[i] == y;
      assert i > 0 ==> !before(sorted[i], sorted[0]);
    }
    NoneFiltered(sorted, p);
  }

  lemma {:induction false} InsertByKeeps<T(!new)>(sorted: seq<T>, x: T, before: (T, T) -> bool, p: T -> bool)
    requires IsOrder(before) && SortedBy(sorted, before) && forall x, y :: p(x) && p(y) ==> !before(x, y)
    ensures Filtered(InsertBy(sorted, x, before), p) == Filtered(sorted, p) + if p(x) then [x] else []
  {
    hide Filtered;
    FilteredJoin([x], sorted, p);
    OneFiltered(x, p);
    if sorted != [] && before(x, sorted[0]) {
      if p(x) { NoneBehind(sorted, x, before, p); }
    } else if sorted != [] {
      InsertByKeeps(sorted[1..], x, before, p);
      FilteredJoin([sorted[0]], sorted[1..], p);
      FilteredJoin([sorted[0]], InsertBy(sorted[1..], x, before), p);
      assert [sorted[0]] + sorted[1..] == sorted;
    }
  }

  ghost predicate NoRepeats<T>(s: seq<T>) { forall i, j :: 0 <= i < j < |s| ==> s[i] != s[j] }

  lemma {:induction false} NoRepeatsOnce<T>(s: seq<T>, x: T)
    requires NoRepeats(s)
    ensures multiset(s)[x] <= 1
  {
    if s != [] {
      var rest := s[..|s| - 1];
      assert s == rest + [s[|s| - 1]];
      NoRepeatsOnce(rest, x);
    }
  }

  lemma NoRepeatsPermuted<T>(a: seq<T>, b: seq<T>)
    requires NoRepeats(a) && multiset(a) == multiset(b)
    ensures NoRepeats(b)
  {
    forall i, j | 0 <= i < j < |b| ensures b[i] != b[j] {
      if b[i] == b[j] {
        assert b == b[..j] + [b[j]] + b[j + 1..];
        assert b[i] in b[..j];
        assert multiset(b)[b[i]] >= 2;
        NoRepeatsOnce(a, b[i]);
      }
    }
  }
}
