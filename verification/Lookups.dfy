/** The sanitizer's fast lookups, each against the plain definition it stands for, and the chunker for long texts. */
module Lookups {
  import opened Common
  import opened Spans

  // ------------------------------------------------------------------ binary search

  /** Halves `xs[lo..hi]` until the first element above `x` is found. */
  function BisectRight<T>(xs: seq<T>, x: T, less: (T, T) -> bool, lo: nat, hi: nat): (r: nat)
    requires lo <= hi <= |xs|
    requires forall i, j :: 0 <= i < j < |xs| && less(x, xs[i]) ==> less(x, xs[j])
    requires forall i :: 0 <= i < lo ==> !less(x, xs[i])
    requires forall i :: hi <= i < |xs| ==> less(x, xs[i])
    ensures r <= |xs|
    ensures forall i :: 0 <= i < r ==> !less(x, xs[i])
    ensures forall i :: r <= i < |xs| ==> less(x, xs[i])
    decreases hi - lo
  {
    if lo == hi then lo
    else
      var mid := (lo + hi) / 2;
      if less(x, xs[mid]) then BisectRight(xs, x, less, lo, mid) else BisectRight(xs, x, less, mid + 1, hi)
  }

  // ------------------------------------------------------------------ what is already covered

  /** Pairs in the order in which tuples compare. */
  const PAIRS: (Span, Span) -> bool := (x: Span, y: Span) => x.a < y.a || (x.a == y.a && x.b < y.b)

  lemma PairsAreOrdered()
    ensures IsOrder(PAIRS)
  {
  }

  /** The merged table of everything found, in which `InTable` looks up positions. */
  method CoverTable(found: seq<Span>, n: nat) returns (merged: seq<Span>)
    requires AllWithin(found, n)
    ensures Apart(merged, 1) && AllWithin(merged, n)
    ensures forall p: nat :: Covered(merged, p) <==> Covered(found, p)
  {
    var pairs := SortBy(found, PAIRS);
    SortedPairs(found, pairs, n);
    merged := Merge(pairs, true);
    MergeKeepsUnion(pairs, true);
    TouchedWithin(pairs, merged, n);
  }

  lemma SortedPairs(found: seq<Span>, pairs: seq<Span>, n: nat)
    requires AllWithin(found, n) && pairs == SortBy(found, PAIRS)
    ensures StartsAscend(pairs) && AllWithin(pairs, n)
    ensures forall p: nat :: Covered(pairs, p) <==> Covered(found, p)
  {
    PairsAreOrdered();
    SortBySorted(found, PAIRS);
    SortByElements(found, PAIRS);
    SameElementsCover(found, pairs);
    forall i, j | 0 <= i < j < |pairs| ensures pairs[i].a <= pairs[j].a { assert !PAIRS(pairs[j], pairs[i]); }
    forall i | 0 <= i < |pairs| ensures pairs[i].a <= pairs[i].b <= n { assert pairs[i] in found; }
  }

  lemma TouchedWithin(spans: seq<Span>, merged: seq<Span>, n: nat)
    requires Shaped(spans, merged, 1) && AllWithin(spans, n)
    ensures AllWithin(merged, n)
  {
    forall i | 0 <= i < |merged| ensures merged[i].a <= merged[i].b <= n { assert EndsWith(spans, merged[i]); }
  }

  /** Looks only at the last interval that does not begin behind `p`; the pair `(p, n)` is above every interval that begins
      at `p`. */
  function InTable(merged: seq<Span>, p: nat, n: nat): (r: bool)
    requires Apart(merged, 1) && AllWithin(merged, n)
    ensures r <==> Covered(merged, p)
  {
    var k := BisectRight(merged, Span("", p, n), PAIRS, 0, |merged|);
    k > 0 && merged[k - 1].a <= p < merged[k - 1].b
  }

  // ------------------------------------------------------------------ existing markers

  const STARTS: (Span, Span) -> bool := (x: Span, y: Span) => x.a < y.a

  function InsideMark(marks: seq<Span>, p: nat): (r: bool)
    requires Apart(marks, 0)
    ensures r <==> Covered(marks, p)
  {
    var k := BisectRight(marks, Span("", p, p), STARTS, 0, |marks|);
    k > 0 && marks[k - 1].a <= p < marks[k - 1].b
  }

  /** The spans that begin in no marker. */
  function Outside(found: seq<Span>, marks: seq<Span>): seq<Span> {
    if found == [] then []
    else
      Outside(found[..|found| - 1], marks)
      + if Covered(marks, found[|found| - 1].a) then [] else [found[|found| - 1]]
  }

  lemma {:induction false} OutsideKeeps(found: seq<Span>, marks: seq<Span>, s: Span)
    ensures s in Outside(found, marks) <==> s in found && !Covered(marks, s.a)
  {
    if found != [] {
      OutsideKeeps(found[..|found| - 1], marks, s);
      assert found == found[..|found| - 1] + [found[|found| - 1]];
    }
  }

  /** A span that begins inside a marker of an earlier pass is not a secret. The matches of the marker pattern come in order
      and do not overlap. */
  method KeepOutside(found: seq<Span>, marks: seq<Span>) returns (keep: seq<Span>)
    requires Apart(marks, 0)
    ensures keep == Outside(found, marks)
  {
    hide Covered, Apart;
    keep := [];
    for i := 0 to |found|
      invariant keep == Outside(found[..i], marks)
    {
      assert found[..i + 1][..i] == found[..i];
      if !InsideMark(marks, found[i].a) { keep := keep + [found[i]]; }
    }
    assert found[..|found|] == found;
  }

  // ------------------------------------------------------------------ one tool per line

  /** No line ends between the two positions. */
  predicate SameLine(text: string, p: nat, q: nat) { p <= q <= |text| && forall i :: p <= i < q ==> text[i] != '\n' }

  predicate BeginsLine(text: string, p: nat) { p == 0 || (p <= |text| && text[p - 1] == '\n') }

  function LineStarts(text: string): (r: seq<nat>)
    ensures r != [] && r[0] == 0
    ensures forall p {:trigger p in r} :: p in r <==> BeginsLine(text, p)
    ensures forall i, j :: 0 <= i < j < |r| ==> r[i] < r[j]
    ensures forall i :: 0 <= i < |r| ==> r[i] <= |text|
  {
    if text == [] then [0]
    else
      var n := |text| - 1;
      var before := LineStarts(text[..n]);
      assert forall p: nat :: p <= n ==> (BeginsLine(text, p) <==> BeginsLine(text[..n], p));
      if text[n] == '\n' then before + [n + 1] else before
  }

  const NUMBERS: (nat, nat) -> bool := (x: nat, y: nat) => x < y

  /** The start of the line that holds `p`. */
  function LineStart(text: string, p: nat): (r: nat)
    requires p <= |text|
    ensures BeginsLine(text, r) && SameLine(text, r, p)
  {
    var starts := LineStarts(text);
    var k := BisectRight(starts, p, NUMBERS, 0, |starts|);
    assert !NUMBERS(0, starts[0]);
    assert k > 0;
    assert starts[k - 1] in starts && !NUMBERS(p, starts[k - 1]);
    NoLineBetween(text, starts, k, p);
    starts[k - 1]
  }

  lemma NoLineBetween(text: string, starts: seq<nat>, k: nat, p: nat)
    requires forall q: nat {:trigger BeginsLine(text, q)} :: BeginsLine(text, q) ==> q in starts
    requires forall i, j :: 0 <= i < j < |starts| ==> starts[i] < starts[j]
    requires 0 < k <= |starts| && p <= |text| && starts[k - 1] <= p
    requires forall i :: k <= i < |starts| ==> p < starts[i]
    ensures SameLine(text, starts[k - 1], p)
  {
    forall i | starts[k - 1] <= i < p ensures text[i] != '\n' {
      assert i + 1 !in starts;
      assert !BeginsLine(text, i + 1);
    }
  }

  /** A line has one start. */
  lemma SameLineSameStart(text: string, p: nat, q: nat)
    requires p <= q <= |text|
    ensures SameLine(text, p, q) <==> LineStart(text, p) == LineStart(text, q)
  {
    var a, b := LineStart(text, p), LineStart(text, q);
    if SameLine(text, p, q) {
      assert a > 0 ==> text[a - 1] == '\n';
      assert b > 0 ==> text[b - 1] == '\n';
    }
  }

  /** The first tool of each line that has one. */
  ghost predicate FirstOnLine(text: string, tools: seq<nat>, n: nat, table: map<nat, nat>) {
    && n <= |tools|
    && (forall i :: 0 <= i < n && tools[i] <= |text| ==> LineStart(text, tools[i]) in table)
    && (forall line :: line in table ==> Remembered(text, tools, n, line, table[line]))
  }

  predicate Remembered(text: string, tools: seq<nat>, n: nat, line: nat, tool: nat) {
    exists i :: 0 <= i < n <= |tools| && IsFirst(text, tools, n, line, i) && tool == tools[i]
  }

  predicate IsFirst(text: string, tools: seq<nat>, n: nat, line: nat, i: nat) {
    && i < n <= |tools| && tools[i] <= |text| && LineStart(text, tools[i]) == line
    && forall j :: 0 <= j < n && tools[j] <= |text| && LineStart(text, tools[j]) == line ==> tools[i] <= tools[j]
  }

  /** The tools' matches come in order; of each line the first is remembered. */
  method FirstTools(text: string, tools: seq<nat>) returns (table: map<nat, nat>)
    requires forall i, j :: 0 <= i < j < |tools| ==> tools[i] <= tools[j]
    requires forall i :: 0 <= i < |tools| ==> tools[i] <= |text|
    ensures FirstOnLine(text, tools, |tools|, table)
  {
    hide LineStart;
    table := map[];
    for i := 0 to |tools|
      invariant FirstOnLine(text, tools, i, table)
    {
      var line := LineStart(text, tools[i]);
      FirstStep(text, tools, i, table);
      if line !in table { table := table[line := tools[i]]; }
    }
  }

  lemma FirstStep(text: string, tools: seq<nat>, n: nat, table: map<nat, nat>)
    requires forall i, j :: 0 <= i < j < |tools| ==> tools[i] <= tools[j]
    requires forall i :: 0 <= i < |tools| ==> tools[i] <= |text|
    requires n < |tools| && FirstOnLine(text, tools, n, table)
    ensures
      var line := LineStart(text, tools[n]);
      FirstOnLine(text, tools, n + 1, if line in table then table else table[line := tools[n]])
  {
    hide LineStart;
    var line := LineStart(text, tools[n]);
    var more := if line in table then table else table[line := tools[n]];
    forall l | l in more ensures Remembered(text, tools, n + 1, l, more[l]) {
      if l in table {
        var i :| 0 <= i < n && IsFirst(text, tools, n, l, i) && table[l] == tools[i];
        assert IsFirst(text, tools, n + 1, l, i);
      } else {
        assert IsFirst(text, tools, n + 1, l, n);
      }
    }
  }

  /** The table answers whether a tool stands earlier on the same line: a flag or a here-string counts only then. */
  lemma TableFindsTools(text: string, tools: seq<nat>, table: map<nat, nat>, p: nat)
    requires forall i :: 0 <= i < |tools| ==> tools[i] <= |text|
    requires FirstOnLine(text, tools, |tools|, table) && p <= |text|
    ensures
      var line := LineStart(text, p);
      (if line in table then table[line] else |text|) < p
      <==> exists i :: 0 <= i < |tools| && tools[i] < p && SameLine(text, tools[i], p)
  {
    hide LineStart;
    var line := LineStart(text, p);
    if line in table {
      var i :| 0 <= i < |tools| && IsFirst(text, tools, |tools|, line, i) && table[line] == tools[i];
      if tools[i] < p { SameLineSameStart(text, tools[i], p); }
    }
    if i :| 0 <= i < |tools| && tools[i] < p && SameLine(text, tools[i], p) {
      SameLineSameStart(text, tools[i], p);
      assert line in table;
    }
  }

  // ------------------------------------------------------------------ chunks

  /** A text may be cut before whitespace that does not follow a comma. */
  predicate Cuttable(text: string, i: nat) { 0 < i < |text| && IsSpace(text[i]) && text[i - 1] != ',' }

  /** The piece from `start` ends at the last such place in the second half of its room; if there is none, where the room
      ends. */
  predicate IsCut(text: string, start: nat, size: nat, cut: nat) {
    if cut == start + size then
      Cuttable(text, cut) || forall i :: start + size / 2 < i <= start + size ==> !Cuttable(text, i)
    else
      && start + size / 2 < cut < start + size && Cuttable(text, cut)
      && forall i :: cut < i <= start + size ==> !Cuttable(text, i)
  }

  function Flatten(pieces: seq<string>): string {
    if pieces == [] then "" else Flatten(pieces[..|pieces| - 1]) + pieces[|pieces| - 1]
  }

  /** Where piece `i` begins. */
  function Offset(pieces: seq<string>, i: nat): nat
    requires i <= |pieces|
  {
    |Flatten(pieces[..i])|
  }

  /** Every piece but the open end was cut where it should be. */
  ghost predicate WellCut(text: string, size: nat, pieces: seq<string>, n: nat) {
    && n <= |pieces|
    && forall i :: 0 <= i < n ==> IsCut(text, Offset(pieces, i), size, Offset(pieces, i + 1))
  }

  method Chunks(text: string, size: nat) returns (out: seq<string>)
    requires size > 0
    ensures Flatten(out) == text && out != []
    ensures WellCut(text, size, out, |out| - 1)
    ensures forall i :: 0 <= i < |out| - 1 ==> size / 2 < |out[i]| <= size
    ensures |out[|out| - 1]| <= size
  {
    hide IsCut, Cuttable;
    out := [];
    var start: nat := 0;
    while |text| - start > size
      invariant start <= |text| && Flatten(out) == text[..start]
      invariant WellCut(text, size, out, |out|)
      invariant forall i :: 0 <= i < |out| ==> size / 2 < |out[i]| <= size
      decreases |text| - start
    {
      var cut := FindCut(text, start, size);
      AppendPiece(text, size, out, start, cut);
      out := out + [text[start..cut]];
      start := cut;
    }
    LastPiece(text, size, out, text[start..]);
    out := out + [text[start..]];
  }

  method FindCut(text: string, start: nat, size: nat) returns (cut: nat)
    requires size > 0 && start + size < |text|
    ensures IsCut(text, start, size, cut) && start + size / 2 < cut <= start + size
  {
    var i := start + size;
    while i > start + size / 2
      invariant start + size / 2 <= i <= start + size
      invariant forall j :: i < j <= start + size ==> !Cuttable(text, j)
    {
      if IsSpace(text[i]) && text[i - 1] != ',' { return i; }
      i := i - 1;
    }
    cut := start + size;
  }

  lemma FlattenMore(pieces: seq<string>, piece: string)
    ensures Flatten(pieces + [piece]) == Flatten(pieces) + piece
    ensures forall i :: 0 <= i <= |pieces| ==> Offset(pieces + [piece], i) == Offset(pieces, i)
  {
    assert (pieces + [piece])[..|pieces|] == pieces;
    forall i | 0 <= i <= |pieces| ensures Offset(pieces + [piece], i) == Offset(pieces, i) {
      assert (pieces + [piece])[..i] == pieces[..i];
    }
  }

  lemma AppendPiece(text: string, size: nat, out: seq<string>, start: nat, cut: nat)
    requires start <= cut <= |text| && Flatten(out) == text[..start] && WellCut(text, size, out, |out|)
    requires IsCut(text, start, size, cut)
    ensures Flatten(out + [text[start..cut]]) == text[..cut]
    ensures WellCut(text, size, out + [text[start..cut]], |out| + 1)
  {
    hide IsCut, Flatten;
    var more := out + [text[start..cut]];
    FlattenMore(out, text[start..cut]);
    assert out[..|out|] == out && more[..|more|] == more;
    assert Offset(more, |out|) == start && Offset(more, |more|) == cut;
    assert text[..cut] == text[..start] + text[start..cut];
  }

  lemma LastPiece(text: string, size: nat, out: seq<string>, last: string)
    requires WellCut(text, size, out, |out|)
    ensures WellCut(text, size, out + [last], |out|)
    ensures Flatten(out + [last]) == Flatten(out) + last
  {
    hide IsCut, Flatten;
    FlattenMore(out, last);
  }
}
