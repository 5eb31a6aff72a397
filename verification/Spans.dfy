/** The span machinery of the bundle sanitizer: what the detectors found is merged, looked up and redacted. The detectors
    themselves are arbitrary functions from a text to spans. */
module Spans {
  import opened Common

  datatype Span = Span(name: string, a: nat, b: nat)

  predicate AllWithin(spans: seq<Span>, n: nat) {
    forall i :: 0 <= i < |spans| ==> spans[i].a <= spans[i].b <= n
  }

  /** Position `p` lies inside one of the spans. */
  predicate Covered(spans: seq<Span>, p: nat) { exists i :: 0 <= i < |spans| && spans[i].a <= p < spans[i].b }

  /** One of the spans begins before `p` and ends after it. */
  predicate Crossed(spans: seq<Span>, p: nat) { exists i :: 0 <= i < |spans| && spans[i].a < p < spans[i].b }

  predicate BeginsOne(spans: seq<Span>, p: nat) { exists i :: 0 <= i < |spans| && spans[i].a == p }

  lemma CoveredLast(init: seq<Span>, s: Span, p: nat)
    ensures Covered(init + [s], p) <==> Covered(init, p) || s.a <= p < s.b
    ensures Crossed(init + [s], p) <==> Crossed(init, p) || s.a < p < s.b
  {
    var all := init + [s];
    assert all[|init|] == s;
    if i :| 0 <= i < |init| && init[i].a <= p < init[i].b { assert all[i] == init[i]; }
    if i :| 0 <= i < |init| && init[i].a < p < init[i].b { assert all[i] == init[i]; }
  }

  // ------------------------------------------------------------------ merging

  /** By start; of two with the same start the longer first. */
  const BY_START: (Span, Span) -> bool := (x: Span, y: Span) => x.a < y.a || (x.a == y.a && x.b > y.b)

  lemma StartIsOrder()
    ensures IsOrder(BY_START)
  {
  }

  predicate StartsAscend(spans: seq<Span>) { forall i, j :: 0 <= i < j < |spans| ==> spans[i].a <= spans[j].a }

  /** Ordered and disjoint: each interval begins at least `gap` behind the end of the one before. */
  predicate Apart(merged: seq<Span>, gap: nat) {
    && (forall i :: 0 <= i < |merged| ==> merged[i].a <= merged[i].b)
    && (forall i, j :: 0 <= i < j < |merged| ==> merged[i].b + gap <= merged[j].a)
  }

  /** The last interval swallows a span that begins inside it, or, with `touching`, right at its end. */
  function MergeOne(merged: seq<Span>, s: Span, touching: bool): seq<Span> {
    if merged != [] && (if touching then s.a <= merged[|merged| - 1].b else s.a < merged[|merged| - 1].b) then
      var last := merged[|merged| - 1];
      merged[..|merged| - 1] + [last.(b := if last.b >= s.b then last.b else s.b)]
    else merged + [s]
  }

  function MergeAll(spans: seq<Span>, touching: bool): seq<Span> {
    if spans == [] then [] else MergeOne(MergeAll(spans[..|spans| - 1], touching), spans[|spans| - 1], touching)
  }

  /** An interval has the start and the category of a span. */
  predicate NamedAfter(spans: seq<Span>, m: Span) {
    exists j :: 0 <= j < |spans| && spans[j].a == m.a && spans[j].name == m.name
  }

  /** An interval ends where a span ends. */
  predicate EndsWith(spans: seq<Span>, m: Span) { exists j :: 0 <= j < |spans| && spans[j].b == m.b }

  /** A span lies in an interval and does not begin at the interval's end (unless the interval begins there too). */
  predicate Holds(m: Span, s: Span) { m.a <= s.a && s.b <= m.b && (s.a == m.a || s.a < m.b) }

  predicate Held(merged: seq<Span>, s: Span) { exists i :: 0 <= i < |merged| && Holds(merged[i], s) }

  /** Intervals apart, named after spans, and none beginning behind the last span. */
  predicate Shaped(spans: seq<Span>, merged: seq<Span>, gap: nat) {
    && Apart(merged, gap)
    && (spans != [] ==> merged != [] && merged[|merged| - 1].a <= spans[|spans| - 1].a)
    && (forall i :: 0 <= i < |merged| ==> NamedAfter(spans, merged[i]) && EndsWith(spans, merged[i]))
  }

  /** The intervals cover what the spans cover, and nothing is cut in two or glued together needlessly: a span lies in one
      interval, and inside an interval every position is crossed by a span. */
  ghost predicate SameUnion(spans: seq<Span>, merged: seq<Span>) {
    && (forall p: nat :: Covered(merged, p) <==> Covered(spans, p))
  }

  ghost predicate Tight(spans: seq<Span>, merged: seq<Span>) {
    && (forall p: nat :: Crossed(merged, p) <==> Crossed(spans, p))
    && (forall j :: 0 <= j < |spans| ==> Held(merged, spans[j]))
  }

  lemma ShapedStep(spans: seq<Span>, s: Span, merged: seq<Span>, touching: bool)
    requires Shaped(spans, merged, if touching then 1 else 0) && s.a <= s.b
    requires spans != [] ==> spans[|spans| - 1].a <= s.a
    requires spans == [] ==> merged == []
    ensures Shaped(spans + [s], MergeOne(merged, s, touching), if touching then 1 else 0)
  {
    var more, all := MergeOne(merged, s, touching), spans + [s];
    assert all[|spans|] == s;
    forall i | 0 <= i < |more| ensures NamedAfter(all, more[i]) && EndsWith(all, more[i]) {
      if i < |merged| {
        var j :| 0 <= j < |spans| && spans[j].a == merged[i].a && spans[j].name == merged[i].name;
        var k :| 0 <= k < |spans| && spans[k].b == merged[i].b;
        assert all[j] == spans[j] && all[k] == spans[k];
      }
    }
  }

  lemma UnionStep(spans: seq<Span>, s: Span, merged: seq<Span>, touching: bool)
    requires merged != [] ==> merged[|merged| - 1].a <= s.a
    requires s.a <= s.b && forall i :: 0 <= i < |merged| ==> merged[i].a <= merged[i].b
    requires SameUnion(spans, merged)
    ensures SameUnion(spans + [s], MergeOne(merged, s, touching))
  {
    hide Covered, Crossed;
    var more := MergeOne(merged, s, touching);
    forall p: nat ensures Covered(more, p) <==> Covered(spans + [s], p) {
      CoveredLast(spans, s, p);
      MergeOneCovers(merged, s, touching, p);
    }
  }

  lemma MergeOneCovers(merged: seq<Span>, s: Span, touching: bool, p: nat)
    requires merged != [] ==> merged[|merged| - 1].a <= s.a
    requires s.a <= s.b && forall i :: 0 <= i < |merged| ==> merged[i].a <= merged[i].b
    ensures Covered(MergeOne(merged, s, touching), p) <==> Covered(merged, p) || s.a <= p < s.b
    ensures !touching ==> (Crossed(MergeOne(merged, s, touching), p) <==> Crossed(merged, p) || s.a < p < s.b)
  {
    hide Covered, Crossed;
    CoveredLast(merged, s, p);
    if merged != [] {
      var last, init := merged[|merged| - 1], merged[..|merged| - 1];
      assert merged == init + [last];
      CoveredLast(init, last, p);
      CoveredLast(init, last.(b := if last.b >= s.b then last.b else s.b), p);
    }
  }

  lemma TightStep(spans: seq<Span>, s: Span, merged: seq<Span>)
    requires merged != [] ==> merged[|merged| - 1].a <= s.a
    requires s.a <= s.b && forall i :: 0 <= i < |merged| ==> merged[i].a <= merged[i].b
    requires Tight(spans, merged)
    ensures Tight(spans + [s], MergeOne(merged, s, false))
  {
    hide Covered, Crossed, Holds;
    var more, all := MergeOne(merged, s, false), spans + [s];
    forall p: nat ensures Crossed(more, p) <==> Crossed(all, p) {
      CoveredLast(spans, s, p);
      MergeOneCovers(merged, s, false, p);
    }
    forall j | 0 <= j < |all| ensures Held(more, all[j]) {
      if j < |spans| {
        assert all[j] == spans[j];
        HeldStep(merged, s, spans[j]);
      } else {
        HeldNew(merged, s);
      }
    }
  }

  lemma HeldStep(merged: seq<Span>, s: Span, earlier: Span)
    requires Held(merged, earlier)
    ensures Held(MergeOne(merged, s, false), earlier)
  {
    var i :| 0 <= i < |merged| && Holds(merged[i], earlier);
    assert Holds(MergeOne(merged, s, false)[i], earlier);
  }

  lemma HeldNew(merged: seq<Span>, s: Span)
    requires merged != [] ==> merged[|merged| - 1].a <= s.a
    ensures Held(MergeOne(merged, s, false), s)
  {
    var more := MergeOne(merged, s, false);
    assert Holds(more[|more| - 1], s);
  }

  /** Merging spans sorted by start gives disjoint intervals in order with the same union. Unless touching intervals are
      joined, it also joins spans only where they overlap. */
  lemma {:induction false} MergeKeepsUnion(spans: seq<Span>, touching: bool)
    requires StartsAscend(spans) && forall i :: 0 <= i < |spans| ==> spans[i].a <= spans[i].b
    ensures Shaped(spans, MergeAll(spans, touching), if touching then 1 else 0)
    ensures SameUnion(spans, MergeAll(spans, touching))
    ensures !touching ==> Tight(spans, MergeAll(spans, touching))
  {
    hide Shaped, SameUnion, Tight, MergeOne;
    if spans == [] {
      MergeNothing(touching);
    } else {
      var init, s := spans[..|spans| - 1], spans[|spans| - 1];
      assert spans == init + [s];
      MergeKeepsUnion(init, touching);
      assert MergeAll(spans, touching) == MergeOne(MergeAll(init, touching), s, touching);
      MergeJoin(init, s, touching);
    }
  }

  lemma MergeNothing(touching: bool)
    ensures Shaped([], MergeAll([], touching), if touching then 1 else 0)
    ensures SameUnion([], MergeAll([], touching)) && Tight([], MergeAll([], touching))
  {
  }

  lemma MergeJoin(init: seq<Span>, s: Span, touching: bool)
    requires init != [] ==> init[|init| - 1].a <= s.a
    requires s.a <= s.b
    requires Shaped(init, MergeAll(init, touching), if touching then 1 else 0)
    requires SameUnion(init, MergeAll(init, touching))
    requires !touching ==> Tight(init, MergeAll(init, touching))
    ensures Shaped(init + [s], MergeOne(MergeAll(init, touching), s, touching), if touching then 1 else 0)
    ensures SameUnion(init + [s], MergeOne(MergeAll(init, touching), s, touching))
    ensures !touching ==> Tight(init + [s], MergeOne(MergeAll(init, touching), s, touching))
  {
    hide SameUnion, Tight, NamedAfter, EndsWith, MergeOne;
    var merged := MergeAll(init, touching);
    ShapedStep(init, s, merged, touching);
    UnionStep(init, s, merged, touching);
    if !touching { TightStep(init, s, merged); }
  }

  method Merge(spans: seq<Span>, touching: bool) returns (merged: seq<Span>)
    ensures merged == MergeAll(spans, touching)
  {
    hide MergeOne;
    merged := [];
    var i := 0;
    while i < |spans|
      invariant 0 <= i <= |spans| && merged == MergeAll(spans[..i], touching)
    {
      assert spans[..i + 1][..i] == spans[..i];
      merged := MergeOne(merged, spans[i], touching);
      i := i + 1;
    }
    assert spans[..i] == spans;
  }

  /** Where intervals begin, said without the merge: at the starts of spans that no other span crosses. */
  lemma IntervalsBegin(spans: seq<Span>, p: nat)
    requires StartsAscend(spans) && forall i :: 0 <= i < |spans| ==> spans[i].a <= spans[i].b
    ensures BeginsOne(MergeAll(spans, false), p) <==> BeginsOne(spans, p) && !Crossed(spans, p)
  {
    MergeKeepsUnion(spans, false);
    BeginsApart(spans, MergeAll(spans, false), p);
  }

  lemma BeginsApart(spans: seq<Span>, merged: seq<Span>, p: nat)
    requires Shaped(spans, merged, 0) && Tight(spans, merged)
    ensures BeginsOne(merged, p) <==> BeginsOne(spans, p) && !Crossed(spans, p)
  {
    if BeginsOne(merged, p) {
      BeginsUncrossed(merged, p);
      IntervalBeginsSpan(spans, merged, p);
    }
    if BeginsOne(spans, p) && !Crossed(spans, p) { SpanBeginsInterval(spans, merged, p); }
  }

  lemma BeginsUncrossed(merged: seq<Span>, p: nat)
    requires Apart(merged, 0) && BeginsOne(merged, p)
    ensures !Crossed(merged, p)
  {
  }

  lemma IntervalBeginsSpan(spans: seq<Span>, merged: seq<Span>, p: nat)
    requires Shaped(spans, merged, 0) && BeginsOne(merged, p)
    ensures BeginsOne(spans, p)
  {
    hide EndsWith, Apart;
    var i :| 0 <= i < |merged| && merged[i].a == p;
    assert NamedAfter(spans, merged[i]);
  }

  lemma SpanBeginsInterval(spans: seq<Span>, merged: seq<Span>, p: nat)
    requires Tight(spans, merged) && BeginsOne(spans, p) && !Crossed(spans, p)
    ensures BeginsOne(merged, p)
  {
    hide Crossed;
    assert !Crossed(merged, p);
    var j :| 0 <= j < |spans| && spans[j].a == p;
    assert Held(merged, spans[j]);
    HeldBegins(merged, spans[j]);
  }

  lemma HeldBegins(merged: seq<Span>, s: Span)
    requires Held(merged, s) && !Crossed(merged, s.a)
    ensures BeginsOne(merged, s.a)
  {
  }

  // ------------------------------------------------------------------ the category of an interval

  /** Of the spans that begin at `a` the longest; of several the first one found. */
  function FirstLongest(spans: seq<Span>, a: nat): Option<Span> {
    if spans == [] then None
    else
      var best, last := FirstLongest(spans[..|spans| - 1], a), spans[|spans| - 1];
      if last.a == a && (best.None? || last.b > best.value.b) then Some(last) else best
  }

  function FirstAt(spans: seq<Span>, a: nat): Option<Span> {
    if spans == [] then None else if spans[0].a == a then Some(spans[0]) else FirstAt(spans[1..], a)
  }

  lemma {:induction false} FirstAtIs(spans: seq<Span>, a: nat)
    ensures FirstAt(spans, a).Some? <==> exists i :: 0 <= i < |spans| && spans[i].a == a
    ensures FirstAt(spans, a).Some? ==> FirstAt(spans, a).value in spans && FirstAt(spans, a).value.a == a
  {
    if spans != [] {
      FirstAtIs(spans[1..], a);
      assert spans == [spans[0]] + spans[1..];
    }
  }

  lemma {:induction false} InsertFirst(sorted: seq<Span>, x: Span, a: nat)
    requires SortedBy(sorted, BY_START)
    ensures
      var first := FirstAt(sorted, a);
      FirstAt(InsertBy(sorted, x, BY_START), a) == if x.a == a && (first.None? || x.b > first.value.b) then Some(x) else first
  {
    if sorted == [] || BY_START(x, sorted[0]) {
      assert ([x] + sorted)[1..] == sorted;
      FirstAtIs(sorted, a);
      assert forall i :: 0 < i < |sorted| ==> !BY_START(sorted[i], sorted[0]);
    } else {
      InsertFirst(sorted[1..], x, a);
      var rest := InsertBy(sorted[1..], x, BY_START);
      assert ([sorted[0]] + rest)[1..] == rest;
    }
  }

  /** Sorting puts the first longest span first. */
  lemma {:induction false} SortFirst(spans: seq<Span>, a: nat)
    ensures FirstAt(SortBy(spans, BY_START), a) == FirstLongest(spans, a)
  {
    if spans != [] {
      var init := spans[..|spans| - 1];
      SortFirst(init, a);
      StartIsOrder();
      SortBySorted(init, BY_START);
      InsertFirst(SortBy(init, BY_START), spans[|spans| - 1], a);
    }
  }

  lemma {:induction false} FirstAtLast(init: seq<Span>, s: Span, a: nat)
    ensures FirstAt(init + [s], a) == if FirstAt(init, a).Some? then FirstAt(init, a) else if s.a == a then Some(s) else None
  {
    if init == [] {
      assert init + [s] == [s];
    } else {
      FirstAtLast(init[1..], s, a);
      assert (init + [s])[1..] == init[1..] + [s];
    }
  }

  /** An interval that is not empty has the category of the first span that begins with it. */
  predicate NamedFirst(spans: seq<Span>, m: Span) {
    m.a < m.b ==> FirstAt(spans, m.a).Some? && FirstAt(spans, m.a).value.name == m.name
  }

  lemma {:induction false} MergeNames(spans: seq<Span>)
    requires SortedBy(spans, BY_START) && StartsAscend(spans) && forall i :: 0 <= i < |spans| ==> spans[i].a <= spans[i].b
    ensures forall i :: 0 <= i < |MergeAll(spans, false)| ==> NamedFirst(spans, MergeAll(spans, false)[i])
  {
    hide MergeOne, NamedFirst;
    if spans != [] {
      var init, s := spans[..|spans| - 1], spans[|spans| - 1];
      assert spans == init + [s];
      MergeNames(init);
      MergeKeepsUnion(init, false);
      NamesStep(init, s, MergeAll(init, false));
    }
  }

  lemma NamesStep(init: seq<Span>, s: Span, merged: seq<Span>)
    requires SortedBy(init + [s], BY_START) && s.a <= s.b && Shaped(init, merged, 0) && Tight(init, merged)
    requires init == [] ==> merged == []
    requires forall i :: 0 <= i < |merged| ==> NamedFirst(init, merged[i])
    ensures forall i :: 0 <= i < |MergeOne(merged, s, false)| ==> NamedFirst(init + [s], MergeOne(merged, s, false)[i])
  {
    hide NamedAfter, EndsWith, Tight, SortedBy, FirstAt;
    var more := MergeOne(merged, s, false);
    forall i | 0 <= i < |more| ensures NamedFirst(init + [s], more[i]) {
      FirstAtLast(init, s, more[i].a);
      if i < |merged| {
        if init != [] { LastComesAfter(init, s); }
        assert NamedFirst(init, merged[i]);
      } else if s.a < s.b {
        NewStart(init, s, merged);
      }
    }
  }

  lemma LastComesAfter(init: seq<Span>, s: Span)
    requires SortedBy(init + [s], BY_START) && init != []
    ensures init[|init| - 1].a <= s.a
  {
    var all := init + [s];
    assert all[|init| - 1] == init[|init| - 1] && all[|init|] == s;
    assert !BY_START(all[|init|], all[|init| - 1]);
  }

  /** A new interval begins where no span began before. */
  lemma NewStart(init: seq<Span>, s: Span, merged: seq<Span>)
    requires SortedBy(init + [s], BY_START) && s.a < s.b && Shaped(init, merged, 0) && Tight(init, merged)
    requires |MergeOne(merged, s, false)| == |merged| + 1
    ensures FirstAt(init, s.a) == None
  {
    hide Shaped, Tight, SortedBy;
    FirstAtIs(init, s.a);
    forall j | 0 <= j < |init| ensures init[j].a != s.a { StartsElsewhere(init, s, merged, j); }
  }

  lemma StartsElsewhere(init: seq<Span>, s: Span, merged: seq<Span>, j: nat)
    requires SortedBy(init + [s], BY_START) && s.a < s.b && Shaped(init, merged, 0) && Tight(init, merged)
    requires j < |init| && |MergeOne(merged, s, false)| == |merged| + 1
    ensures init[j].a != s.a
  {
    hide NamedAfter, EndsWith;
    var all := init + [s];
    assert all[j] == init[j] && !BY_START(all[|init|], all[j]);
    var i :| 0 <= i < |merged| && Holds(merged[i], init[j]);
    assert merged[i].b <= merged[|merged| - 1].b <= s.a;
  }

  // ------------------------------------------------------------------ one redaction pass

  function Marker(name: string): string { "[REDACTED:" + name + "]" }

  /** A marker stands between brackets and tells its category. */
  lemma MarkerTells(name: string)
    ensures var m := Marker(name); m[0] == '[' && m[|m| - 1] == ']' && m[10..|m| - 1] == name && m[..10] == "[REDACTED:"
  {
  }

  /** The markers of the intervals that begin at `p`, in order. */
  function Markers(merged: seq<Span>, p: nat): string {
    if merged == [] then ""
    else (if merged[0].a == p then Marker(merged[0].name) else "") + Markers(merged[1..], p)
  }

  /** What a redacted text is, position by position: the markers of the intervals beginning there, then the character,
      if no interval covers it. */
  function Masked(text: string, merged: seq<Span>, p: nat): string
    requires p <= |text|
    decreases |text| - p
  {
    if p == |text| then Markers(merged, p)
    else Markers(merged, p) + (if Covered(merged, p) then "" else [text[p]]) + Masked(text, merged, p + 1)
  }

  lemma {:induction false} NoMarkers(merged: seq<Span>, p: nat)
    requires forall i :: 0 <= i < |merged| ==> merged[i].a != p
    ensures Markers(merged, p) == ""
  {
    if merged != [] { NoMarkers(merged[1..], p); }
  }

  lemma CoveredFirst(merged: seq<Span>, p: nat)
    requires merged != []
    ensures Covered(merged, p) <==> merged[0].a <= p < merged[0].b || Covered(merged[1..], p)
  {
    if i :| 0 <= i < |merged| && merged[i].a <= p < merged[i].b {
      if i > 0 { assert merged[1..][i - 1] == merged[i]; }
    }
    if i :| 0 <= i < |merged[1..]| && merged[1..][i].a <= p < merged[1..][i].b {
      assert merged[i + 1] == merged[1..][i];
    }
  }

  /** Up to the first interval the text is kept. */
  lemma {:induction false} MaskedGap(text: string, merged: seq<Span>, p: nat, a: nat)
    requires p <= a <= |text| && forall i :: 0 <= i < |merged| ==> a <= merged[i].a
    ensures Masked(text, merged, p) == text[p..a] + Masked(text, merged, a)
    decreases a - p
  {
    hide Markers, Masked;
    if p < a {
      NoMarkers(merged, p);
      MaskedGap(text, merged, p + 1, a);
      MaskedStep(text, merged, p, [text[p]], "");
      assert text[p..a] == [text[p]] + text[p + 1..a];
    }
  }

  /** Behind an interval's end it no longer matters. */
  lemma {:induction false} DropPassed(text: string, merged: seq<Span>, p: nat)
    requires p <= |text| && merged != [] && merged[0].a < p && merged[0].b <= p
    ensures Masked(text, merged, p) == Masked(text, merged[1..], p)
    decreases |text| - p
  {
    hide Covered, Masked, Marker;
    CoveredFirst(merged, p);
    var markers := Markers(merged[1..], p);
    assert Markers(merged, p) == markers;
    if p < |text| {
      DropPassed(text, merged, p + 1);
      var kept := if Covered(merged, p) then "" else [text[p]];
      MaskedStep(text, merged, p, kept, markers);
      MaskedStep(text, merged[1..], p, kept, markers);
    } else {
      MaskedEnd(text, merged);
      MaskedEnd(text, merged[1..]);
    }
  }

  /** Inside an interval everything is dropped. */
  lemma {:induction false} MaskedInside(text: string, merged: seq<Span>, p: nat)
    requires merged != [] && Apart(merged, 0) && merged[0].a < p <= merged[0].b <= |text|
    ensures Masked(text, merged, p) == Masked(text, merged[1..], merged[0].b)
    decreases merged[0].b - p
  {
    hide Masked, Markers;
    if p == merged[0].b {
      DropPassed(text, merged, p);
    } else {
      assert Covered(merged, p);
      NoMarkers(merged, p);
      MaskedInside(text, merged, p + 1);
      MaskedStep(text, merged, p, "", "");
    }
  }

  /** At an interval: its marker, then the rest from its end. */
  lemma MaskedInterval(text: string, merged: seq<Span>)
    requires merged != [] && Apart(merged, 0) && merged[0].b <= |text|
    ensures Masked(text, merged, merged[0].a) == Marker(merged[0].name) + Masked(text, merged[1..], merged[0].b)
  {
    hide Masked, Markers, Covered, Marker;
    var a, b, first := merged[0].a, merged[0].b, Marker(merged[0].name);
    if a < b {
      NoMarkers(merged[1..], a);
      MarkersFirst(merged);
      CoveredFirst(merged, a);
      MaskedInside(text, merged, a + 1);
      MaskedStep(text, merged, a, "", first);
    } else {
      MaskedEmpty(text, merged);
    }
  }

  lemma MarkersFirst(merged: seq<Span>)
    requires merged != []
    ensures Markers(merged, merged[0].a) == Marker(merged[0].name) + Markers(merged[1..], merged[0].a)
  {
  }

  /** An empty interval only leaves its marker. */
  lemma MaskedEmpty(text: string, merged: seq<Span>)
    requires merged != [] && merged[0].a == merged[0].b <= |text|
    ensures Masked(text, merged, merged[0].a) == Marker(merged[0].name) + Masked(text, merged[1..], merged[0].b)
  {
    hide Covered, Marker, Masked, Markers;
    var a, first := merged[0].a, Marker(merged[0].name);
    MarkersFirst(merged);
    if a < |text| {
      CoveredFirst(merged, a);
      DropPassed(text, merged, a + 1);
      var kept := if Covered(merged, a) then "" else [text[a]];
      MaskedStep(text, merged, a, kept, first + Markers(merged[1..], a));
      MaskedStep(text, merged[1..], a, kept, Markers(merged[1..], a));
    } else {
      MaskedEnd(text, merged);
      MaskedEnd(text, merged[1..]);
    }
  }

  lemma MaskedEnd(text: string, merged: seq<Span>)
    ensures Masked(text, merged, |text|) == Markers(merged, |text|)
  {
  }

  lemma MaskedStep(text: string, merged: seq<Span>, p: nat, kept: string, markers: string)
    requires p < |text| && Markers(merged, p) == markers && kept == if Covered(merged, p) then "" else [text[p]]
    ensures Masked(text, merged, p) == markers + kept + Masked(text, merged, p + 1)
  {
  }

  /** Behind the last interval the text is kept. */
  lemma MaskedRest(text: string, p: nat)
    requires p <= |text|
    ensures Masked(text, [], p) == text[p..]
  {
    MaskedGap(text, [], p, |text|);
  }

  /** The text of one pass. */
  function Redacted(text: string, spans: seq<Span>): string {
    Masked(text, MergeAll(SortBy(spans, BY_START), false), 0)
  }

  lemma SortedSpans(spans: seq<Span>, n: nat)
    requires AllWithin(spans, n)
    ensures StartsAscend(SortBy(spans, BY_START)) && AllWithin(SortBy(spans, BY_START), n)
    ensures SortBy(spans, BY_START) == [] <==> spans == []
    ensures forall p: nat :: Covered(SortBy(spans, BY_START), p) <==> Covered(spans, p)
    ensures forall p: nat :: Crossed(SortBy(spans, BY_START), p) <==> Crossed(spans, p)
  {
    var sorted := SortBy(spans, BY_START);
    StartIsOrder();
    SortBySorted(spans, BY_START);
    SortByElements(spans, BY_START);
    forall i, j | 0 <= i < j < |sorted| ensures sorted[i].a <= sorted[j].a {
      assert !BY_START(sorted[j], sorted[i]);
    }
    forall i | 0 <= i < |sorted| ensures sorted[i].a <= sorted[i].b <= n { assert sorted[i] in spans; }
    SameElementsCover(spans, sorted);
  }

  lemma SameElementsCover(spans: seq<Span>, other: seq<Span>)
    requires forall s {:trigger s in other} {:trigger s in spans} :: s in other <==> s in spans
    ensures forall p: nat :: Covered(other, p) <==> Covered(spans, p)
    ensures forall p: nat :: Crossed(other, p) <==> Crossed(spans, p)
  {
    forall p: nat ensures (Covered(other, p) <==> Covered(spans, p)) && (Crossed(other, p) <==> Crossed(spans, p)) {
      assert Covered(other, p) <==> exists s :: s in other && s.a <= p < s.b;
      assert Covered(spans, p) <==> exists s :: s in spans && s.a <= p < s.b;
      assert Crossed(other, p) <==> exists s :: s in other && s.a < p < s.b;
      assert Crossed(spans, p) <==> exists s :: s in spans && s.a < p < s.b;
    }
  }

  /** The intervals of one pass, said by the spans alone: they cover what the spans cover, and begin exactly where a span
      begins that no other span crosses. */
  ghost predicate Intervals(spans: seq<Span>, merged: seq<Span>) {
    && (forall p: nat :: Covered(merged, p) <==> Covered(spans, p))
    && (forall p: nat :: BeginsOne(merged, p) <==> BeginsOne(spans, p) && !Crossed(spans, p))
    && (forall i :: 0 <= i < |merged| ==> NamedAfter(spans, merged[i]) && NamedByFirstLongest(spans, merged[i]))
  }

  /** An interval that is not empty has the category of the first longest span that begins with it. */
  predicate NamedByFirstLongest(spans: seq<Span>, m: Span) {
    m.a < m.b ==> FirstLongest(spans, m.a).Some? && FirstLongest(spans, m.a).value.name == m.name
  }

  /** One pass hides exactly the characters in the detectors' spans and keeps the others in order, with one marker at each
      interval. */
  lemma RedactedHidesTheSpans(text: string, spans: seq<Span>)
    requires AllWithin(spans, |text|)
    ensures
      var merged := MergeAll(SortBy(spans, BY_START), false);
      && Redacted(text, spans) == Masked(text, merged, 0)
      && Apart(merged, 0) && AllWithin(merged, |text|) && Intervals(spans, merged)
  {
    hide Covered, Crossed, BY_START, MergeAll, Masked, SortBy, BeginsOne, Intervals, Apart, AllWithin, StartsAscend, IsOrder,
         SortedBy;
    SortedSpans(spans, |text|);
    SortByElements(spans, BY_START);
    StartIsOrder();
    SortBySorted(spans, BY_START);
    forall a: nat ensures FirstAt(SortBy(spans, BY_START), a) == FirstLongest(spans, a) { SortFirst(spans, a); }
    SortedIntervals(spans, SortBy(spans, BY_START), |text|);
  }

  lemma SortedIntervals(spans: seq<Span>, sorted: seq<Span>, n: nat)
    requires StartsAscend(sorted) && AllWithin(sorted, n) && SortedBy(sorted, BY_START)
    requires forall a: nat :: FirstAt(sorted, a) == FirstLongest(spans, a)
    requires forall s: Span {:trigger s in sorted} {:trigger s in spans} :: s in sorted <==> s in spans
    ensures var merged := MergeAll(sorted, false); Apart(merged, 0) && AllWithin(merged, n) && Intervals(spans, merged)
  {
    hide Covered, Crossed, MergeAll, BeginsOne, NamedAfter, EndsWith, Tight, Apart, SortedBy, FirstAt, FirstLongest;
    var merged := MergeAll(sorted, false);
    MergeKeepsUnion(sorted, false);
    MergedWithin(sorted, merged, n);
    SameElementsCover(spans, sorted);
    forall p: nat ensures BeginsOne(merged, p) <==> BeginsOne(spans, p) && !Crossed(spans, p) {
      IntervalsBegin(sorted, p);
      SameStarts(spans, sorted, p);
    }
    MergeNames(sorted);
    forall i | 0 <= i < |merged| ensures NamedAfter(spans, merged[i]) && NamedByFirstLongest(spans, merged[i]) {
      NamedAfterToo(spans, sorted, merged[i]);
      assert NamedFirst(sorted, merged[i]);
    }
  }

  lemma NamedAfterToo(spans: seq<Span>, other: seq<Span>, m: Span)
    requires forall s {:trigger s in other} {:trigger s in spans} :: s in other <==> s in spans
    requires NamedAfter(other, m)
    ensures NamedAfter(spans, m)
  {
    var j :| 0 <= j < |other| && other[j].a == m.a && other[j].name == m.name;
    assert other[j] in spans;
  }

  lemma SameStarts(spans: seq<Span>, other: seq<Span>, p: nat)
    requires forall s {:trigger s in other} {:trigger s in spans} :: s in other <==> s in spans
    ensures BeginsOne(other, p) <==> BeginsOne(spans, p)
  {
    assert (exists i :: 0 <= i < |other| && other[i].a == p) <==> exists s :: s in other && s.a == p;
    assert (exists i :: 0 <= i < |spans| && spans[i].a == p) <==> exists s :: s in spans && s.a == p;
  }

  lemma MergedWithin(spans: seq<Span>, merged: seq<Span>, n: nat)
    requires Shaped(spans, merged, 0) && AllWithin(spans, n)
    ensures AllWithin(merged, n)
  {
    forall i | 0 <= i < |merged| ensures merged[i].a <= merged[i].b <= n { assert EndsWith(spans, merged[i]); }
  }

  /** From one interval to the next. */
  lemma RewriteStep(text: string, merged: seq<Span>, i: nat, pos: nat)
    requires Apart(merged, 0) && AllWithin(merged, |text|) && i < |merged| && pos <= merged[i].a
    ensures Masked(text, merged[i..], pos)
         == text[pos..merged[i].a] + Marker(merged[i].name) + Masked(text, merged[i + 1..], merged[i].b)
  {
    hide Masked, Markers, Marker;
    var rest := merged[i..];
    assert rest[0] == merged[i] && rest[1..] == merged[i + 1..];
    MaskedGap(text, rest, pos, merged[i].a);
    MaskedInterval(text, rest);
  }

  /** Rewrites the text around sorted, disjoint intervals. */
  method Rewrite(text: string, merged: seq<Span>) returns (out: string)
    requires Apart(merged, 0) && AllWithin(merged, |text|)
    ensures out == Masked(text, merged, 0)
  {
    hide Masked, Markers, Marker;
    out := "";
    var i, pos: nat := 0, 0;
    assert merged[0..] == merged;
    while i < |merged|
      invariant 0 <= i <= |merged| && pos <= |text|
      invariant i < |merged| ==> pos <= merged[i].a
      invariant Masked(text, merged, 0) == out + Masked(text, merged[i..], pos)
    {
      RewriteStep(text, merged, i, pos);
      out := out + (text[pos..merged[i].a] + Marker(merged[i].name));
      pos := merged[i].b;
      i := i + 1;
    }
    assert merged[i..] == [];
    MaskedRest(text, pos);
    out := out + text[pos..];
  }

  const PASSES: nat := 4

  /** At most `n` passes; the first that finds nothing ends it. */
  function RedactedTimes(find: string -> seq<Span>, text: string, n: nat): string
    decreases n
  {
    if n == 0 || find(text) == [] then text else RedactedTimes(find, Redacted(text, find(text)), n - 1)
  }

  /** A pass that leaves nothing to be found is the last one. */
  lemma {:induction false} CleanStaysClean(find: string -> seq<Span>, text: string, n: nat, more: nat)
    requires n <= more && find(RedactedTimes(find, text, n)) == []
    ensures RedactedTimes(find, text, more) == RedactedTimes(find, text, n)
    decreases n
  {
    hide Redacted;
    if n > 0 && find(text) != [] { CleanStaysClean(find, Redacted(text, find(text)), n - 1, more - 1); }
  }

  lemma CleanExactly(find: string -> seq<Span>, text: string)
    ensures find(RedactedTimes(find, text, PASSES)) == []
       <==> exists n :: 0 <= n <= PASSES && find(RedactedTimes(find, text, n)) == []
  {
    hide RedactedTimes;
    forall n: nat | n <= PASSES && find(RedactedTimes(find, text, n)) == []
      ensures find(RedactedTimes(find, text, PASSES)) == []
    {
      CleanStaysClean(find, text, n, PASSES);
    }
  }

  /** Replaces every detected span; a replacement can expose a new one, so the search is repeated. */
  method Redact(find: string -> seq<Span>, text: string) returns (out: string)
    requires forall t :: AllWithin(find(t), |t|)
    ensures out == RedactedTimes(find, text, PASSES)
    // nothing is left to be found exactly when one of the passes left nothing to be found
    ensures find(out) == [] <==> exists n :: 0 <= n <= PASSES && find(RedactedTimes(find, text, n)) == []
  {
    CleanExactly(find, text);
    out := text;
    var pass: nat := 0;
    while pass < PASSES
      invariant pass <= PASSES
      invariant RedactedTimes(find, text, PASSES) == RedactedTimes(find, out, PASSES - pass)
    {
      var found := find(out);
      assert AllWithin(found, |out|);
      SortedSpans(found, |out|);
      var spans := SortBy(found, BY_START);
      if spans == [] { return; }
      var merged := Merge(spans, false);
      MergeKeepsUnion(spans, false);
      MergedWithin(spans, merged, |out|);
      out := Rewrite(out, merged);
      pass := pass + 1;
    }
  }
}
