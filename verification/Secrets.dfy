/** Values collected from secret-named fields are removed from every text: a long one wherever it stands, a short one where
    it stands as a whole token. */
module Secrets {
  import opened Common

  const MARKER := "[REDACTED:secret_field_value]"

  /** Values at least this long are removed inside longer words too. */
  const LONG: nat := 6

  predicate IsWordChar(c: char) { 'A' <= c <= 'Z' || 'a' <= c <= 'z' || '0' <= c <= '9' }

  /** Letters and digits, and no neighbour of theirs. */
  lemma WordCharsAre(c: char)
    ensures IsWordChar(c) <==> 0x30 <= c as int < 0x3A || 0x41 <= c as int < 0x5B || 0x61 <= c as int < 0x7B
  {
  }

  predicate Stands(text: string, v: string, i: nat) { i + |v| <= |text| && text[i..i + |v|] == v }

  /** The expression made from the value matches here. */
  predicate Matches(text: string, v: string, i: nat) {
    && Stands(text, v, i)
    && (|v| >= LONG || ((i == 0 || !IsWordChar(text[i - 1])) && (i + |v| == |text| || !IsWordChar(text[i + |v|]))))
  }

  ghost predicate Found(text: string, v: string) { exists i :: Matches(text, v, i) }

  ghost predicate Occurs(text: string, v: string) { exists i :: Stands(text, v, i) }

  /** Substitutes the matches from position `i` on, from left to right. */
  function Replaced(text: string, v: string, i: nat): string
    requires v != "" && i <= |text|
    decreases |text| - i
  {
    if i + |v| > |text| then text[i..]
    else if Matches(text, v, i) then MARKER + Replaced(text, v, i + |v|)
    else [text[i]] + Replaced(text, v, i + 1)
  }

  function RemovedAll(text: string, values: seq<string>): string
    requires "" !in values
  {
    if values == [] then text
    else Replaced(RemovedAll(text, values[..|values| - 1]), values[|values| - 1], 0)
  }

  /** The collected values that occur in the text, the longest first. */
  ghost predicate Lists(values: seq<string>, collected: set<string>, text: string) {
    && (forall v {:trigger v in values} :: v in values <==> v in collected && Occurs(text, v))
    && (forall i, j :: 0 <= i < j < |values| ==> |values[i]| >= |values[j]|)
  }

  // ------------------------------------------------------------------ one substitution

  /** No bracket, so that it cannot overlap the edge of a marker. */
  predicate Plain(v: string) { v != "" && '[' !in v && ']' !in v }

  /** Removed wherever it stands, or delimited by its own first and last character. */
  predicate Firm(v: string) { v != "" && (|v| >= LONG || (IsWordChar(v[0]) && IsWordChar(v[|v| - 1]))) }

  /** No word ends before this place, and none begins there. */
  predicate Gap(a: string, b: string) { (a == "" || !IsWordChar(a[|a| - 1])) && (b == "" || !IsWordChar(b[0])) }

  /** Where a value can stand beside a marker: before it, in it, or behind it. */
  lemma BesideMarker(a: string, b: string, v: string, p: nat)
    requires Plain(v) && Stands(a + MARKER + b, v, p)
    ensures || (p + |v| <= |a| && Stands(a, v, p))
            || (|a| < p && p + |v| < |a| + |MARKER| && Stands(MARKER, v, p - |a|))
            || (|a| + |MARKER| <= p && Stands(b, v, p - |a| - |MARKER|))
  {
    var m := a + MARKER + b;
    assert m[|a|] == '[' && m[|a| + |MARKER| - 1] == ']';
    assert forall k :: p <= k < p + |v| ==> m[k] == v[k - p] && m[k] != '[' && m[k] != ']';
    if p + |v| <= |a| {
      assert m[p..p + |v|] == a[p..p + |v|];
    } else if |a| + |MARKER| <= p {
      var q := p - |a| - |MARKER|;
      assert m[p..p + |v|] == b[q..q + |v|];
    } else {
      assert m[p..p + |v|] == MARKER[p - |a|..p - |a| + |v|];
    }
  }

  lemma MatchBefore(a: string, mark: string, w: string, b: string, v: string, p: nat)
    requires p + |v| <= |a| && Matches(a + mark + b, v, p)
    requires |v| >= LONG || (Firm(v) && Gap(a, b))
    ensures Matches(a + w + b, v, p)
  {
    var m, n := a + mark + b, a + w + b;
    assert n[p..p + |v|] == a[p..p + |v|] == m[p..p + |v|];
    assert p > 0 ==> n[p - 1] == m[p - 1];
    assert p + |v| < |a| ==> n[p + |v|] == m[p + |v|];
  }

  lemma MatchInside(a: string, mark: string, b: string, v: string, p: nat)
    requires |a| < p && p + |v| < |a| + |mark| && Matches(a + mark + b, v, p)
    ensures Found(mark, v)
  {
    var m, q := a + mark + b, p - |a|;
    assert mark[q..q + |v|] == m[p..p + |v|];
    assert m[p - 1] == mark[q - 1] && m[p + |v|] == mark[q + |v|];
    assert Matches(mark, v, q);
  }

  lemma MatchBehind(a: string, mark: string, w: string, b: string, v: string, p: nat)
    requires p >= |a| + |mark| && Matches(a + mark + b, v, p)
    requires |v| >= LONG || (Firm(v) && Gap(a, b))
    ensures Found(a + w + b, v)
  {
    var m, n := a + mark + b, a + w + b;
    var q := p - |a| - |mark|;
    var r := |a| + |w| + q;
    assert n[r..r + |v|] == b[q..q + |v|] == m[p..p + |v|];
    assert q > 0 ==> n[r - 1] == m[p - 1];
    assert q + |v| < |b| ==> n[r + |v|] == m[p + |v|];
    assert Matches(n, v, r);
  }

  /** Putting a marker where a value stood shows no other value: what matches afterwards matched before, or in the marker. */
  lemma OneMarker(a: string, w: string, b: string, v: string, p: nat)
    requires Plain(v) && (|v| >= LONG || (Firm(v) && Gap(a, b))) && Matches(a + MARKER + b, v, p)
    ensures || (p + |v| <= |a| && Matches(a + w + b, v, p))
            || Found(MARKER, v)
            || (p >= |a| + |MARKER| && Found(a + w + b, v))
  {
    hide Firm, Gap, Plain, Found, MARKER;
    BesideMarker(a, b, v, p);
    if p + |v| <= |a| {
      MatchBefore(a, MARKER, w, b, v, p);
    } else if p < |a| + |MARKER| {
      MatchInside(a, MARKER, b, v, p);
    } else {
      MatchBehind(a, MARKER, w, b, v, p);
    }
  }

  lemma OneMarkerShowsNothing(a: string, w: string, b: string, v: string)
    requires Plain(v) && (|v| >= LONG || (Firm(v) && Gap(a, b)))
    ensures Found(a + MARKER + b, v) ==> Found(MARKER, v) || Found(a + w + b, v)
  {
    hide Firm, Gap, Plain, Matches, MARKER;
    if p :| Matches(a + MARKER + b, v, p) { OneMarker(a, w, b, v, p); }
  }

  /** `done` is the rewritten part of the text before `i`; it ends in a word only if that part did. */
  predicate Written(text: string, i: nat, done: string) {
    if i == 0 then done == ""
    else i <= |text| && done != "" && (IsWordChar(done[|done| - 1]) ==> IsWordChar(text[i - 1]))
  }

  lemma WrittenGap(text: string, w: string, i: nat, done: string)
    requires Written(text, i, done) && Matches(text, w, i)
    ensures done + text[i..] == done + w + text[i + |w|..]
    ensures |w| < LONG ==> Gap(done, text[i + |w|..])
  {
    assert text[i..] == w + text[i + |w|..];
  }

  lemma WrittenMarker(text: string, i: nat, done: string)
    requires 0 < i <= |text|
    ensures Written(text, i, done + MARKER)
  {
  }

  /** One step of the substitution: a marker for a match, or one character. */
  lemma ReplacedStep(text: string, w: string, i: nat, done: string)
    requires w != "" && i + |w| <= |text|
    ensures if Matches(text, w, i)
            then done + Replaced(text, w, i) == (done + MARKER) + Replaced(text, w, i + |w|)
            else done + Replaced(text, w, i) == (done + [text[i]]) + Replaced(text, w, i + 1)
    ensures done + [text[i]] + text[i + 1..] == done + text[i..]
  {
    hide Matches, MARKER;
    if Matches(text, w, i) {
      Regrouped(done, MARKER, Replaced(text, w, i + |w|));
    } else {
      Regrouped(done, [text[i]], Replaced(text, w, i + 1));
    }
    Regrouped(done, [text[i]], text[i + 1..]);
    assert text[i..] == [text[i]] + text[i + 1..];
  }

  lemma Regrouped(a: string, b: string, c: string)
    ensures a + (b + c) == (a + b) + c
  {
  }

  /** Removing one value shows no other value, unless the other is short and this one is long. */
  lemma {:induction false} NoneAppears(text: string, w: string, i: nat, done: string, v: string)
    requires w != "" && i <= |text| && Written(text, i, done) && Plain(v) && (|v| >= LONG || (Firm(v) && |w| < LONG))
    ensures Found(done + Replaced(text, w, i), v) ==> Found(MARKER, v) || Found(done + text[i..], v)
    decreases |text| - i
  {
    hide Matches, Plain, Firm, Found, Gap, MARKER;
    if i + |w| <= |text| {
      ReplacedStep(text, w, i, done);
      if Matches(text, w, i) {
        WrittenGap(text, w, i, done);
        WrittenMarker(text, i + |w|, done);
        NoneAppears(text, w, i + |w|, done + MARKER, v);
        OneMarkerShowsNothing(done, w, text[i + |w|..], v);
      } else {
        NoneAppears(text, w, i + 1, done + [text[i]], v);
      }
    }
  }

  /** Behind a marker a short value does not begin: the match before it ended at the end of a word. */
  predicate SameAhead(text: string, i: nat, done: string, v: string) {
    i > 0 && i < |text| && done != "" && !IsWordChar(done[|done| - 1]) && IsWordChar(text[i - 1]) ==>
      |v| >= LONG || !IsWordChar(text[i])
  }

  lemma MatchesAhead(text: string, i: nat, done: string, v: string)
    requires Firm(v) && i <= |text| && Written(text, i, done) && SameAhead(text, i, done, v)
    ensures Matches(done + text[i..], v, |done|) <==> Matches(text, v, i)
  {
    var m := done + text[i..];
    if i + |v| <= |text| {
      assert m[|done|..|done| + |v|] == text[i..i + |v|];
      assert i + |v| < |text| ==> m[|done| + |v|] == text[i + |v|];
      assert i > 0 ==> m[|done| - 1] == done[|done| - 1];
      assert m[|done|] == text[i];
    }
  }

  /** No match begins in the part already rewritten. */
  ghost predicate Cleared(done: string, rest: string, v: string) {
    forall p :: 0 <= p < |done| ==> !Matches(done + rest, v, p)
  }

  lemma ClearedByMarker(done: string, b: string, v: string)
    requires Cleared(done, v + b, v) && Plain(v) && !Found(MARKER, v) && (|v| >= LONG || (Firm(v) && Gap(done, b)))
    ensures Cleared(done + MARKER, b, v)
  {
    hide Matches, Firm, Gap, Found, MARKER;
    assert done + (v + b) == done + v + b;
    forall p | 0 <= p < |done + MARKER| ensures !Matches(done + MARKER + b, v, p) {
      if Matches(done + MARKER + b, v, p) { OneMarker(done, v, b, v, p); }
    }
  }

  lemma ClearedByChar(text: string, i: nat, done: string, v: string)
    requires i < |text| && Cleared(done, text[i..], v) && !Matches(done + text[i..], v, |done|)
    ensures Cleared(done + [text[i]], text[i + 1..], v)
  {
    hide Matches, MARKER;
    assert done + [text[i]] + text[i + 1..] == done + text[i..];
  }

  /** Removing a value leaves no match of it, unless the marker itself holds one. */
  lemma {:induction false} NoneIsLeft(text: string, v: string, i: nat, done: string)
    requires Plain(v) && Firm(v) && v != "" && !Found(MARKER, v) && i <= |text| && Written(text, i, done)
    requires SameAhead(text, i, done, v) && Cleared(done, text[i..], v)
    ensures !Found(done + Replaced(text, v, i), v)
    decreases |text| - i
  {
    hide Matches, Plain, Firm, Found, Cleared, Gap, Written, SameAhead, MARKER;
    if i + |v| > |text| {
      TooShort(done, text[i..], v);
    } else {
      ReplacedStep(text, v, i, done);
      if Matches(text, v, i) {
        WrittenGap(text, v, i, done);
        MatchGap(text, v, i, done);
        assert text[i..] == v + text[i + |v|..] by { MatchStands(text, v, i); }
        ClearedByMarker(done, text[i + |v|..], v);
        NoneIsLeft(text, v, i + |v|, done + MARKER);
      } else {
        MatchesAhead(text, i, done, v);
        ClearedByChar(text, i, done, v);
        WrittenChar(text, i, done, v);
        NoneIsLeft(text, v, i + 1, done + [text[i]]);
      }
    }
  }

  lemma MatchStands(text: string, v: string, i: nat)
    requires Matches(text, v, i)
    ensures text[i..] == v + text[i + |v|..]
  {
  }

  lemma WrittenChar(text: string, i: nat, done: string, v: string)
    requires i < |text|
    ensures Written(text, i + 1, done + [text[i]]) && SameAhead(text, i + 1, done + [text[i]], v)
  {
  }

  lemma MatchGap(text: string, v: string, i: nat, done: string)
    requires Firm(v) && Matches(text, v, i) && Written(text, i, done)
    ensures |v| >= LONG || Gap(done, text[i + |v|..])
    ensures SameAhead(text, i + |v|, done + MARKER, v) && Written(text, i + |v|, done + MARKER)
  {
    WrittenGap(text, v, i, done);
  }

  lemma TooShort(done: string, rest: string, v: string)
    requires |rest| < |v| && Cleared(done, rest, v)
    ensures !Found(done + rest, v)
  {
  }

  // ------------------------------------------------------------------ all values

  ghost predicate HoldsMarker(text: string) { exists a, b :: text == a + MARKER + b }

  /** A substitution changes nothing, or leaves a marker. */
  lemma {:induction false} ChangesOrMarks(text: string, w: string, i: nat)
    requires w != "" && i <= |text|
    ensures if exists p: nat :: i <= p && Matches(text, w, p) then HoldsMarker(Replaced(text, w, i)) else Replaced(text, w, i) == text[i..]
    decreases |text| - i
  {
    hide Matches, HoldsMarker, MARKER;
    if i + |w| > |text| {
      LateMatch(text, w);
    } else if Matches(text, w, i) {
      MarkerInFront(Replaced(text, w, i + |w|));
    } else {
      ChangesOrMarks(text, w, i + 1);
      StillHolds([text[i]], Replaced(text, w, i + 1));
    }
  }

  lemma MarkerInFront(b: string)
    ensures HoldsMarker(MARKER + b)
  {
    assert MARKER + b == "" + MARKER + b;
  }

  lemma StillHolds(a: string, text: string)
    ensures HoldsMarker(text) ==> HoldsMarker(a + text)
  {
    if x, y :| text == x + MARKER + y { assert a + text == (a + x) + MARKER + y; }
  }

  lemma LateMatch(text: string, w: string)
    requires w != ""
    ensures forall p: nat :: p + |w| > |text| ==> !Matches(text, w, p)
  {
  }

  ghost predicate AnyFound(text: string, values: seq<string>) { exists k :: 0 <= k < |values| && Found(text, values[k]) }

  lemma {:induction false} AllChangeOrMark(text: string, values: seq<string>)
    requires "" !in values
    ensures if AnyFound(text, values) then HoldsMarker(RemovedAll(text, values)) else RemovedAll(text, values) == text
  {
    hide Matches, HoldsMarker, MARKER;
    if values != [] {
      var init, last := values[..|values| - 1], values[|values| - 1];
      AllChangeOrMark(text, init);
      ChangesOrMarks(RemovedAll(text, init), last, 0);
      assert AnyFound(text, values) <==> AnyFound(text, init) || Found(text, last);
    }
  }

  lemma MatchEmbeds(a: string, mark: string, b: string, v: string, q: nat)
    requires 0 < q && q + |v| < |mark| && Matches(mark, v, q)
    ensures Matches(a + mark + b, v, |a| + q)
  {
    var text, p := a + mark + b, |a| + q;
    assert text[p..p + |v|] == mark[q..q + |v|];
    assert text[p - 1] == mark[q - 1] && text[p + |v|] == mark[q + |v|];
  }

  lemma StrictlyInside(v: string, q: nat)
    requires Plain(v) && Stands(MARKER, v, q)
    ensures 0 < q && q + |v| < |MARKER|
  {
    assert MARKER[q] == MARKER[q..q + |v|][0] == v[0];
    assert MARKER[q + |v| - 1] == MARKER[q..q + |v|][|v| - 1] == v[|v| - 1];
    assert MARKER[0] == '[' && MARKER[|MARKER| - 1] == ']';
  }

  lemma MarkerHolds(text: string, v: string)
    requires HoldsMarker(text) && Plain(v) && Found(MARKER, v)
    ensures Found(text, v)
  {
    hide Plain;
    var a, b :| text == a + MARKER + b;
    var q: nat :| Matches(MARKER, v, q);
    StrictlyInside(v, q);
    MatchEmbeds(a, MARKER, b, v, q);
  }

  /** No value appears while others are removed, if it is long or they are short. */
  lemma {:induction false} NoneAppearsInAll(text: string, values: seq<string>, v: string)
    requires "" !in values && Plain(v) && Firm(v) && !Found(MARKER, v) && !Found(text, v)
    requires |v| >= LONG || forall k :: 0 <= k < |values| ==> |values[k]| < LONG
    ensures !Found(RemovedAll(text, values), v)
  {
    hide Plain, Firm, Found, MARKER;
    if values != [] {
      var last, before := values[|values| - 1], RemovedAll(text, values[..|values| - 1]);
      NoneAppearsInAll(text, values[..|values| - 1], v);
      assert "" + Replaced(before, last, 0) == Replaced(before, last, 0) && "" + before[0..] == before;
      NoneAppears(before, last, 0, "", v);
    }
  }

  lemma {:induction false} NoneOccurs(text: string, w: string, i: nat, done: string, v: string)
    requires w != "" && i <= |text| && Plain(v) && !Occurs(MARKER, v) && !Occurs(done + text[i..], v)
    ensures !Occurs(done + Replaced(text, w, i), v)
    decreases |text| - i
  {
    hide Plain, Occurs, Matches, MARKER;
    if i + |w| <= |text| {
      ReplacedStep(text, w, i, done);
      if Matches(text, w, i) {
        MatchStands(text, w, i);
        assert done + (w + text[i + |w|..]) == done + w + text[i + |w|..];
        OccursBesideMarker(done, w, text[i + |w|..], v);
        NoneOccurs(text, w, i + |w|, done + MARKER, v);
      } else {
        NoneOccurs(text, w, i + 1, done + [text[i]], v);
      }
    }
  }

  lemma StandsAround(a: string, w: string, b: string, v: string, p: nat)
    ensures Stands(a, v, p) ==> Stands(a + w + b, v, p)
    ensures Stands(b, v, p) ==> Stands(a + w + b, v, |a| + |w| + p)
  {
    var n, r := a + w + b, |a| + |w| + p;
    if Stands(a, v, p) { assert n[p..p + |v|] == a[p..p + |v|]; }
    if Stands(b, v, p) { assert n[r..r + |v|] == b[p..p + |v|]; }
  }

  lemma OccursBesideMarker(a: string, w: string, b: string, v: string)
    requires Plain(v)
    ensures Occurs(a + MARKER + b, v) ==> Occurs(MARKER, v) || Occurs(a + w + b, v)
  {
    hide MARKER, Stands;
    if p: nat :| Stands(a + MARKER + b, v, p) {
      BesideMarker(a, b, v, p);
      if p + |v| <= |a| {
        StandsAround(a, w, b, v, p);
      } else if |a| + |MARKER| <= p {
        StandsAround(a, w, b, v, p - |a| - |MARKER|);
      }
    }
  }

  /** A value that is neither in the text nor in the marker is nowhere in the result. */
  lemma {:induction false} NoneOccursInAll(text: string, values: seq<string>, v: string)
    requires "" !in values && Plain(v) && !Occurs(MARKER, v) && !Occurs(text, v)
    ensures !Occurs(RemovedAll(text, values), v)
  {
    hide Plain, Occurs, MARKER;
    if values != [] {
      var last, before := values[|values| - 1], RemovedAll(text, values[..|values| - 1]);
      NoneOccursInAll(text, values[..|values| - 1], v);
      assert "" + Replaced(before, last, 0) == Replaced(before, last, 0) && "" + before[0..] == before;
      NoneOccurs(before, last, 0, "", v);
    }
  }

  lemma {:induction false} RemovedAllJoin(text: string, a: seq<string>, b: seq<string>)
    requires "" !in a && "" !in b
    ensures RemovedAll(text, a + b) == RemovedAll(RemovedAll(text, a), b)
  {
    hide Replaced, MARKER;
    if b == [] {
      assert a + b == a;
    } else {
      RemovedAllJoin(text, a, b[..|b| - 1]);
      assert (a + b)[..|a + b| - 1] == a + b[..|b| - 1];
    }
  }

  /** Of a listed value that has no bracket and is delimited by its own ends, or long, nothing is left in the text; unless
      it is part of the marker itself, and a marker was written. */
  lemma ListedValueIsGone(text: string, collected: set<string>, values: seq<string>, v: string)
    requires "" !in collected && Lists(values, collected, text)
    requires v in values && Plain(v) && Firm(v)
    ensures Found(RemovedAll(text, values), v) <==> Found(MARKER, v) && AnyFound(text, values)
  {
    hide Plain, Firm, Found, RemovedAll, HoldsMarker, MARKER, Cleared, Replaced, Occurs;
    assert "" !in values;
    AllChangeOrMark(text, values);
    var k :| 0 <= k < |values| && values[k] == v;
    if Found(MARKER, v) {
      if AnyFound(text, values) { MarkerHolds(RemovedAll(text, values), v); }
    } else {
      var a, b := values[..k], values[k + 1..];
      var before := RemovedAll(text, a);
      assert values == a + ([v] + b);
      RemovedAllJoin(text, a, [v] + b);
      RemovedAllJoin(before, [v], b);
      OneRemoved(before, v);
      NothingDone(before, v);
      NoneIsLeft(before, v, 0, "");
      forall j | 0 <= j < |b| ensures |b[j]| <= |v| { assert b[j] == values[k + 1 + j]; }
      NoneAppearsInAll(RemovedAll(before, [v]), b, v);
    }
  }

  lemma NothingDone(text: string, v: string)
    ensures Cleared("", text[0..], v) && Written(text, 0, "") && SameAhead(text, 0, "", v)
  {
  }

  lemma OneRemoved(text: string, v: string)
    requires v != ""
    ensures RemovedAll(text, [v]) == Replaced(text, v, 0) == "" + Replaced(text, v, 0)
  {
    assert [v][..0] == [];
  }

  // ------------------------------------------------------------------ the removal, and where it fails

  /** Removes the collected values one after another. Of a value that has no bracket, and is long or delimited by its own
      ends, nothing is left, unless it is a word of the marker and a marker was written; and a value that was nowhere in the
      text is not shown either. */
  method RemoveSecretValues(text: string, ghost collected: set<string>, values: seq<string>) returns (out: string)
    requires "" !in collected && Lists(values, collected, text)
    ensures out == RemovedAll(text, values)
    ensures forall v {:trigger v in collected} :: v in collected && Occurs(text, v) && Plain(v) && Firm(v) ==>
              (Found(out, v) <==> Found(MARKER, v) && AnyFound(text, values))
    ensures forall v {:trigger v in collected} :: v in collected && !Occurs(text, v) && Plain(v) && !Occurs(MARKER, v) ==>
              !Occurs(out, v)
  {
    hide Matches, Plain, Firm, Found, Occurs, Replaced, MARKER;
    assert "" !in values;
    out := text;
    for i := 0 to |values|
      invariant out == RemovedAll(text, values[..i])
    {
      assert values[..i + 1][..i] == values[..i];
      out := Replaced(out, values[i], 0);
    }
    assert values[..|values|] == values;
    forall v | v in collected && Occurs(text, v) && Plain(v) && Firm(v)
      ensures Found(out, v) <==> Found(MARKER, v) && AnyFound(text, values)
    {
      ListedValueIsGone(text, collected, values, v);
    }
    forall v | v in collected && !Occurs(text, v) && Plain(v) && !Occurs(MARKER, v) ensures !Occurs(out, v) {
      NoneOccursInAll(text, values, v);
    }
  }

  /** A short value that ends in a character of no word can become a token once the word behind it is removed. */
  lemma TokenAppears()
    ensures Lists(["123-", "abc"], {"123-", "abc"}, "123-abc")
    ensures !Found("123-abc", "123-") && !Firm("123-")
    ensures Found(RemovedAll("123-abc", ["123-", "abc"]), "123-")
  {
    var text, v, w := "123-abc", "123-", "abc";
    assert Stands(text, v, 0) && Stands(text, w, 4);
    forall i: nat ensures !Matches(text, v, i) {
      if Stands(text, v, i) { assert text[i..i + 4][0] == text[i] && v[0] == '1'; }
    }
    ChangesOrMarks(text, v, 0);
    assert RemovedAll(text, [v]) == text by { OneRemoved(text, v); }
    WordReplaced(text, w);
    assert [v, w][..1] == [v];
    assert RemovedAll(text, [v, w]) == v + MARKER;
    assert (v + MARKER)[0..4] == v && (v + MARKER)[4] == '[';
    assert Matches(v + MARKER, v, 0);
  }

  lemma WordReplaced(text: string, w: string)
    requires text == "123-abc" && w == "abc"
    ensures Replaced(text, w, 0) == "123-" + MARKER
  {
    hide MARKER;
    assert Matches(text, w, 4) by { assert text[4..7] == w; }
    forall i | 0 <= i < 4 ensures !Matches(text, w, i) { assert text[i..i + 3][0] == text[i]; }
    assert Replaced(text, w, 7) == "";
    assert Replaced(text, w, 4) == MARKER + "";
    hide Matches;
    assert Replaced(text, w, 3) == "-" + MARKER;
    assert Replaced(text, w, 2) == "3" + ("-" + MARKER);
    assert Replaced(text, w, 1) == "2" + ("3" + ("-" + MARKER));
    assert Replaced(text, w, 0) == "1" + ("2" + ("3" + ("-" + MARKER)));
  }

  /** A word of the marker is shown by the marker that replaces it. */
  lemma MarkerShowsItsWords()
    ensures Lists(["value"], {"value"}, "value") && Firm("value") && Plain("value")
    ensures Found(RemovedAll("value", ["value"]), "value")
  {
    var v := "value";
    assert Matches(v, v, 0);
    assert Found(v, [v][0]);
    assert MARKER[23..28] == v && Matches(MARKER, v, 23);
    assert forall u :: u in [v] <==> u == v;
    ListedValueIsGone(v, {v}, [v], v);
  }
}
