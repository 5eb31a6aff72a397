/** The DNS SRV codec: names with message compression (sections 3.1 and 4.1.4 of RFC 1035) and SRV records (RFC 2782). */
module Dnsq {
  import opened Common

  type Byte = b: int | 0 <= b < 256

  datatype DnsError = InvalidLabel | NotAscii | TruncatedName | TruncatedPointer | BadPointer | UnsupportedLabel | TruncatedLabel
    | NameTooLong | ShortAnswer | NotAnAnswer | TruncatedRecord | TruncatedData

  const MAX_JUMPS: nat := 16
  const MAX_LABELS: nat := 127
  const MAX_ANSWERS: nat := 32
  const MAX_QUESTIONS: nat := 4
  const SRV: nat := 33

  type Label = seq<Byte>

  // ------------------------------------------------------------------ text of a name

  /** One byte of a label as text: ASCII as it is, anything else the replacement character. */
  function TextOf(b: Byte): char { if b < 128 then b as char else '\U{FFFD}' }

  /** A character that is not ASCII is replaced, any other kept. */
  lemma TextOfByte(b: Byte)
    ensures TextOf(b) as int == b <==> b < 0x80
    ensures b >= 0x80 ==> TextOf(b) == '\U{FFFD}'
  {
  }

  function LabelText(l: Label): string { seq(|l|, i requires 0 <= i < |l| => TextOf(l[i])) }

  function Join(labels: seq<string>): string {
    if labels == [] then ""
    else if |labels| == 1 then labels[0]
    else labels[0] + "." + Join(labels[1..])
  }

  function NameText(labels: seq<Label>): string {
    Lower(Join(seq(|labels|, i requires 0 <= i < |labels| => LabelText(labels[i]))))
  }

  // ------------------------------------------------------------------ reading a name

  datatype Parsed = Parsed(labels: seq<Label>, end: nat)

  function Pointer(hi: Byte, lo: Byte): nat
    requires hi >= 192
  {
    (hi - 192) * 256 + lo
  }

  /** An offset of fourteen bits is written with the two high bits set, and read back. */
  lemma PointerReadsBack(offset: nat)
    requires offset < 0x4000
    ensures var hi, lo := 0xC0 + offset / 0x100, offset % 0x100; hi < 0x100 && Pointer(hi, lo) == offset
  {
  }

  /** The labels of the name at `pos`, and the offset just past it. A pointer may only lead backwards and at most
      MAX_JUMPS are followed, although reading on from its target may pass the same pointer again. */
  function Walk(msg: seq<Byte>, pos: nat, jumps: nat, count: nat): (r: Result<Parsed, DnsError>)
    requires jumps <= MAX_JUMPS
    ensures r.Ok? ==> pos < r.value.end <= |msg|
    ensures r.Ok? && count <= MAX_LABELS ==> count + |r.value.labels| <= MAX_LABELS
    ensures r.Ok? ==> forall i :: 0 <= i < |r.value.labels| ==> 0 < |r.value.labels[i]| < 64
    decreases MAX_JUMPS - jumps, |msg| - pos
  {
    if pos >= |msg| then Err(TruncatedName)
    else if msg[pos] == 0 then Ok(Parsed([], pos + 1))
    else if msg[pos] >= 192 then
      if pos + 1 >= |msg| then Err(TruncatedPointer)
      else if Pointer(msg[pos], msg[pos + 1]) >= pos || jumps >= MAX_JUMPS then Err(BadPointer)
      else
        match Walk(msg, Pointer(msg[pos], msg[pos + 1]), jumps + 1, count)
        case Err(e) => Err(e)
        case Ok(p) => Ok(Parsed(p.labels, pos + 2))
    else if msg[pos] >= 64 then Err(UnsupportedLabel)
    else if pos + 1 + msg[pos] > |msg| then Err(TruncatedLabel)
    else if count + 1 > MAX_LABELS then Err(NameTooLong)
    else
      match Walk(msg, pos + 1 + msg[pos], jumps, count + 1)
      case Err(e) => Err(e)
      case Ok(p) => Ok(Parsed([msg[pos + 1..pos + 1 + msg[pos]]] + p.labels, p.end))
  }

  /** What is read, once `labels` were read before and the first pointer, if any, ended the name at `end`. */
  function Resumed(labels: seq<Label>, end: Option<nat>, rest: Result<Parsed, DnsError>): Result<Parsed, DnsError> {
    match rest
    case Err(e) => Err(e)
    case Ok(p) => Ok(Parsed(labels + p.labels, if end.Some? then end.value else p.end))
  }

  function NameAt(msg: seq<Byte>, off: nat): Result<(string, nat), DnsError> {
    match Walk(msg, off, 0, 0)
    case Err(e) => Err(e)
    case Ok(p) => Ok((NameText(p.labels), p.end))
  }

  /** One turn of the reader at `pos` leaves the outcome of the whole reading unchanged. */
  lemma WalkTurn(msg: seq<Byte>, pos: nat, jumps: nat, labels: seq<Label>, end: Option<nat>)
    requires jumps <= MAX_JUMPS && |labels| <= MAX_LABELS
    ensures var now := Resumed(labels, end, Walk(msg, pos, jumps, |labels|));
            if pos >= |msg| then now == Err(TruncatedName)
            else if msg[pos] == 0 then now == Ok(Parsed(labels, if end.Some? then end.value else pos + 1))
            else if msg[pos] >= 192 then
              if pos + 1 >= |msg| then now == Err(TruncatedPointer)
              else
                var ptr := Pointer(msg[pos], msg[pos + 1]);
                if ptr >= pos || jumps >= MAX_JUMPS then now == Err(BadPointer)
                else now == Resumed(labels, Some(if end.Some? then end.value else pos + 2), Walk(msg, ptr, jumps + 1, |labels|))
            else if msg[pos] >= 64 then now == Err(UnsupportedLabel)
            else if pos + 1 + msg[pos] > |msg| then now == Err(TruncatedLabel)
            else if |labels| == MAX_LABELS then now == Err(NameTooLong)
            else
              var l := msg[pos + 1..pos + 1 + msg[pos]];
              now == Resumed(labels + [l], end, Walk(msg, pos + 1 + msg[pos], jumps, |labels| + 1))
  {
    if pos < |msg| && 0 < msg[pos] < 64 && pos + 1 + msg[pos] <= |msg| && |labels| < MAX_LABELS {
      var l := msg[pos + 1..pos + 1 + msg[pos]];
      var rest := Walk(msg, pos + 1 + msg[pos], jumps, |labels| + 1);
      assert rest.Ok? ==> labels + ([l] + rest.value.labels) == (labels + [l]) + rest.value.labels;
    }
    assert labels + [] == labels;
  }

  /** Reads one name: it terminates on every message, reads inside it only, and ends behind where it began. */
  method ReadName(msg: seq<Byte>, off: nat) returns (r: Result<(string, nat), DnsError>)
    ensures r == NameAt(msg, off)
    ensures r.Ok? ==> off < r.value.1 <= |msg|
  {
    hide Walk, Resumed, NameText;
    var labels: seq<Label> := [];
    var jumps: nat, end: Option<nat>, pos: nat := 0, None, off;
    ResumedNothing(Walk(msg, off, 0, 0));
    while true
      invariant jumps <= MAX_JUMPS && |labels| <= MAX_LABELS
      invariant Walk(msg, off, 0, 0) == Resumed(labels, end, Walk(msg, pos, jumps, |labels|))
      decreases MAX_JUMPS - jumps, |msg| - pos
    {
      WalkTurn(msg, pos, jumps, labels, end);
      if pos >= |msg| {
        return Err(TruncatedName);
      }
      var n := msg[pos];
      if n == 0 {
        pos := pos + 1;
        break;
      }
      if n >= 192 {
        if pos + 1 >= |msg| {
          return Err(TruncatedPointer);
        }
        var ptr := Pointer(n, msg[pos + 1]);
        if ptr >= pos || jumps >= MAX_JUMPS {
          return Err(BadPointer);
        }
        if end.None? {
          end := Some(pos + 2);
        }
        pos, jumps := ptr, jumps + 1;
        continue;
      }
      if n >= 64 {
        return Err(UnsupportedLabel);
      }
      if pos + 1 + n > |msg| {
        return Err(TruncatedLabel);
      }
      labels := labels + [msg[pos + 1..pos + 1 + n]];
      if |labels| > MAX_LABELS {
        return Err(NameTooLong);
      }
      pos := pos + 1 + n;
    }
    return Ok((NameText(labels), if end.Some? then end.value else pos));
  }

  lemma ResumedNothing(r: Result<Parsed, DnsError>)
    ensures Resumed([], None, r) == r
  {
    assert r.Ok? ==> [] + r.value.labels == r.value.labels;
  }

  // ------------------------------------------------------------------ writing a name

  /** The parts between the dots; there is always at least one. */
  function SplitDots(s: string): (r: seq<string>)
    ensures r != []
  {
    if s == [] then [""]
    else if s[0] == '.' then [""] + SplitDots(s[1..])
    else
      var r := SplitDots(s[1..]);
      [[s[0]] + r[0]] + r[1..]
  }

  predicate IsAscii(s: string) { forall i :: 0 <= i < |s| ==> s[i] < 128 as char }

  predicate IsLabel(s: string) { IsAscii(s) && 0 < |s| < 64 }

  function Ascii(s: string): (l: Label)
    requires IsAscii(s)
    ensures |l| == |s|
  {
    seq(|s|, i requires 0 <= i < |s| && s[i] < 128 as char => var b: Byte := s[i] as int; b)
  }

  predicate AreLabels(labels: seq<Label>) { forall i :: 0 <= i < |labels| ==> 0 < |labels[i]| < 64 }

  function Octets(labels: seq<Label>): seq<Byte>
    requires AreLabels(labels)
  {
    if labels == [] then [] else [|labels[0]|] + labels[0] + Octets(labels[1..])
  }

  function AsciiLabels(parts: seq<string>): (r: seq<Label>)
    requires forall i :: 0 <= i < |parts| ==> IsLabel(parts[i])
    ensures |r| == |parts| && AreLabels(r)
  {
    seq(|parts|, i requires 0 <= i < |parts| && IsLabel(parts[i]) => Ascii(parts[i]))
  }

  lemma {:induction false} OctetsSnoc(labels: seq<Label>, l: Label)
    requires AreLabels(labels) && 0 < |l| < 64
    ensures Octets(labels + [l]) == Octets(labels) + [|l|] + l
  {
    if labels == [] {
      assert labels + [l] == [l];
    } else {
      OctetsSnoc(labels[1..], l);
      assert (labels + [l])[1..] == labels[1..] + [l];
    }
  }

  ghost predicate FirstBad(parts: seq<string>, i: nat, e: DnsError) {
    && i < |parts| && !IsLabel(parts[i]) && (forall j :: 0 <= j < i ==> IsLabel(parts[j]))
    && e == if IsAscii(parts[i]) then InvalidLabel else NotAscii
  }

  /** The name on the wire. It is refused at the first part that is not ASCII, empty, or longer than 63 characters. */
  method EncodeName(name: string) returns (r: Result<seq<Byte>, DnsError>)
    ensures r.Ok? ==> var parts := SplitDots(WithoutTrailingDots(name));
                      (forall i :: 0 <= i < |parts| ==> IsLabel(parts[i])) && r.value == Octets(AsciiLabels(parts)) + [0]
    ensures r.Err? ==> exists i :: FirstBad(SplitDots(WithoutTrailingDots(name)), i, r.error)
  {
    var parts := SplitDots(WithoutTrailingDots(name));
    var out: seq<Byte> := [];
    var i := 0;
    while i < |parts|
      invariant 0 <= i <= |parts|
      invariant forall j :: 0 <= j < i ==> IsLabel(parts[j])
      invariant out == Octets(AsciiLabels(parts[..i]))
    {
      if !IsAscii(parts[i]) {
        assert FirstBad(parts, i, NotAscii);
        return Err(NotAscii);
      }
      if !(0 < |parts[i]| < 64) {
        assert FirstBad(parts, i, InvalidLabel);
        return Err(InvalidLabel);
      }
      var raw := Ascii(parts[i]);
      OctetsSnoc(AsciiLabels(parts[..i]), raw);
      assert AsciiLabels(parts[..i + 1]) == AsciiLabels(parts[..i]) + [raw];
      out := out + [|raw|] + raw;
      i := i + 1;
    }
    assert parts[..i] == parts;
    return Ok(out + [0]);
  }

  // ------------------------------------------------------------------ reading back what was written

  predicate HoldsAt(msg: seq<Byte>, pos: nat, octets: seq<Byte>) {
    pos + |octets| <= |msg| && msg[pos..pos + |octets|] == octets
  }

  lemma HoldsParts(msg: seq<Byte>, pos: nat, a: seq<Byte>, b: seq<Byte>)
    requires HoldsAt(msg, pos, a + b)
    ensures HoldsAt(msg, pos, a) && HoldsAt(msg, pos + |a|, b)
  {
    assert msg[pos..pos + |a + b|][..|a|] == a;
    assert msg[pos..pos + |a + b|][|a|..] == b;
    assert msg[pos..pos + |a|] == msg[pos..pos + |a + b|][..|a|];
    assert msg[pos + |a|..pos + |a| + |b|] == msg[pos..pos + |a + b|][|a|..];
  }

  lemma WalkOne(msg: seq<Byte>, pos: nat, jumps: nat, count: nat, l: Label)
    requires 0 < |l| < 64 && HoldsAt(msg, pos, [|l|] + l) && jumps <= MAX_JUMPS && count <= MAX_LABELS
    ensures Walk(msg, pos, jumps, count)
            == if count == MAX_LABELS then Err(NameTooLong) else Resumed([l], None, Walk(msg, pos + 1 + |l|, jumps, count + 1))
  {
    HoldsParts(msg, pos, [|l|], l);
    assert msg[pos] == msg[pos..pos + 1][0] == |l|;
  }

  lemma ResumedTwice(l: Label, labels: seq<Label>, rest: Result<Parsed, DnsError>)
    ensures Resumed([l], None, Resumed(labels, None, rest)) == Resumed([l] + labels, None, rest)
  {
    assert rest.Ok? ==> [l] + (labels + rest.value.labels) == [l] + labels + rest.value.labels;
  }

  /** Labels on the wire are read one by one, up to the bound on their number. */
  lemma {:induction false} WalkLabels(msg: seq<Byte>, pos: nat, jumps: nat, count: nat, labels: seq<Label>)
    requires AreLabels(labels) && HoldsAt(msg, pos, Octets(labels)) && jumps <= MAX_JUMPS && count <= MAX_LABELS
    ensures count + |labels| > MAX_LABELS ==> Walk(msg, pos, jumps, count) == Err(NameTooLong)
    ensures count + |labels| <= MAX_LABELS ==>
              Walk(msg, pos, jumps, count)
              == Resumed(labels, None, Walk(msg, pos + |Octets(labels)|, jumps, count + |labels|))
    decreases |labels|
  {
    hide Walk, Resumed;
    if labels == [] {
      ResumedNothing(Walk(msg, pos, jumps, count));
    } else {
      var l := labels[0];
      HoldsParts(msg, pos, [|l|] + l, Octets(labels[1..]));
      WalkOne(msg, pos, jumps, count, l);
      if count < MAX_LABELS {
        assert AreLabels(labels[1..]);
        WalkLabels(msg, pos + 1 + |l|, jumps, count + 1, labels[1..]);
        assert pos + 1 + |l| + |Octets(labels[1..])| == pos + |Octets(labels)|;
        if count + |labels| <= MAX_LABELS {
          ResumedTwice(l, labels[1..], Walk(msg, pos + |Octets(labels)|, jumps, count + |labels|));
          assert [l] + labels[1..] == labels;
        } else {
          ResumedError(l);
        }
      }
    }
  }

  lemma ResumedError(l: Label)
    ensures Resumed([l], None, Err(NameTooLong)) == Err(NameTooLong)
  {
  }

  /** Round trip of the labels: a plain name is read back exactly when it has at most MAX_LABELS labels. */
  lemma PlainNameReadsBack(msg: seq<Byte>, pos: nat, jumps: nat, count: nat, labels: seq<Label>)
    requires AreLabels(labels) && HoldsAt(msg, pos, Octets(labels) + [0]) && jumps <= MAX_JUMPS && count <= MAX_LABELS
    ensures Walk(msg, pos, jumps, count)
            == if count + |labels| <= MAX_LABELS then Ok(Parsed(labels, pos + |Octets(labels)| + 1)) else Err(NameTooLong)
  {
    HoldsParts(msg, pos, Octets(labels), [0]);
    WalkLabels(msg, pos, jumps, count, labels);
    var at := pos + |Octets(labels)|;
    assert msg[at] == msg[at..at + 1][0];
    assert labels + [] == labels;
  }

  lemma {:induction false} JoinSplit(s: string)
    ensures Join(SplitDots(s)) == s
  {
    hide Join;
    if s != [] {
      JoinSplit(s[1..]);
      var r := SplitDots(s[1..]);
      assert s == [s[0]] + s[1..];
      JoinMore(s[0], r);
    } else {
      JoinOne("");
    }
  }

  lemma JoinOne(s: string)
    ensures Join([s]) == s
  {
  }

  /** One character more in front: a dot begins a new part, any other character belongs to the first one. */
  lemma JoinMore(c: char, parts: seq<string>)
    requires parts != []
    ensures Join([""] + parts) == "." + Join(parts)
    ensures Join([[c] + parts[0]] + parts[1..]) == [c] + Join(parts)
  {
    assert ([""] + parts)[1..] == parts;
    assert ([[c] + parts[0]] + parts[1..])[1..] == parts[1..];
  }

  lemma AsciiReadsBack(parts: seq<string>)
    requires forall i :: 0 <= i < |parts| ==> IsLabel(parts[i])
    ensures NameText(AsciiLabels(parts)) == Lower(Join(parts))
  {
    var labels := AsciiLabels(parts);
    forall i | 0 <= i < |parts| ensures LabelText(labels[i]) == parts[i] {
      forall k | 0 <= k < |parts[i]| ensures TextOf(labels[i][k]) == parts[i][k] {
        assert parts[i][k] in parts[i];
      }
    }
    assert seq(|labels|, i requires 0 <= i < |labels| => LabelText(labels[i])) == parts;
  }

  /** Round trip: every name that can be written is read back in lower case without its trailing dots, wherever in a
      message it stands, exactly when it has at most MAX_LABELS labels. */
  lemma NameRoundTrip(name: string, octets: seq<Byte>, before: seq<Byte>, after: seq<Byte>)
    requires var parts := SplitDots(WithoutTrailingDots(name));
             (forall i :: 0 <= i < |parts| ==> IsLabel(parts[i])) && octets == Octets(AsciiLabels(parts)) + [0]
    ensures NameAt(before + octets + after, |before|)
            == if |SplitDots(WithoutTrailingDots(name))| <= MAX_LABELS
               then Ok((Lower(WithoutTrailingDots(name)), |before| + |octets|)) else Err(NameTooLong)
  {
    var parts := SplitDots(WithoutTrailingDots(name));
    var msg := before + octets + after;
    assert msg[|before|..|before| + |octets|] == octets;
    PlainNameReadsBack(msg, |before|, 0, 0, AsciiLabels(parts));
    AsciiReadsBack(parts);
    JoinSplit(WithoutTrailingDots(name));
  }

  // ------------------------------------------------------------------ compression

  /** How many pointers a successful reading follows. */
  function Hops(msg: seq<Byte>, pos: nat, jumps: nat, count: nat): nat
    requires jumps <= MAX_JUMPS && Walk(msg, pos, jumps, count).Ok?
    decreases MAX_JUMPS - jumps, |msg| - pos
  {
    if msg[pos] == 0 then 0
    else if msg[pos] >= 192 then 1 + Hops(msg, Pointer(msg[pos], msg[pos + 1]), jumps + 1, count)
    else Hops(msg, pos + 1 + msg[pos], jumps, count + 1)
  }

  /** The same place reads the same from any other context, exactly when the pointers and labels still fit. */
  lemma {:induction false} WalkElsewhere(msg: seq<Byte>, pos: nat, jumps: nat, count: nat, jumps': nat, count': nat)
    requires jumps <= MAX_JUMPS && jumps' <= MAX_JUMPS && count <= MAX_LABELS && count' <= MAX_LABELS
    requires Walk(msg, pos, jumps, count).Ok?
    ensures var p := Walk(msg, pos, jumps, count).value;
            if jumps' + Hops(msg, pos, jumps, count) <= MAX_JUMPS && count' + |p.labels| <= MAX_LABELS
            then Walk(msg, pos, jumps', count') == Ok(p)
            else Walk(msg, pos, jumps', count').Err?
    decreases MAX_JUMPS - jumps, |msg| - pos
  {
    if msg[pos] == 0 {
    } else if msg[pos] >= 192 {
      if jumps' < MAX_JUMPS {
        WalkElsewhere(msg, Pointer(msg[pos], msg[pos + 1]), jumps + 1, count, jumps' + 1, count');
      }
    } else if count' < MAX_LABELS {
      WalkElsewhere(msg, pos + 1 + msg[pos], jumps, count + 1, jumps', count' + 1);
    }
  }

  /** Round trip with compression: when the end of a name is replaced by a backward pointer to a readable name, the two
      parts are read as one name, exactly when the pointers followed and the labels stay within their bounds. */
  lemma CompressedNameReadsBack(msg: seq<Byte>, pos: nat, labels: seq<Label>, hi: Byte, lo: Byte)
    requires AreLabels(labels) && hi >= 192 && HoldsAt(msg, pos, Octets(labels) + [hi, lo])
    requires Pointer(hi, lo) < pos + |Octets(labels)| && |labels| <= MAX_LABELS
    requires Walk(msg, Pointer(hi, lo), 0, 0).Ok?
    ensures var p := Walk(msg, Pointer(hi, lo), 0, 0).value;
            if 1 + Hops(msg, Pointer(hi, lo), 0, 0) <= MAX_JUMPS && |labels| + |p.labels| <= MAX_LABELS
            then Walk(msg, pos, 0, 0) == Ok(Parsed(labels + p.labels, pos + |Octets(labels)| + 2))
            else Walk(msg, pos, 0, 0).Err?
  {
    hide Octets, Walk, Hops, HoldsAt;
    HoldsParts(msg, pos, Octets(labels), [hi, lo]);
    WalkLabels(msg, pos, 0, 0, labels);
    WalkPointer(msg, pos + |Octets(labels)|, |labels|, hi, lo);
    WalkElsewhere(msg, Pointer(hi, lo), 0, 0, 1, |labels|);
  }

  lemma WalkPointer(msg: seq<Byte>, at: nat, count: nat, hi: Byte, lo: Byte)
    requires hi >= 192 && HoldsAt(msg, at, [hi, lo]) && Pointer(hi, lo) < at
    ensures
      var there := Walk(msg, Pointer(hi, lo), 1, count);
      Walk(msg, at, 0, count) == if there.Ok? then Ok(Parsed(there.value.labels, at + 2)) else there
  {
    assert msg[at] == msg[at..at + 2][0] == hi && msg[at + 1] == msg[at..at + 2][1] == lo;
  }

  /** The first `k` labels read at `pos` stand there, up to the end of the name. */
  ghost predicate EndsPlain(msg: seq<Byte>, pos: nat, p: Parsed, k: nat) {
    && k == |p.labels| && AreLabels(p.labels)
    && HoldsAt(msg, pos, Octets(p.labels) + [0]) && p.end == pos + |Octets(p.labels)| + 1
  }

  /** The first `k` labels read at `pos` stand there, followed by a backward pointer at which the others are read. */
  ghost predicate EndsAtPointer(msg: seq<Byte>, pos: nat, jumps: nat, count: nat, p: Parsed, k: nat, hi: Byte, lo: Byte) {
    && k <= |p.labels| && AreLabels(p.labels[..k]) && hi >= 192 && jumps < MAX_JUMPS
    && var octets := Octets(p.labels[..k]);
       && HoldsAt(msg, pos, octets + [hi, lo]) && p.end == pos + |octets| + 2 && Pointer(hi, lo) < pos + |octets|
       && var rest := Walk(msg, Pointer(hi, lo), jumps + 1, count + k);
          rest.Ok? && rest.value.labels == p.labels[k..]
  }

  /** Conversely, whatever is read was written there: its labels up to the root, or up to the first pointer. */
  lemma {:induction false} ReadWasWritten(msg: seq<Byte>, pos: nat, jumps: nat, count: nat) returns (k: nat, hi: Byte, lo: Byte)
    requires jumps <= MAX_JUMPS && Walk(msg, pos, jumps, count).Ok?
    ensures var p := Walk(msg, pos, jumps, count).value;
            EndsPlain(msg, pos, p, k) || EndsAtPointer(msg, pos, jumps, count, p, k, hi, lo)
    decreases |msg| - pos
  {
    var p := Walk(msg, pos, jumps, count).value;
    k, hi, lo := 0, 0, 0;
    if msg[pos] >= 192 {
      hi, lo := msg[pos], msg[pos + 1];
      assert Octets(p.labels[..0]) + [hi, lo] == [hi, lo] == msg[pos..pos + 2];
      assert p.labels[0..] == p.labels;
    } else if msg[pos] != 0 {
      var next := pos + 1 + msg[pos];
      k, hi, lo := ReadWasWritten(msg, next, jumps, count + 1);
      var q := Walk(msg, next, jumps, count + 1).value;
      if EndsPlain(msg, next, q, k) {
        PrependPlain(msg, pos, next, p, q, k);
      } else {
        PrependPointer(msg, pos, next, jumps, count, p, q, k, hi, lo);
      }
      k := k + 1;
    } else {
      assert msg[pos..pos + 1] == [0];
    }
  }

  lemma HoldsJoin(msg: seq<Byte>, pos: nat, next: nat, b: seq<Byte>)
    requires pos <= next && HoldsAt(msg, next, b)
    ensures HoldsAt(msg, pos, msg[pos..next] + b)
  {
  }

  lemma PrependPlain(msg: seq<Byte>, pos: nat, next: nat, p: Parsed, q: Parsed, k: nat)
    requires EndsPlain(msg, next, q, k) && pos < next <= |msg| && 0 < msg[pos] < 64 && next == pos + 1 + msg[pos]
    requires p == Parsed([msg[pos + 1..next]] + q.labels, q.end)
    ensures EndsPlain(msg, pos, p, k + 1)
  {
    assert p.labels[1..] == q.labels;
    HoldsJoin(msg, pos, next, Octets(q.labels) + [0]);
    assert Octets(p.labels) + [0] == msg[pos..next] + (Octets(q.labels) + [0]);
  }

  lemma PrependPointer(msg: seq<Byte>, pos: nat, next: nat, jumps: nat, count: nat, p: Parsed, q: Parsed, k: nat, hi: Byte, lo: Byte)
    requires EndsAtPointer(msg, next, jumps, count + 1, q, k, hi, lo)
    requires pos < next <= |msg| && 0 < msg[pos] < 64 && next == pos + 1 + msg[pos]
    requires p == Parsed([msg[pos + 1..next]] + q.labels, q.end)
    ensures EndsAtPointer(msg, pos, jumps, count, p, k + 1, hi, lo)
  {
    hide Walk, Octets, HoldsAt;
    var first := msg[pos + 1..next];
    assert p.labels[..k + 1] == [first] + q.labels[..k] && p.labels[k + 1..] == q.labels[k..];
    OctetsCons(first, q.labels[..k]);
    assert msg[pos..next] == [msg[pos]] + first;
    HoldsJoin(msg, pos, next, Octets(q.labels[..k]) + [hi, lo]);
    assert Octets(p.labels[..k + 1]) + [hi, lo] == msg[pos..next] + (Octets(q.labels[..k]) + [hi, lo]);
  }

  lemma OctetsCons(l: Label, labels: seq<Label>)
    requires AreLabels([l] + labels) && AreLabels(labels)
    ensures Octets([l] + labels) == [|l|] + l + Octets(labels)
  {
    assert ([l] + labels)[1..] == labels;
  }

  // ------------------------------------------------------------------ the answer to an SRV query

  datatype Answer = Answer(priority: nat, weight: nat, port: nat, target: string)

  function U16(msg: seq<Byte>, off: nat): nat
    requires off + 2 <= |msg|
  {
    var hi: nat, lo: nat := msg[off], msg[off + 1];
    hi * 256 + lo
  }

  function Shortened(s: string): string { if |s| > 253 then s[..253] else s }

  function SkipQuestions(msg: seq<Byte>, off: nat, n: nat): Result<nat, DnsError>
    decreases n
  {
    if n == 0 then Ok(off)
    else
      match NameAt(msg, off)
      case Err(e) => Err(e)
      case Ok(name) => SkipQuestions(msg, name.1 + 4, n - 1)
  }

  /** One record at `off`: the answer it holds, if it is an SRV record, and the offset of the next one. */
  function RecordAt(msg: seq<Byte>, off: nat): (r: Result<(Option<Answer>, nat), DnsError>)
    ensures r.Ok? ==> off < r.value.1 <= |msg|
  {
    match NameAt(msg, off)
    case Err(e) => Err(e)
    case Ok((_, at)) =>
      if at + 10 > |msg| then Err(TruncatedRecord)
      else
        var rdlen := U16(msg, at + 8);
        if at + 10 + rdlen > |msg| then Err(TruncatedData)
        else if U16(msg, at) == SRV && rdlen >= 7 then
          match NameAt(msg, at + 16)
          case Err(e) => Err(e)
          case Ok((target, _)) =>
            Ok((Some(Answer(U16(msg, at + 10), U16(msg, at + 12), U16(msg, at + 14), Shortened(target))), at + 10 + rdlen))
        else Ok((None, at + 10 + rdlen))
  }

  function ReadAnswers(msg: seq<Byte>, off: nat, n: nat): (r: Result<seq<Answer>, DnsError>)
    ensures r.Ok? ==> |r.value| <= n
    decreases n
  {
    if n == 0 then Ok([])
    else
      match RecordAt(msg, off)
      case Err(e) => Err(e)
      case Ok((answer, next)) =>
        match ReadAnswers(msg, next, n - 1)
        case Err(e) => Err(e)
        case Ok(rest) => Ok((if answer.Some? then [answer.value] else []) + rest)
  }

  function AtMost(n: nat, bound: nat): nat { if n < bound then n else bound }

  function Parse(msg: seq<Byte>, qid: nat): Result<(nat, seq<Answer>), DnsError> {
    if |msg| < 12 then Err(ShortAnswer)
    else if U16(msg, 0) != qid || U16(msg, 2) < 0x8000 then Err(NotAnAnswer)
    else
      match SkipQuestions(msg, 12, AtMost(U16(msg, 4), MAX_QUESTIONS))
      case Err(e) => Err(e)
      case Ok(off) =>
        match ReadAnswers(msg, off, AtMost(U16(msg, 6), MAX_ANSWERS))
        case Err(e) => Err(e)
        case Ok(answers) => Ok((U16(msg, 2) % 16, answers))
  }

  /** Reads one record and the offset of the next one. */
  method ReadRecord(msg: seq<Byte>, off: nat) returns (r: Result<(Option<Answer>, nat), DnsError>)
    ensures r == RecordAt(msg, off)
  {
    hide NameAt;
    var owner := ReadName(msg, off);
    if owner.Err? {
      return Err(owner.error);
    }
    var at := owner.value.1;
    if at + 10 > |msg| {
      return Err(TruncatedRecord);
    }
    var rtype, rdlen := U16(msg, at), U16(msg, at + 8);
    if at + 10 + rdlen > |msg| {
      return Err(TruncatedData);
    }
    var answer := None;
    if rtype == SRV && rdlen >= 7 {
      var target := ReadName(msg, at + 16);
      if target.Err? {
        return Err(target.error);
      }
      answer := Some(Answer(U16(msg, at + 10), U16(msg, at + 12), U16(msg, at + 14), Shortened(target.value.0)));
    }
    return Ok((answer, at + 10 + rdlen));
  }

  /** Parses the answer of one resolver: the response code and at most MAX_ANSWERS SRV answers. */
  method ParseSrvResponse(msg: seq<Byte>, qid: nat) returns (r: Result<(nat, seq<Answer>), DnsError>)
    ensures r == Parse(msg, qid)
    ensures r.Ok? ==> |r.value.1| <= MAX_ANSWERS && r.value.0 < 16
    // only an answer to this question is accepted
    ensures r.Ok? ==> |msg| >= 12 && qid < 0x1_0000 && msg[..2] == Two(qid) && msg[2] >= 0x80 && r.value.0 == msg[3] % 16
  {
    hide NameAt, RecordAt, Two;
    if Parse(msg, qid).Ok? { OnlyAnswersParse(msg, qid); }
    if |msg| < 12 {
      return Err(ShortAnswer);
    }
    if U16(msg, 0) != qid || U16(msg, 2) < 0x8000 {
      return Err(NotAnAnswer);
    }
    var off: nat, i := 12, 0;
    var questions := AtMost(U16(msg, 4), MAX_QUESTIONS);
    while i < questions
      invariant 0 <= i <= questions
      invariant SkipQuestions(msg, 12, questions) == SkipQuestions(msg, off, questions - i)
    {
      var name := ReadName(msg, off);
      if name.Err? {
        return Err(name.error);
      }
      off, i := name.value.1 + 4, i + 1;
    }
    var records := AtMost(U16(msg, 6), MAX_ANSWERS);
    var answers: seq<Answer> := [];
    i := 0;
    ghost var all := ReadAnswers(msg, off, records);
    assert all.Ok? ==> [] + all.value == all.value;
    while i < records
      invariant 0 <= i <= records && |answers| <= i
      invariant all == Prepended(answers, ReadAnswers(msg, off, records - i))
    {
      AnswerTurn(msg, off, records - i, answers);
      var record := ReadRecord(msg, off);
      if record.Err? {
        return Err(record.error);
      }
      if record.value.0.Some? {
        answers := answers + [record.value.0.value];
      }
      off, i := record.value.1, i + 1;
    }
    assert answers + [] == answers;
    return Ok((U16(msg, 2) % 16, answers));
  }

  lemma OnlyAnswersParse(msg: seq<Byte>, qid: nat)
    requires Parse(msg, qid).Ok?
    ensures |msg| >= 12 && qid < 0x1_0000 && msg[..2] == Two(qid) && msg[2] >= 0x80
    ensures Parse(msg, qid).value.0 == msg[3] % 16
  {
    hide SkipQuestions, ReadAnswers;
    assert msg[..2] == [msg[0], msg[1]];
  }

  function Prepended(answers: seq<Answer>, rest: Result<seq<Answer>, DnsError>): Result<seq<Answer>, DnsError> {
    match rest
    case Err(e) => Err(e)
    case Ok(more) => Ok(answers + more)
  }

  lemma AnswerTurn(msg: seq<Byte>, off: nat, n: nat, answers: seq<Answer>)
    requires n > 0
    ensures Prepended(answers, ReadAnswers(msg, off, n))
            == match RecordAt(msg, off)
               case Err(e) => Err(e)
               case Ok((answer, next)) =>
                 Prepended(if answer.Some? then answers + [answer.value] else answers, ReadAnswers(msg, next, n - 1))
  {
    hide RecordAt;
    var r := RecordAt(msg, off);
    if r.Ok? && ReadAnswers(msg, r.value.1, n - 1).Ok? {
      var rest := ReadAnswers(msg, r.value.1, n - 1).value;
      if r.value.0.Some? {
        assert answers + ([r.value.0.value] + rest) == (answers + [r.value.0.value]) + rest;
      } else {
        assert [] + rest == rest;
      }
    }
  }

  // ------------------------------------------------------------------ writing an answer

  /** A name as a server writes it: labels, then the root or a pointer. */
  datatype NameForm = NameForm(labels: seq<Label>, pointer: Option<(Byte, Byte)>)

  function FormOctets(f: NameForm): (r: seq<Byte>)
    requires AreLabels(f.labels)
    ensures |r| >= 1
  {
    Octets(f.labels) + if f.pointer.None? then [0] else [f.pointer.value.0, f.pointer.value.1]
  }

  /** The form can be read where it stands: its labels fit, and its pointer leads back to a readable name. */
  predicate Readable(msg: seq<Byte>, pos: nat, f: NameForm) {
    && AreLabels(f.labels) && |f.labels| <= MAX_LABELS
    && match f.pointer
       case None => true
       case Some((hi, lo)) =>
         && hi >= 192 && Pointer(hi, lo) < pos + |Octets(f.labels)| && Walk(msg, Pointer(hi, lo), 0, 0).Ok?
         && 1 + Hops(msg, Pointer(hi, lo), 0, 0) <= MAX_JUMPS
         && |f.labels| + |Walk(msg, Pointer(hi, lo), 0, 0).value.labels| <= MAX_LABELS
  }

  function FormLabels(msg: seq<Byte>, f: NameForm): seq<Label> {
    match f.pointer
    case None => f.labels
    case Some((hi, lo)) =>
      f.labels + if hi >= 192 && Walk(msg, Pointer(hi, lo), 0, 0).Ok? then Walk(msg, Pointer(hi, lo), 0, 0).value.labels else []
  }

  lemma FormReadsBack(msg: seq<Byte>, pos: nat, f: NameForm)
    requires Readable(msg, pos, f) && HoldsAt(msg, pos, FormOctets(f))
    ensures NameAt(msg, pos) == Ok((NameText(FormLabels(msg, f)), pos + |FormOctets(f)|))
  {
    match f.pointer
    case None => PlainNameReadsBack(msg, pos, 0, 0, f.labels);
    case Some((hi, lo)) => CompressedNameReadsBack(msg, pos, f.labels, hi, lo);
  }

  datatype Record =
    | SrvRecord(owner: NameForm, fixed: seq<Byte>, priority: nat, weight: nat, port: nat, target: NameForm)
    | OtherRecord(owner: NameForm, rtype: nat, fixed: seq<Byte>, data: seq<Byte>)

  function Two(n: nat): seq<Byte>
    requires n < 0x1_0000
  {
    var hi: Byte, lo: Byte := n / 256, n % 256;
    [hi, lo]
  }

  /** `fixed` are the six octets of the class and the time to live, which the parser skips. */
  predicate WellFormed(r: Record) {
    && |r.fixed| == 6 && AreLabels(r.owner.labels)
    && match r
       case SrvRecord(_, _, priority, weight, port, target) =>
         && priority < 0x1_0000 && weight < 0x1_0000 && port < 0x1_0000
         && AreLabels(target.labels) && 6 + |FormOctets(target)| < 0x1_0000
       case OtherRecord(_, rtype, _, data) => rtype < 0x1_0000 && |data| < 0x1_0000 && (rtype != SRV || |data| < 7)
  }

  function Data(r: Record): (d: seq<Byte>)
    requires WellFormed(r)
    ensures |d| < 0x1_0000
  {
    match r
    case SrvRecord(_, _, priority, weight, port, target) => Two(priority) + Two(weight) + Two(port) + FormOctets(target)
    case OtherRecord(_, _, _, data) => data
  }

  function TypeOf(r: Record): nat { if r.SrvRecord? then SRV else r.rtype }

  function Header(r: Record): seq<Byte>
    requires WellFormed(r)
  {
    Two(TypeOf(r)) + r.fixed + Two(|Data(r)|)
  }

  function RecordOctets(r: Record): seq<Byte>
    requires WellFormed(r)
  {
    FormOctets(r.owner) + (Header(r) + Data(r))
  }

  function RecordsOctets(rs: seq<Record>): seq<Byte>
    requires forall i :: 0 <= i < |rs| ==> WellFormed(rs[i])
  {
    if rs == [] then [] else RecordOctets(rs[0]) + RecordsOctets(rs[1..])
  }

  predicate ReadableRecord(msg: seq<Byte>, off: nat, r: Record)
    requires WellFormed(r)
  {
    Readable(msg, off, r.owner) && (r.SrvRecord? ==> Readable(msg, off + |FormOctets(r.owner)| + 16, r.target))
  }

  predicate ReadableRecords(msg: seq<Byte>, off: nat, rs: seq<Record>)
    requires forall i :: 0 <= i < |rs| ==> WellFormed(rs[i])
    decreases |rs|
  {
    rs != [] ==> ReadableRecord(msg, off, rs[0]) && ReadableRecords(msg, off + |RecordOctets(rs[0])|, rs[1..])
  }

  function AnswerOf(msg: seq<Byte>, r: Record): Option<Answer> {
    match r
    case OtherRecord(_, _, _, _) => None
    case SrvRecord(_, _, priority, weight, port, target) =>
      Some(Answer(priority, weight, port, Shortened(NameText(FormLabels(msg, target)))))
  }

  /** The answers among the records, in order. */
  function AnswersOf(msg: seq<Byte>, rs: seq<Record>): seq<Answer> {
    if rs == [] then []
    else (if AnswerOf(msg, rs[0]).Some? then [AnswerOf(msg, rs[0]).value] else []) + AnswersOf(msg, rs[1..])
  }

  lemma TwoReadsBack(msg: seq<Byte>, off: nat, n: nat)
    requires n < 0x1_0000 && HoldsAt(msg, off, Two(n))
    ensures U16(msg, off) == n
  {
    assert msg[off] == msg[off..off + 2][0] && msg[off + 1] == msg[off..off + 2][1];
  }

  lemma HeaderReadsBack(msg: seq<Byte>, at: nat, r: Record)
    requires WellFormed(r) && HoldsAt(msg, at, Header(r))
    ensures U16(msg, at) == TypeOf(r) && U16(msg, at + 8) == |Data(r)|
  {
    HoldsParts(msg, at, Two(TypeOf(r)) + r.fixed, Two(|Data(r)|));
    HoldsParts(msg, at, Two(TypeOf(r)), r.fixed);
    TwoReadsBack(msg, at, TypeOf(r));
    TwoReadsBack(msg, at + 8, |Data(r)|);
  }

  lemma SrvDataReadsBack(msg: seq<Byte>, at: nat, r: Record)
    requires WellFormed(r) && r.SrvRecord? && HoldsAt(msg, at, Data(r))
    ensures U16(msg, at) == r.priority && U16(msg, at + 2) == r.weight && U16(msg, at + 4) == r.port
    ensures HoldsAt(msg, at + 6, FormOctets(r.target))
  {
    HoldsParts(msg, at, Two(r.priority) + Two(r.weight) + Two(r.port), FormOctets(r.target));
    HoldsParts(msg, at, Two(r.priority) + Two(r.weight), Two(r.port));
    HoldsParts(msg, at, Two(r.priority), Two(r.weight));
    TwoReadsBack(msg, at, r.priority);
    TwoReadsBack(msg, at + 2, r.weight);
    TwoReadsBack(msg, at + 4, r.port);
  }

  lemma RecordReadsBack(msg: seq<Byte>, off: nat, r: Record)
    requires WellFormed(r) && HoldsAt(msg, off, RecordOctets(r)) && ReadableRecord(msg, off, r)
    ensures RecordAt(msg, off) == Ok((AnswerOf(msg, r), off + |RecordOctets(r)|))
  {
    hide NameAt, Readable, FormOctets, Data, Header, FormLabels, NameText;
    HoldsParts(msg, off, FormOctets(r.owner), Header(r) + Data(r));
    FormReadsBack(msg, off, r.owner);
    var at := off + |FormOctets(r.owner)|;
    HoldsParts(msg, at, Header(r), Data(r));
    HeaderLength(r);
    HeaderReadsBack(msg, at, r);
    if r.SrvRecord? {
      SrvDataReadsBack(msg, at + 10, r);
      FormReadsBack(msg, at + 16, r.target);
    }
  }

  lemma HeaderLength(r: Record)
    requires WellFormed(r)
    ensures |Header(r)| == 10
    ensures if r.SrvRecord? then |Data(r)| >= 7 else Data(r) == r.data
  {
  }

  lemma {:induction false} RecordsReadBack(msg: seq<Byte>, off: nat, rs: seq<Record>, n: nat)
    requires n <= |rs| && forall i :: 0 <= i < |rs| ==> WellFormed(rs[i])
    requires HoldsAt(msg, off, RecordsOctets(rs)) && ReadableRecords(msg, off, rs)
    ensures ReadAnswers(msg, off, n) == Ok(AnswersOf(msg, rs[..n]))
    decreases n
  {
    hide RecordAt, RecordOctets, ReadableRecord, AnswerOf;
    if n > 0 {
      HoldsParts(msg, off, RecordOctets(rs[0]), RecordsOctets(rs[1..]));
      RecordReadsBack(msg, off, rs[0]);
      RecordsReadBack(msg, off + |RecordOctets(rs[0])|, rs[1..], n - 1);
      assert rs[..n][0] == rs[0] && rs[..n][1..] == rs[1..][..n - 1];
    }
  }

  /** A question: the name asked for, and the four octets of its type and class. */
  datatype Question = Question(name: NameForm, fixed: seq<Byte>)

  predicate WellFormedQuestion(q: Question) { AreLabels(q.name.labels) && |q.fixed| == 4 }

  function QuestionOctets(q: Question): seq<Byte>
    requires WellFormedQuestion(q)
  {
    FormOctets(q.name) + q.fixed
  }

  function QuestionsOctets(qs: seq<Question>): seq<Byte>
    requires forall i :: 0 <= i < |qs| ==> WellFormedQuestion(qs[i])
  {
    if qs == [] then [] else QuestionOctets(qs[0]) + QuestionsOctets(qs[1..])
  }

  predicate ReadableQuestions(msg: seq<Byte>, off: nat, qs: seq<Question>)
    requires forall i :: 0 <= i < |qs| ==> WellFormedQuestion(qs[i])
    decreases |qs|
  {
    qs != [] ==> Readable(msg, off, qs[0].name) && ReadableQuestions(msg, off + |QuestionOctets(qs[0])|, qs[1..])
  }

  /** Skipping `n` of the questions leads to the place behind them. */
  lemma {:induction false} QuestionsSkipped(msg: seq<Byte>, off: nat, qs: seq<Question>, n: nat)
    requires n <= |qs| && forall i :: 0 <= i < |qs| ==> WellFormedQuestion(qs[i])
    requires HoldsAt(msg, off, QuestionsOctets(qs)) && ReadableQuestions(msg, off, qs)
    ensures SkipQuestions(msg, off, n) == Ok(off + |QuestionsOctets(qs[..n])|)
    decreases n
  {
    hide NameAt, Readable, FormOctets;
    if n > 0 {
      HoldsParts(msg, off, QuestionOctets(qs[0]), QuestionsOctets(qs[1..]));
      HoldsParts(msg, off, FormOctets(qs[0].name), qs[0].fixed);
      FormReadsBack(msg, off, qs[0].name);
      QuestionsSkipped(msg, off + |QuestionOctets(qs[0])|, qs[1..], n - 1);
      assert qs[..n][0] == qs[0] && qs[..n][1..] == qs[1..][..n - 1];
    }
  }

  /** The fixed head of a message: its id, its flags and its four counts. */
  function Head(qid: nat, flags: nat, questions: nat, records: nat, ns: nat, ar: nat): (r: seq<Byte>)
    requires qid < 0x1_0000 && flags < 0x1_0000 && questions < 0x1_0000 && records < 0x1_0000 && ns < 0x1_0000 && ar < 0x1_0000
    ensures |r| == 12
  {
    Two(qid) + (Two(flags) + (Two(questions) + (Two(records) + (Two(ns) + Two(ar)))))
  }

  lemma HeadReadsBack(msg: seq<Byte>, qid: nat, flags: nat, questions: nat, records: nat, ns: nat, ar: nat)
    requires qid < 0x1_0000 && flags < 0x1_0000 && questions < 0x1_0000 && records < 0x1_0000 && ns < 0x1_0000 && ar < 0x1_0000
    requires HoldsAt(msg, 0, Head(qid, flags, questions, records, ns, ar))
    ensures U16(msg, 0) == qid && U16(msg, 2) == flags && U16(msg, 4) == questions && U16(msg, 6) == records
  {
    hide Two;
    var rest4 := Two(ns) + Two(ar);
    var rest3 := Two(records) + rest4;
    var rest2 := Two(questions) + rest3;
    TwoLengths(qid, flags, questions, records);
    HoldsParts(msg, 0, Two(qid), Two(flags) + rest2);
    HoldsParts(msg, 2, Two(flags), rest2);
    HoldsParts(msg, 4, Two(questions), rest3);
    HoldsParts(msg, 6, Two(records), rest4);
    TwoReadsBack(msg, 0, qid);
    TwoReadsBack(msg, 2, flags);
    TwoReadsBack(msg, 4, questions);
    TwoReadsBack(msg, 6, records);
  }

  lemma TwoLengths(a: nat, b: nat, c: nat, d: nat)
    requires a < 0x1_0000 && b < 0x1_0000 && c < 0x1_0000 && d < 0x1_0000
    ensures |Two(a)| == |Two(b)| == |Two(c)| == |Two(d)| == 2
  {
  }

  /** A whole answer to this question, with compressed or plain names. */
  ghost predicate IsResponse(msg: seq<Byte>, qid: nat, flags: nat, qs: seq<Question>, rs: seq<Record>, ns: nat, ar: nat,
                             after: seq<Byte>)
  {
    && qid < 0x1_0000 && 0x8000 <= flags < 0x1_0000 && ns < 0x1_0000 && ar < 0x1_0000 && |qs| < 0x1_0000 && |rs| < 0x1_0000
    && (forall i :: 0 <= i < |qs| ==> WellFormedQuestion(qs[i])) && (forall i :: 0 <= i < |rs| ==> WellFormed(rs[i]))
    && msg == Head(qid, flags, |qs|, |rs|, ns, ar) + (QuestionsOctets(qs) + (RecordsOctets(rs) + after))
    && ReadableQuestions(msg, 12, qs) && ReadableRecords(msg, 12 + |QuestionsOctets(qs)|, rs)
  }

  /** The parser reads records from behind the first MAX_QUESTIONS questions on, whatever stands there. */
  lemma ResponseParsed(msg: seq<Byte>, qid: nat, flags: nat, qs: seq<Question>, rs: seq<Record>, ns: nat, ar: nat,
                       after: seq<Byte>)
    requires IsResponse(msg, qid, flags, qs, rs, ns, ar, after)
    ensures
      var behind := 12 + |QuestionsOctets(qs[..AtMost(|qs|, MAX_QUESTIONS)])|;
      var read := ReadAnswers(msg, behind, AtMost(|rs|, MAX_ANSWERS));
      Parse(msg, qid) == if read.Ok? then Ok((flags % 16, read.value)) else Err(read.error)
    ensures ReadAnswers(msg, 12 + |QuestionsOctets(qs)|, AtMost(|rs|, MAX_ANSWERS))
         == Ok(AnswersOf(msg, rs[..AtMost(|rs|, MAX_ANSWERS)]))
  {
    hide Head, QuestionsOctets, RecordsOctets, ReadableQuestions, ReadableRecords, SkipQuestions, ReadAnswers, AnswersOf, WellFormed;
    var questions, records := QuestionsOctets(qs), RecordsOctets(rs);
    assert HoldsAt(msg, 0, msg);
    HoldsParts(msg, 0, Head(qid, flags, |qs|, |rs|, ns, ar), questions + (records + after));
    HeadReadsBack(msg, qid, flags, |qs|, |rs|, ns, ar);
    HoldsParts(msg, 12, questions, records + after);
    HoldsParts(msg, 12 + |questions|, records, after);
    QuestionsSkipped(msg, 12, qs, AtMost(|qs|, MAX_QUESTIONS));
    RecordsReadBack(msg, 12 + |questions|, rs, AtMost(|rs|, MAX_ANSWERS));
  }

  /** Round trip of a whole answer: it is parsed to its response code and the SRV records among its first MAX_ANSWERS, if it
      has at most MAX_QUESTIONS questions or no records. If the records that count are SRV records and the first question
      that is not skipped asks for another type, then only if. */
  lemma ResponseRoundTrip(msg: seq<Byte>, qid: nat, flags: nat, qs: seq<Question>, rs: seq<Record>, ns: nat, ar: nat,
                          after: seq<Byte>)
    requires IsResponse(msg, qid, flags, qs, rs, ns, ar, after)
    ensures
      var counted := rs[..AtMost(|rs|, MAX_ANSWERS)];
      var roundTrip := Parse(msg, qid) == Ok((flags % 16, AnswersOf(msg, counted)));
      && (|qs| <= MAX_QUESTIONS || rs == [] ==> roundTrip)
      && (OnlySrv(counted) && (|qs| > MAX_QUESTIONS ==> qs[MAX_QUESTIONS].fixed[..2] != Two(SRV)) ==>
            (roundTrip <==> |qs| <= MAX_QUESTIONS || rs == []))
  {
    hide QuestionsOctets, RecordsOctets, AnswersOf, Parse, ReadAnswers, ReadableQuestions, ReadableRecords, Head, WellFormed,
         QuestionOctets, Readable;
    ResponseParsed(msg, qid, flags, qs, rs, ns, ar, after);
    assert |qs| <= MAX_QUESTIONS ==> qs[..AtMost(|qs|, MAX_QUESTIONS)] == qs;
    var counted := rs[..AtMost(|rs|, MAX_ANSWERS)];
    if rs == [] {
      assert counted == [];
      NoRecords(msg);
    } else if |qs| > MAX_QUESTIONS && OnlySrv(counted) && qs[MAX_QUESTIONS].fixed[..2] != Two(SRV) {
      var questions, records := QuestionsOctets(qs), RecordsOctets(rs);
      assert HoldsAt(msg, 0, msg);
      HoldsParts(msg, 0, Head(qid, flags, |qs|, |rs|, ns, ar), questions + (records + after));
      HoldsParts(msg, 12, questions, records + after);
      QuestionStands(msg, 12, qs, MAX_QUESTIONS);
      QuestionGivesNoAnswer(msg, 12 + |QuestionsOctets(qs[..MAX_QUESTIONS])|, qs[MAX_QUESTIONS], |counted|);
      AllGiveAnswers(msg, counted);
    }
  }

  /** The answer that an SRV record gives: its numbers, and its target, of which the first 253 characters are kept. */
  ghost predicate Gives(msg: seq<Byte>, r: Record, a: Answer) {
    && r.SrvRecord? && a.priority == r.priority && a.weight == r.weight && a.port == r.port
    && a.target <= NameText(FormLabels(msg, r.target))
    && (|NameText(FormLabels(msg, r.target))| <= 253 ==> a.target == NameText(FormLabels(msg, r.target)))
    && (|NameText(FormLabels(msg, r.target))| > 253 ==> |a.target| == 253)
  }

  /** The SRV records, in order. */
  function SrvRecords(rs: seq<Record>): (srv: seq<Record>)
    ensures forall r {:trigger r in srv} :: r in srv <==> r in rs && r.SrvRecord?
  {
    if rs == [] then []
    else
      assert rs == [rs[0]] + rs[1..];
      (if rs[0].SrvRecord? then [rs[0]] else []) + SrvRecords(rs[1..])
  }

  /** One answer for each SRV record, in order, and none for any other. */
  ghost predicate GivesEach(msg: seq<Byte>, rs: seq<Record>, answers: seq<Answer>) {
    && |answers| == |SrvRecords(rs)|
    && forall i :: 0 <= i < |answers| ==> Gives(msg, SrvRecords(rs)[i], answers[i])
  }

  lemma {:induction false} AnswersGiven(msg: seq<Byte>, rs: seq<Record>)
    ensures GivesEach(msg, rs, AnswersOf(msg, rs))
  {
    hide FormLabels, NameText;
    if rs != [] { AnswersGiven(msg, rs[1..]); }
  }

  /** One SRV record is read back with its numbers and its target. */
  lemma SrvRecordReadsBack(msg: seq<Byte>, off: nat, r: Record)
    requires WellFormed(r) && r.SrvRecord? && HoldsAt(msg, off, RecordOctets(r)) && ReadableRecord(msg, off, r)
    ensures RecordAt(msg, off).Ok? && RecordAt(msg, off).value.1 == off + |RecordOctets(r)|
    ensures RecordAt(msg, off).value.0.Some? && Gives(msg, r, RecordAt(msg, off).value.0.value)
  {
    hide FormLabels, NameText, RecordAt, RecordOctets, ReadableRecord;
    RecordReadsBack(msg, off, r);
  }

  /** A whole answer of at most MAX_QUESTIONS questions, or without records, is parsed to its response code and one answer for
      each SRV record among its first MAX_ANSWERS records. */
  lemma ResponseAnswers(msg: seq<Byte>, qid: nat, flags: nat, qs: seq<Question>, rs: seq<Record>, ns: nat, ar: nat,
                        after: seq<Byte>)
    requires IsResponse(msg, qid, flags, qs, rs, ns, ar, after) && (|qs| <= MAX_QUESTIONS || rs == [])
    ensures Parse(msg, qid).Ok? && Parse(msg, qid).value.0 == flags % 16
    ensures GivesEach(msg, rs[..AtMost(|rs|, MAX_ANSWERS)], Parse(msg, qid).value.1)
  {
    hide IsResponse, Parse, AnswersOf, GivesEach;
    ResponseRoundTrip(msg, qid, flags, qs, rs, ns, ar, after);
    AnswersGiven(msg, rs[..AtMost(|rs|, MAX_ANSWERS)]);
  }

  predicate OnlySrv(rs: seq<Record>) { forall i :: 0 <= i < |rs| ==> rs[i].SrvRecord? }

  /** Each question stands behind those before it. */
  lemma {:induction false} QuestionStands(msg: seq<Byte>, off: nat, qs: seq<Question>, n: nat)
    requires n < |qs| && forall i :: 0 <= i < |qs| ==> WellFormedQuestion(qs[i])
    requires HoldsAt(msg, off, QuestionsOctets(qs)) && ReadableQuestions(msg, off, qs)
    ensures var at := off + |QuestionsOctets(qs[..n])|;
            HoldsAt(msg, at, QuestionOctets(qs[n])) && Readable(msg, at, qs[n].name)
    decreases n
  {
    hide Readable, QuestionOctets;
    HoldsParts(msg, off, QuestionOctets(qs[0]), QuestionsOctets(qs[1..]));
    if n > 0 {
      QuestionStands(msg, off + |QuestionOctets(qs[0])|, qs[1..], n - 1);
      assert qs[..n][0] == qs[0] && qs[..n][1..] == qs[1..][..n - 1];
    }
  }

  /** Read as a record, a question of another type is no SRV record, so one answer is missing. */
  lemma QuestionGivesNoAnswer(msg: seq<Byte>, off: nat, q: Question, n: nat)
    requires n > 0 && WellFormedQuestion(q) && HoldsAt(msg, off, QuestionOctets(q)) && Readable(msg, off, q.name)
    requires q.fixed[..2] != Two(SRV)
    ensures ReadAnswers(msg, off, n).Ok? ==> |ReadAnswers(msg, off, n).value| < n
  {
    hide NameAt, Readable, FormOctets;
    HoldsParts(msg, off, FormOctets(q.name), q.fixed);
    FormReadsBack(msg, off, q.name);
    var at := off + |FormOctets(q.name)|;
    assert msg[at] == msg[at..at + 4][0] && msg[at + 1] == msg[at..at + 4][1];
    assert q.fixed[..2] == [q.fixed[0], q.fixed[1]];
    assert U16(msg, at) != SRV;
  }

  lemma {:induction false} AllGiveAnswers(msg: seq<Byte>, rs: seq<Record>)
    requires OnlySrv(rs)
    ensures |AnswersOf(msg, rs)| == |rs|
  {
    if rs != [] { AllGiveAnswers(msg, rs[1..]); }
  }

  lemma NoRecords(msg: seq<Byte>)
    ensures forall off :: ReadAnswers(msg, off, 0) == Ok(AnswersOf(msg, []))
  {
  }

  /** An answer with five questions about the root and one SRV record. */
  const FIVE_QUESTIONS: seq<Byte> :=
    [0, 7, 128, 0, 0, 5, 0, 1, 0, 0, 0, 0]
    + ([0, 0, 1, 0, 1, 0, 0, 1, 0, 1, 0, 0, 1, 0, 1, 0, 0, 1, 0, 1, 0, 0, 1, 0, 1]
       + [0, 0, 33, 0, 1, 0, 0, 0, 0, 0, 7, 0, 1, 0, 2, 0, 3, 0])

  /** The fifth question is read as a record, and the answer refused, although the record itself can be read. */
  lemma FiveQuestionsAreMisread()
    ensures Parse(FIVE_QUESTIONS, 7) == Err(TruncatedData)
    ensures RecordAt(FIVE_QUESTIONS, 37) == Ok((Some(Answer(1, 2, 3, "")), |FIVE_QUESTIONS|))
  {
    hide NameAt, U16, ReadAnswers, RecordAt, SkipQuestions;
    var msg := FIVE_QUESTIONS;
    FourSkipped(msg);
    Words(msg);
    RootRead(msg, 32);
    RecordRunsOver(msg, 32, 33);
    RootRead(msg, 37);
    RootRead(msg, 54);
    RecordRead(msg, 37, 38);
  }

  /** An answer with five questions about the root and one record that is no SRV record. */
  const FIVE_WITHOUT_SRV: seq<Byte> :=
    [0, 7, 128, 0, 0, 5, 0, 1, 0, 0, 0, 0]
    + ([0, 0, 1, 0, 1, 0, 0, 1, 0, 1, 0, 0, 1, 0, 1, 0, 0, 1, 0, 1, 0, 0, 1, 0, 1]
       + [0, 0, 1, 0, 0, 0, 0, 0, 0, 0, 0])

  /** Beyond four questions some answers are still parsed to what their records say: here to nothing, because neither the
      fifth question nor the record reads as an SRV record. */
  lemma FiveQuestionsMayAgree()
    ensures Parse(FIVE_WITHOUT_SRV, 7) == Ok((0, []))
    ensures RecordAt(FIVE_WITHOUT_SRV, 37) == Ok((None, |FIVE_WITHOUT_SRV|))
  {
    hide NameAt, U16, ReadAnswers, RecordAt, SkipQuestions;
    var msg := FIVE_WITHOUT_SRV;
    FourSkipped(msg);
    WordsWithoutSrv(msg);
    RootRead(msg, 32);
    NoAnswerRead(msg, 32, 33);
    RootRead(msg, 37);
    NoAnswerRead(msg, 37, 38);
  }

  lemma WordsWithoutSrv(msg: seq<Byte>)
    requires msg == FIVE_WITHOUT_SRV
    ensures U16(msg, 0) == 7 && U16(msg, 2) == 0x8000 && U16(msg, 4) == 5 && U16(msg, 6) == 1
    ensures U16(msg, 33) == 1 && U16(msg, 41) == 0 && U16(msg, 38) == 1 && U16(msg, 46) == 0
  {
  }

  lemma NoAnswerRead(msg: seq<Byte>, off: nat, at: nat)
    requires NameAt(msg, off) == Ok(("", at)) && at + 10 <= |msg| && U16(msg, at) != SRV && U16(msg, at + 8) == 0
    ensures RecordAt(msg, off) == Ok((None, at + 10)) && ReadAnswers(msg, off, 1) == Ok([])
  {
    hide NameAt, U16;
    NoRecords(msg);
  }

  lemma Words(msg: seq<Byte>)
    requires msg == FIVE_QUESTIONS
    ensures U16(msg, 0) == 7 && U16(msg, 2) == 0x8000 && U16(msg, 4) == 5 && U16(msg, 6) == 1
    ensures U16(msg, 41) == 256 && U16(msg, 38) == SRV && U16(msg, 46) == 7
    ensures U16(msg, 48) == 1 && U16(msg, 50) == 2 && U16(msg, 52) == 3
  {
  }

  lemma FourSkipped(msg: seq<Byte>)
    requires |msg| >= 37 && msg[12] == msg[17] == msg[22] == msg[27] == 0
    ensures SkipQuestions(msg, 12, 4) == Ok(32)
  {
    hide NameAt;
    assert SkipQuestions(msg, 32, 0) == Ok(32);
    RootRead(msg, 27);
    assert SkipQuestions(msg, 27, 1) == Ok(32);
    RootRead(msg, 22);
    assert SkipQuestions(msg, 22, 2) == Ok(32);
    RootRead(msg, 17);
    assert SkipQuestions(msg, 17, 3) == Ok(32);
    RootRead(msg, 12);
  }

  lemma RootRead(msg: seq<Byte>, at: nat)
    requires at < |msg| && msg[at] == 0
    ensures NameAt(msg, at) == Ok(("", at + 1))
  {
  }

  lemma RecordRunsOver(msg: seq<Byte>, off: nat, at: nat)
    requires NameAt(msg, off) == Ok(("", at)) && at + 10 <= |msg| < at + 10 + U16(msg, at + 8)
    ensures RecordAt(msg, off) == Err(TruncatedData) && ReadAnswers(msg, off, 1) == Err(TruncatedData)
  {
  }

  lemma RecordRead(msg: seq<Byte>, off: nat, at: nat)
    requires NameAt(msg, off) == Ok(("", at)) && at + 17 <= |msg| && U16(msg, at) == SRV && U16(msg, at + 8) == 7
    requires NameAt(msg, at + 16).Ok? && NameAt(msg, at + 16).value.0 == ""
    ensures RecordAt(msg, off) == Ok((Some(Answer(U16(msg, at + 10), U16(msg, at + 12), U16(msg, at + 14), "")), at + 17))
  {
  }
}
