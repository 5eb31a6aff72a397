/** The sanitizer's pseudonyms: numbers handed out per class, in the phases of a bundle (reserve what the input already
    shows, register what discovery finds, look up the names that are only written structurally). */
module Pseudonyms {
  import opened Common

  /** An identity: its class and its canonical name. */
  datatype Key = Key(cls: string, name: string)

  datatype Pseudonym = Pseudonym(cls: string, n: nat)

  // ------------------------------------------------------------------ the text of a pseudonym

  function Digits(n: nat): (r: string)
    ensures r != [] && forall i :: 0 <= i < |r| ==> '0' <= r[i] <= '9'
  {
    (if n < 10 then "" else Digits(n / 10)) + [(n % 10 + 48) as char]
  }

  /** At least three digits. */
  function Padded(n: nat): (r: string)
    ensures |r| >= 3 && forall i :: 0 <= i < |r| ==> '0' <= r[i] <= '9'
  {
    var d := Digits(n);
    if |d| == 1 then "00" + d else if |d| == 2 then "0" + d else d
  }

  function Shown(p: Pseudonym): string { p.cls + "-" + Padded(p.n) }

  /** The number that a run of digits is read as. */
  function Number(digits: string): nat
    requires forall i :: 0 <= i < |digits| ==> '0' <= digits[i] <= '9'
  {
    if digits == [] then 0 else 10 * Number(digits[..|digits| - 1]) + (digits[|digits| - 1] as int - 48)
  }

  lemma {:induction false} DigitsRead(n: nat)
    ensures Number(Digits(n)) == n
  {
    var d := Digits(n);
    if n >= 10 {
      DigitsRead(n / 10);
      assert d[..|d| - 1] == Digits(n / 10);
    } else {
      assert d[..0] == "";
    }
  }

  lemma {:induction false} LeadingZero(digits: string)
    requires forall i :: 0 <= i < |digits| ==> '0' <= digits[i] <= '9'
    ensures Number("0" + digits) == Number(digits)
  {
    if digits == [] {
      assert Number("0") == 0 by { assert "0"[..0] == ""; }
      assert "0" + digits == "0";
    } else {
      LeadingZero(digits[..|digits| - 1]);
      assert ("0" + digits)[..|digits|] == "0" + digits[..|digits| - 1];
    }
  }

  /** A pseudonym in the input reserves exactly its own number. */
  lemma PaddedReads(n: nat)
    ensures Number(Padded(n)) == n
  {
    hide Number, Digits;
    var d := Digits(n);
    var e := "0" + d;
    DigitsRead(n);
    LeadingZero(d);
    LeadingZero(e);
    assert "0" + e == "00" + d;
  }

  lemma ClassEndsAtHyphen(p: Pseudonym, q: Pseudonym)
    requires '-' !in q.cls && Shown(p) == Shown(q)
    ensures |p.cls| >= |q.cls|
  {
    hide Padded;
    assert Shown(p)[|p.cls|] == '-';
    assert forall i :: 0 <= i < |q.cls| ==> Shown(q)[i] == q.cls[i];
  }

  /** Different pseudonyms are written differently; no class name contains a hyphen. */
  lemma ShownIsInjective(p: Pseudonym, q: Pseudonym)
    requires '-' !in p.cls && '-' !in q.cls && Shown(p) == Shown(q)
    ensures p == q
  {
    hide Padded;
    var k := |p.cls|;
    ClassEndsAtHyphen(p, q);
    ClassEndsAtHyphen(q, p);
    assert p.cls == Shown(p)[..k] && q.cls == Shown(q)[..k];
    assert Padded(p.n) == Shown(p)[k + 1..] && Padded(q.n) == Shown(q)[k + 1..];
    PaddedReads(p.n);
    PaddedReads(q.n);
  }

  // ------------------------------------------------------------------ the table

  /** `names` are the identities replaced in every text, `variants` the forms they are written in, `short` the names only
      written structurally. */
  datatype Table = Table(
    names: map<Key, Pseudonym>, next: map<string, nat>, taken: map<string, set<nat>>, variants: map<Key, Key>,
    short: map<Key, Pseudonym>)

  const EMPTY := Table(map[], map[], map[], map[], map[])

  function Last(next: map<string, nat>, cls: string): nat { if cls in next then next[cls] else 0 }

  function TakenOf(taken: map<string, set<nat>>, cls: string): set<nat> { if cls in taken then taken[cls] else {} }

  /** The first number from `n` on that is not taken. */
  function FirstFree(taken: set<nat>, n: nat): (r: nat)
    ensures r >= n && r !in taken
    ensures forall k :: n <= k < r ==> k in taken
    decreases |AtLeast(taken, n)|
  {
    if n !in taken then n
    else
      assert AtLeast(taken, n + 1) == AtLeast(taken, n) - {n};
      FirstFree(taken, n + 1)
  }

  function AtLeast(taken: set<nat>, n: nat): set<nat> { set k | k in taken && k >= n }

  /** The number that the next identity of a class is given. */
  function Fresh(t: Table, cls: string): nat { FirstFree(TakenOf(t.taken, cls), Last(t.next, cls) + 1) }

  datatype Op =
    | Reserve(cls: string, n: nat)
    | Register(cls: string, name: string, form: string)
    | LookUp(cls: string, name: string)

  /** What stays readable: generic service names, and the accounts every installation has. */
  datatype Plain = Plain(services: set<string>, accounts: set<string>)

  predicate IsPlainService(plain: Plain, cls: string, name: string) { cls == "SERVICE" && name in plain.services }

  predicate IsPlainAccount(plain: Plain, cls: string, name: string) {
    (cls == "USER" || cls == "GROUP") && name in plain.accounts
  }

  function Reserved(t: Table, cls: string, n: nat): Table {
    t.(taken := t.taken[cls := TakenOf(t.taken, cls) + {n}])
  }

  function Registered(t: Table, cls: string, name: string, form: string): Table {
    if name == "" then t
    else
      var key := Key(cls, name);
      var n := Fresh(t, cls);
      var named := if key in t.names then t else t.(names := t.names[key := Pseudonym(cls, n)], next := t.next[cls := n]);
      if Key(cls, form) in t.variants then named else named.(variants := t.variants[Key(cls, form) := key])
  }

  function LookedUp(t: Table, plain: Plain, cls: string, name: string): Table {
    var key := Key(cls, name);
    if IsPlainService(plain, cls, name) || key in t.names || IsPlainAccount(plain, cls, name) || key in t.short then t
    else t.(short := t.short[key := Pseudonym(cls, Fresh(t, cls))], next := t.next[cls := Fresh(t, cls)])
  }

  function Step(plain: Plain, t: Table, op: Op): Table {
    match op
    case Reserve(cls, n) => Reserved(t, cls, n)
    case Register(cls, name, form) => Registered(t, cls, name, form)
    case LookUp(cls, name) => LookedUp(t, plain, cls, name)
  }

  function Steps(plain: Plain, t: Table, ops: seq<Op>): Table {
    if ops == [] then t else Step(plain, Steps(plain, t, ops[..|ops| - 1]), ops[|ops| - 1])
  }

  lemma OneStep(plain: Plain, t: Table, op: Op)
    ensures Steps(plain, t, [op]) == Step(plain, t, op)
  {
    assert [op][..0] == [];
    assert Steps(plain, t, []) == t;
  }

  lemma {:induction false} StepsJoin(plain: Plain, t: Table, a: seq<Op>, b: seq<Op>)
    ensures Steps(plain, t, a + b) == Steps(plain, Steps(plain, t, a), b)
  {
    if b == [] {
      assert a + b == a;
    } else {
      StepsJoin(plain, t, a, b[..|b| - 1]);
      assert (a + b)[..|a + b| - 1] == a + b[..|b| - 1];
    }
  }

  // ------------------------------------------------------------------ the invariant

  /** A pseudonym carries the class of its identity and a number that was handed out. */
  predicate Issued(next: map<string, nat>, key: Key, p: Pseudonym) { p.cls == key.cls && 0 < p.n <= Last(next, key.cls) }

  ghost predicate AllIssued(next: map<string, nat>, given: map<Key, Pseudonym>) {
    forall k :: k in given ==> Issued(next, k, given[k])
  }

  ghost predicate Injective(given: map<Key, Pseudonym>) {
    forall j, k :: j in given && k in given && j != k ==> given[j] != given[k]
  }

  ghost predicate Disjoint(a: map<Key, Pseudonym>, b: map<Key, Pseudonym>) {
    forall j, k :: j in a && k in b ==> a[j] != b[k]
  }

  ghost predicate Sound(t: Table) {
    && AllIssued(t.next, t.names) && AllIssued(t.next, t.short)
    && Injective(t.names) && Injective(t.short) && Disjoint(t.names, t.short)
    && (forall f :: f in t.variants ==> t.variants[f] in t.names && t.variants[f].cls == f.cls)
  }

  lemma GiveKeepsInjective(next: map<string, nat>, given: map<Key, Pseudonym>, key: Key, n: nat)
    requires AllIssued(next, given) && Injective(given) && n > Last(next, key.cls) && key !in given
    ensures
      var p := Pseudonym(key.cls, n);
      Injective(given[key := p]) && AllIssued(next[key.cls := n], given[key := p]) && AllIssued(next[key.cls := n], given)
  {
    var p := Pseudonym(key.cls, n);
    forall j | j in given ensures given[j] != p && Issued(next[key.cls := n], j, given[j]) {
      assert Issued(next, j, given[j]);
    }
  }

  lemma GiveKeepsDisjoint(next: map<string, nat>, a: map<Key, Pseudonym>, b: map<Key, Pseudonym>, key: Key, n: nat)
    requires AllIssued(next, b) && Disjoint(a, b) && n > Last(next, key.cls)
    ensures Disjoint(a[key := Pseudonym(key.cls, n)], b) && Disjoint(b, a[key := Pseudonym(key.cls, n)])
  {
    forall k | k in b ensures b[k] != Pseudonym(key.cls, n) { assert Issued(next, k, b[k]); }
  }

  lemma StepKeepsSound(plain: Plain, t: Table, op: Op)
    requires Sound(t)
    ensures Sound(Step(plain, t, op))
  {
    hide AllIssued, Injective, Disjoint, FirstFree;
    match op
    case Reserve(_, _) =>
    case Register(cls, name, form) => RegisteredSound(t, cls, name, form);
    case LookUp(cls, name) =>
      var key, n := Key(cls, name), Fresh(t, cls);
      if LookedUp(t, plain, cls, name) != t {
        GiveKeepsInjective(t.next, t.short, key, n);
        Symmetric(t.names, t.short);
        GiveKeepsDisjoint(t.next, t.short, t.names, key, n);
        MoreIssued(t.next, t.names, cls, n);
        Symmetric(t.names, t.short[key := Pseudonym(cls, n)]);
      }
  }

  lemma RegisteredSound(t: Table, cls: string, name: string, form: string)
    requires Sound(t)
    ensures Sound(Registered(t, cls, name, form))
  {
    hide AllIssued, Injective, Disjoint, FirstFree;
    var key, n := Key(cls, name), Fresh(t, cls);
    if name != "" && key !in t.names {
      GiveKeepsInjective(t.next, t.names, key, n);
      Symmetric(t.names, t.short);
      GiveKeepsDisjoint(t.next, t.names, t.short, key, n);
      MoreIssued(t.next, t.short, cls, n);
    }
  }

  lemma MoreIssued(next: map<string, nat>, given: map<Key, Pseudonym>, cls: string, n: nat)
    requires AllIssued(next, given) && n > Last(next, cls)
    ensures AllIssued(next[cls := n], given)
  {
    forall k | k in given ensures Issued(next[cls := n], k, given[k]) { assert Issued(next, k, given[k]); }
  }

  lemma Symmetric(a: map<Key, Pseudonym>, b: map<Key, Pseudonym>)
    ensures Disjoint(a, b) <==> Disjoint(b, a)
  {
  }

  /** In whatever order a bundle reserves, registers and looks up: two identities never share a pseudonym. */
  lemma {:induction false} PseudonymsAreInjective(plain: Plain, ops: seq<Op>)
    ensures Sound(Steps(plain, EMPTY, ops))
  {
    if ops != [] {
      PseudonymsAreInjective(plain, ops[..|ops| - 1]);
      StepKeepsSound(plain, Steps(plain, EMPTY, ops[..|ops| - 1]), ops[|ops| - 1]);
    }
  }

  /** ... and never the same text. */
  lemma NoTwoShareAText(plain: Plain, ops: seq<Op>, j: Key, k: Key)
    requires j != k && '-' !in j.cls && '-' !in k.cls
    ensures
      var t := Steps(plain, EMPTY, ops);
      forall p, q :: p in PseudonymsOf(t, j) && q in PseudonymsOf(t, k) ==> Shown(p) != Shown(q)
  {
    var t := Steps(plain, EMPTY, ops);
    PseudonymsAreInjective(plain, ops);
    forall p, q | p in PseudonymsOf(t, j) && q in PseudonymsOf(t, k) ensures Shown(p) != Shown(q) {
      GivenApart(t, j, k, p, q);
      if Shown(p) == Shown(q) { ShownIsInjective(p, q); }
    }
  }

  lemma GivenApart(t: Table, j: Key, k: Key, p: Pseudonym, q: Pseudonym)
    requires Sound(t) && j != k && p in PseudonymsOf(t, j) && q in PseudonymsOf(t, k)
    ensures p != q && p.cls == j.cls && q.cls == k.cls
  {
    assert j in t.names ==> Issued(t.next, j, t.names[j]);
    assert j in t.short ==> Issued(t.next, j, t.short[j]);
    assert k in t.names ==> Issued(t.next, k, t.names[k]);
    assert k in t.short ==> Issued(t.next, k, t.short[k]);
  }

  /** Every pseudonym an identity has been given. */
  function PseudonymsOf(t: Table, key: Key): set<Pseudonym> {
    (if key in t.names then {t.names[key]} else {}) + (if key in t.short then {t.short[key]} else {})
  }

  // ------------------------------------------------------------------ numbers already in the input

  ghost predicate Avoids(t: Table, cls: string, n: nat) {
    && (forall k :: k in t.names ==> t.names[k] != Pseudonym(cls, n))
    && (forall k :: k in t.short ==> t.short[k] != Pseudonym(cls, n))
  }

  lemma {:induction false} TakenIsNeverGiven(plain: Plain, t: Table, ops: seq<Op>, cls: string, n: nat)
    requires n in TakenOf(t.taken, cls) && Avoids(t, cls, n)
    ensures n in TakenOf(Steps(plain, t, ops).taken, cls) && Avoids(Steps(plain, t, ops), cls, n)
  {
    hide Avoids, TakenOf;
    if ops != [] {
      var before := Steps(plain, t, ops[..|ops| - 1]);
      TakenIsNeverGiven(plain, t, ops[..|ops| - 1], cls, n);
      StepAvoids(plain, before, ops[|ops| - 1], cls, n);
    }
  }

  lemma StepAvoids(plain: Plain, t: Table, op: Op, cls: string, n: nat)
    requires n in TakenOf(t.taken, cls) && Avoids(t, cls, n)
    ensures n in TakenOf(Step(plain, t, op).taken, cls) && Avoids(Step(plain, t, op), cls, n)
  {
    hide FirstFree;
  }

  /** What is reserved before anything is registered is never handed out: a text of the input that looks like a pseudonym
      cannot be confused with one. */
  lemma InputIsNeverReused(plain: Plain, first: seq<Op>, cls: string, digits: string, later: seq<Op>, key: Key)
    requires forall i :: 0 <= i < |first| ==> first[i].Reserve?
    requires forall i :: 0 <= i < |digits| ==> '0' <= digits[i] <= '9'
    requires Reserve(cls, Number(digits)) in first
    ensures
      forall p :: p in PseudonymsOf(Steps(plain, EMPTY, first + later), key) && p.cls == cls
                  ==> Shown(p) != cls + "-" + digits
  {
    var n, t := Number(digits), Steps(plain, EMPTY, first);
    ReservedStays(plain, first, cls, n);
    StepsJoin(plain, EMPTY, first, later);
    TakenIsNeverGiven(plain, t, later, cls, n);
    forall p | p in PseudonymsOf(Steps(plain, EMPTY, first + later), key) && p.cls == cls
      ensures Shown(p) != cls + "-" + digits
    {
      assert p.n != n;
      PaddedReads(p.n);
      assert Shown(p)[|cls| + 1..] == Padded(p.n) && (cls + "-" + digits)[|cls| + 1..] == digits;
    }
  }

  lemma {:induction false} ReservedStays(plain: Plain, first: seq<Op>, cls: string, n: nat)
    requires forall i :: 0 <= i < |first| ==> first[i].Reserve?
    ensures Steps(plain, EMPTY, first).names == map[] && Steps(plain, EMPTY, first).short == map[]
    ensures Reserve(cls, n) in first ==> n in TakenOf(Steps(plain, EMPTY, first).taken, cls)
  {
    if first != [] { ReservedStays(plain, first[..|first| - 1], cls, n); }
  }

  // ------------------------------------------------------------------ stability

  function WithoutLeadingSpace(s: string): string {
    if s != "" && IsSpace(s[0]) then WithoutLeadingSpace(s[1..]) else s
  }

  function WithoutTrailingSpace(s: string): string {
    if s != "" && IsSpace(s[|s| - 1]) then WithoutTrailingSpace(s[..|s| - 1]) else s
  }

  /** White space is dropped from both ends, and nothing else. */
  lemma OnlySpaceDropped(s: string)
    ensures exists a, b ::
              && s == a + Stripped(s) + b && AllSpace(a) && AllSpace(b)
              && (Stripped(s) != "" ==> !IsSpace(Stripped(s)[0]) && !IsSpace(Stripped(s)[|Stripped(s)| - 1]))
  {
    hide WithoutLeadingSpace, WithoutTrailingSpace, AllSpace;
    var t := WithoutLeadingSpace(s);
    LeadingDropped(s);
    TrailingDropped(t);
    var a, u, b := s[..|s| - |t|], Stripped(s), t[|Stripped(s)|..];
    assert t == u + b && s == a + u + b;
    assert u != "" ==> u[0] == t[0];
  }

  predicate AllSpace(s: string) { forall c :: c in s ==> IsSpace(c) }

  function Stripped(s: string): string { WithoutTrailingSpace(WithoutLeadingSpace(s)) }

  lemma {:induction false} LeadingDropped(s: string)
    ensures var t := WithoutLeadingSpace(s);
            && |t| <= |s| && s == s[..|s| - |t|] + t && AllSpace(s[..|s| - |t|]) && (t != "" ==> !IsSpace(t[0]))
  {
    if s != "" && IsSpace(s[0]) {
      LeadingDropped(s[1..]);
      var n := |s| - |WithoutLeadingSpace(s)|;
      assert s[..n] == [s[0]] + s[1..][..n - 1];
    }
  }

  lemma {:induction false} TrailingDropped(s: string)
    ensures var t := WithoutTrailingSpace(s);
            t <= s && AllSpace(s[|t|..]) && (t != "" ==> !IsSpace(t[|t| - 1]))
  {
    if s != "" && IsSpace(s[|s| - 1]) {
      TrailingDropped(s[..|s| - 1]);
      var n := |WithoutTrailingSpace(s)|;
      assert s[n..] == s[..|s| - 1][n..] + [s[|s| - 1]];
    }
  }

  /** The form a name is looked up by: no space around it, no trailing dots, lower case. */
  function Canonical(raw: string): string {
    Lower(WithoutTrailingDots(Stripped(raw)))
  }

  /** What a structural lookup answers. */
  datatype Answer = Number(p: Pseudonym) | Readable(name: string)

  function AnswerOf(plain: Plain, t: Table, cls: string, name: string): Answer {
    var key := Key(cls, name);
    if IsPlainService(plain, cls, name) then Readable(name)
    else if key in t.names then Answer.Number(t.names[key])
    else if IsPlainAccount(plain, cls, name) then Readable(name)
    else if key in t.short then Answer.Number(t.short[key])
    else Answer.Number(Pseudonym(cls, Fresh(t, cls)))
  }

  /** Only generic service names, and the accounts of every installation that no text is to hide, stay readable; and a
      registered identity is shown by the pseudonym that replaces it in texts. */
  lemma AnswerIs(plain: Plain, t: Table, cls: string, name: string)
    ensures AnswerOf(plain, t, cls, name).Readable? <==>
              || (cls == "SERVICE" && name in plain.services)
              || (cls in {"USER", "GROUP"} && name in plain.accounts && Key(cls, name) !in t.names)
    ensures AnswerOf(plain, t, cls, name).Readable? ==> AnswerOf(plain, t, cls, name).name == name
    ensures Key(cls, name) in t.names && !(cls == "SERVICE" && name in plain.services) ==>
              AnswerOf(plain, t, cls, name) == Answer.Number(t.names[Key(cls, name)])
  {
  }

  /** The first pseudonym of a class has number one, if the input shows no such number. */
  lemma NumbersBeginAtOne(cls: string)
    ensures Fresh(EMPTY, cls) == 1
  {
  }

  /** The identity has been given an answer that later lookups should repeat. */
  predicate Answered(plain: Plain, t: Table, cls: string, name: string) {
    || IsPlainService(plain, cls, name) || IsPlainAccount(plain, cls, name)
    || Key(cls, name) in t.names || Key(cls, name) in t.short
  }

  /** A registration that comes after the identity was already answered structurally. */
  predicate TooLate(plain: Plain, t: Table, op: Op, cls: string, name: string) {
    && op.Register? && op.cls == cls && op.name == name && name != ""
    && Key(cls, name) !in t.names && !IsPlainService(plain, cls, name)
  }

  /** An answer changes exactly when its identity is registered for text replacement too late. */
  lemma AnswerChangesOnlyTooLate(plain: Plain, t: Table, op: Op, cls: string, name: string)
    requires Sound(t) && Answered(plain, t, cls, name)
    ensures Answered(plain, Step(plain, t, op), cls, name)
    ensures AnswerOf(plain, Step(plain, t, op), cls, name) != AnswerOf(plain, t, cls, name)
       <==> TooLate(plain, t, op, cls, name)
  {
    hide Sound, Fresh;
    match op
    case Reserve(_, _) =>
    case Register(_, _, _) => RegisterChangesOnlyTooLate(plain, t, op, cls, name);
    case LookUp(_, _) =>
  }

  lemma RegisterChangesOnlyTooLate(plain: Plain, t: Table, op: Op, cls: string, name: string)
    requires Sound(t) && Answered(plain, t, cls, name) && op.Register?
    ensures Answered(plain, Step(plain, t, op), cls, name)
    ensures AnswerOf(plain, Step(plain, t, op), cls, name) != AnswerOf(plain, t, cls, name)
       <==> TooLate(plain, t, op, cls, name)
  {
    hide FirstFree;
    var key := Key(cls, name);
    if key in t.short { assert Issued(t.next, key, t.short[key]); }
  }

  /** A lookup answers what it is asked, and the table remembers the answer. */
  lemma LookUpIsAnswered(plain: Plain, t: Table, cls: string, name: string)
    ensures Answered(plain, LookedUp(t, plain, cls, name), cls, name)
    ensures AnswerOf(plain, LookedUp(t, plain, cls, name), cls, name) == AnswerOf(plain, t, cls, name)
  {
  }

  /** No operation registers an identity that was answered structurally before. */
  ghost predicate InTime(plain: Plain, t: Table, ops: seq<Op>, cls: string, name: string) {
    forall i :: 0 <= i < |ops| ==> !TooLate(plain, Steps(plain, t, ops[..i]), ops[i], cls, name)
  }

  /** Over any operations an answer, once given, is given again at the end exactly when none of them registers its identity
      too late: an answer that was changed never comes back. */
  lemma {:induction false} AnswersChangeOnlyTooLate(plain: Plain, t: Table, ops: seq<Op>, cls: string, name: string)
    requires Sound(t) && Answered(plain, t, cls, name)
    ensures Sound(Steps(plain, t, ops)) && Answered(plain, Steps(plain, t, ops), cls, name)
    ensures AnswerOf(plain, Steps(plain, t, ops), cls, name) == AnswerOf(plain, t, cls, name)
       <==> InTime(plain, t, ops, cls, name)
    ensures !InTime(plain, t, ops, cls, name) ==> Key(cls, name) in Steps(plain, t, ops).names
  {
    hide AnswerOf, Answered, TooLate, Step, Sound;
    if ops != [] {
      var before, last := ops[..|ops| - 1], ops[|ops| - 1];
      InTimeLast(plain, t, ops, cls, name);
      AnswersChangeOnlyTooLate(plain, t, before, cls, name);
      StepKeepsSound(plain, Steps(plain, t, before), last);
      AnswerChangesOnlyTooLate(plain, Steps(plain, t, before), last, cls, name);
      RegisteredStays(plain, Steps(plain, t, before), last, cls, name);
    }
  }

  lemma InTimeLast(plain: Plain, t: Table, ops: seq<Op>, cls: string, name: string)
    requires ops != []
    ensures
      var before := ops[..|ops| - 1];
      InTime(plain, t, ops, cls, name) <==>
        InTime(plain, t, before, cls, name) && !TooLate(plain, Steps(plain, t, before), ops[|ops| - 1], cls, name)
  {
    hide TooLate, Steps;
    var before := ops[..|ops| - 1];
    assert forall i :: 0 <= i < |before| ==> before[..i] == ops[..i] && before[i] == ops[i];
  }

  /** A registered identity stays registered and is never too late again. */
  lemma RegisteredStays(plain: Plain, t: Table, op: Op, cls: string, name: string)
    ensures Key(cls, name) in t.names ==> Key(cls, name) in Step(plain, t, op).names && !TooLate(plain, t, op, cls, name)
    ensures TooLate(plain, t, op, cls, name) ==> Key(cls, name) in Step(plain, t, op).names
  {
    hide Fresh;
  }

  /** Reserve and register first, then only look up, as a bundle does: no answer ever changes. Whatever is looked up at two
      points is answered the same, a registered identity with the pseudonym that replaces it in the texts. */
  lemma PhasesKeepAnswers(plain: Plain, first: seq<Op>, lookups: seq<Op>, i: nat, j: nat, cls: string, name: string)
    requires forall k :: 0 <= k < |lookups| ==> lookups[k].LookUp?
    requires i <= j < |lookups| && lookups[i] == LookUp(cls, name)
    ensures
      var start := Steps(plain, EMPTY, first);
      && AnswerOf(plain, Steps(plain, start, lookups[..j]), cls, name) == AnswerOf(plain, Steps(plain, start, lookups[..i]), cls, name)
      && Steps(plain, start, lookups[..j]).names == start.names && Steps(plain, start, lookups[..j]).variants == start.variants
  {
    hide AnswerOf, Steps, Sound;
    var start := Steps(plain, EMPTY, first);
    LookUpsRegisterNothing(plain, start, lookups[..j]);
    if i < j {
      PseudonymsAreInjective(plain, first + lookups[..i]);
      StepsJoin(plain, EMPTY, first, lookups[..i]);
      AnswerHolds(plain, Steps(plain, start, lookups[..i]), lookups[i + 1..j], cls, name);
      StepsJoin(plain, start, lookups[..i], [lookups[i]] + lookups[i + 1..j]);
      assert lookups[..i] + ([lookups[i]] + lookups[i + 1..j]) == lookups[..j];
    }
  }

  lemma AnswerHolds(plain: Plain, t: Table, lookups: seq<Op>, cls: string, name: string)
    requires Sound(t) && forall k :: 0 <= k < |lookups| ==> lookups[k].LookUp?
    ensures AnswerOf(plain, Steps(plain, t, [LookUp(cls, name)] + lookups), cls, name) == AnswerOf(plain, t, cls, name)
  {
    hide AnswerOf, Answered, Steps, Step, Sound;
    StepKeepsSound(plain, t, LookUp(cls, name));
    LookUpStep(plain, t, cls, name);
    LookUpIsAnswered(plain, t, cls, name);
    AnswersChangeOnlyTooLate(plain, LookedUp(t, plain, cls, name), lookups, cls, name);
    OneStep(plain, t, LookUp(cls, name));
    StepsJoin(plain, t, [LookUp(cls, name)], lookups);
  }

  lemma {:induction false} LookUpsRegisterNothing(plain: Plain, t: Table, lookups: seq<Op>)
    requires forall k :: 0 <= k < |lookups| ==> lookups[k].LookUp?
    ensures Steps(plain, t, lookups).names == t.names && Steps(plain, t, lookups).variants == t.variants
  {
    if lookups != [] { LookUpsRegisterNothing(plain, t, lookups[..|lookups| - 1]); }
  }

  // ------------------------------------------------------------------ the order of a bundle

  /** A text of the input that looks like a pseudonym, a name that is registered with the form it was found in, and a name
      that a member writes structurally. */
  datatype Seen = Seen(cls: string, n: nat)
  datatype Found = Found(cls: string, name: string, form: string)
  datatype Asked = Asked(cls: string, raw: string)

  function Reserves(seen: seq<Seen>): seq<Op> { seq(|seen|, i requires 0 <= i < |seen| => Reserve(seen[i].cls, seen[i].n)) }

  function Registers(found: seq<Found>): seq<Op> {
    seq(|found|, i requires 0 <= i < |found| => Register(found[i].cls, found[i].name, found[i].form))
  }

  /** No name is no lookup. */
  function LookUps(asked: seq<Asked>): seq<Op> {
    if asked == [] then []
    else
      var last := asked[|asked| - 1];
      LookUps(asked[..|asked| - 1]) + if last.raw == "" then [] else [LookUp(last.cls, Canonical(last.raw))]
  }

  function AnswerTo(plain: Plain, t: Table, a: Asked): Option<Answer> {
    if a.raw == "" then None else Some(AnswerOf(plain, t, a.cls, Canonical(a.raw)))
  }

  /** The table holds the answer that was given to each of these. */
  ghost predicate Holds(plain: Plain, t: Table, asked: seq<Asked>, answers: seq<Option<Answer>>) {
    && |answers| == |asked|
    && forall i :: 0 <= i < |asked| ==>
         && answers[i] == AnswerTo(plain, t, asked[i])
         && (asked[i].raw != "" ==> Answered(plain, t, asked[i].cls, Canonical(asked[i].raw)))
  }

  /** One more lookup, and all earlier answers still hold. */
  lemma HoldsMore(plain: Plain, t: Table, asked: seq<Asked>, answers: seq<Option<Answer>>, a: Asked)
    requires Sound(t) && Holds(plain, t, asked, answers)
    ensures var more := Steps(plain, t, LookUps([a])); Sound(more) && Holds(plain, more, asked + [a], answers + [AnswerTo(plain, t, a)])
  {
    hide Sound, Canonical, AnswerOf, Answered, Step;
    assert [a][..0] == [];
    assert LookUps([a]) == if a.raw == "" then [] else [LookUp(a.cls, Canonical(a.raw))];
    if a.raw != "" {
      var op := LookUp(a.cls, Canonical(a.raw));
      OneStep(plain, t, op);
      StepKeepsSound(plain, t, op);
      assert Step(plain, t, op) == LookedUp(t, plain, a.cls, Canonical(a.raw)) by { LookUpStep(plain, t, a.cls, Canonical(a.raw)); }
      LookUpIsAnswered(plain, t, a.cls, Canonical(a.raw));
      forall i | 0 <= i < |asked| && asked[i].raw != ""
        ensures Answered(plain, Step(plain, t, op), asked[i].cls, Canonical(asked[i].raw))
        ensures answers[i] == AnswerTo(plain, Step(plain, t, op), asked[i])
      {
        AnswerChangesOnlyTooLate(plain, t, op, asked[i].cls, Canonical(asked[i].raw));
      }
    }
  }

  lemma LookUpStep(plain: Plain, t: Table, cls: string, name: string)
    ensures Step(plain, t, LookUp(cls, name)) == LookedUp(t, plain, cls, name)
  {
  }

  // ------------------------------------------------------------------ the sanitizer

  class Sanitizer {
    var names: map<Key, Pseudonym>
    var next: map<string, nat>
    var taken: map<string, set<nat>>
    var variants: map<Key, Key>
    var short: map<Key, Pseudonym>
    const plain: Plain

    function Contents(): Table
      reads this
    {
      Table(names, next, taken, variants, short)
    }

    constructor (plain: Plain)
      ensures Contents() == EMPTY && this.plain == plain
    {
      names, next, taken, variants, short := map[], map[], map[], map[], map[];
      this.plain := plain;
    }

    /** Skips the numbers that the input already shows. */
    method Alloc(cls: string) returns (p: Pseudonym)
      modifies this`next
      ensures p == Pseudonym(cls, old(Fresh(Contents(), cls))) && next == old(next)[cls := p.n]
    {
      var n := Last(next, cls) + 1;
      while n in TakenOf(taken, cls)
        invariant n >= Last(next, cls) + 1 && next == old(next)
        invariant FirstFree(TakenOf(taken, cls), n) == Fresh(Contents(), cls)
        decreases |AtLeast(TakenOf(taken, cls), n)|
      {
        assert AtLeast(TakenOf(taken, cls), n + 1) == AtLeast(TakenOf(taken, cls), n) - {n};
        n := n + 1;
      }
      next := next[cls := n];
      p := Pseudonym(cls, n);
    }

    method Reserve(cls: string, n: nat)
      modifies this
      ensures Contents() == Step(plain, old(Contents()), Op.Reserve(cls, n))
    {
      taken := taken[cls := TakenOf(taken, cls) + {n}];
    }

    method Register(cls: string, name: string, form: string) returns (p: Option<Pseudonym>)
      modifies this
      ensures Contents() == Step(plain, old(Contents()), Op.Register(cls, name, form))
      ensures p == if name == "" then None else Some(names[Key(cls, name)])
    {
      if name == "" { return None; }
      var key := Key(cls, name);
      if key !in names {
        var q := Alloc(cls);
        names := names[key := q];
      }
      if Key(cls, form) !in variants { variants := variants[Key(cls, form) := key]; }
      p := Some(names[key]);
    }

    /** No name is given no pseudonym; any other is looked up by its canonical form. */
    method Structural(cls: string, raw: string) returns (answer: Option<Answer>)
      modifies this
      ensures raw == "" ==> answer == None && Contents() == old(Contents())
      ensures raw != "" ==>
                && Contents() == Step(plain, old(Contents()), LookUp(cls, Canonical(raw)))
                && answer == Some(AnswerOf(plain, Contents(), cls, Canonical(raw)))
                && answer == Some(AnswerOf(plain, old(Contents()), cls, Canonical(raw)))
    {
      hide Canonical, Fresh;
      if raw == "" { return None; }
      var name := Canonical(raw);
      var key := Key(cls, name);
      if IsPlainService(plain, cls, name) { return Some(Readable(name)); }
      if key in names { return Some(Answer.Number(names[key])); }
      if IsPlainAccount(plain, cls, name) { return Some(Readable(name)); }
      if key !in short {
        var q := Alloc(cls);
        short := short[key := q];
      }
      answer := Some(Answer.Number(short[key]));
    }

    /** The order of a bundle: what the input shows is reserved, what discovery finds is registered, and only then are the
        members written. Every answer given on the way is the one the table gives at the end, so no answer ever changes. */
    method Build(seen: seq<Seen>, found: seq<Found>, asked: seq<Asked>) returns (answers: seq<Option<Answer>>)
      requires Contents() == EMPTY
      modifies this
      ensures Contents() == Steps(plain, EMPTY, (Reserves(seen) + Registers(found)) + LookUps(asked))
      ensures Holds(plain, Contents(), asked, answers)
      // a registered identity is answered with the pseudonym that replaces it in the texts
      ensures names == Steps(plain, EMPTY, Reserves(seen) + Registers(found)).names
    {
      hide Step, Sound, Holds;
      for i := 0 to |seen|
        invariant Contents() == Steps(plain, EMPTY, Reserves(seen[..i]))
      {
        Reserve(seen[i].cls, seen[i].n);
        assert Reserves(seen[..i + 1])[..i] == Reserves(seen[..i]);
      }
      assert seen[..|seen|] == seen;
      ghost var reserved := Steps(plain, EMPTY, Reserves(seen));
      for i := 0 to |found|
        invariant Contents() == Steps(plain, reserved, Registers(found[..i]))
      {
        var p := Register(found[i].cls, found[i].name, found[i].form);
        assert Registers(found[..i + 1])[..i] == Registers(found[..i]);
      }
      assert found[..|found|] == found;
      ghost var start := Contents();
      StepsJoin(plain, EMPTY, Reserves(seen), Registers(found));
      answers := WriteMembers(Reserves(seen) + Registers(found), asked);
    }

    /** Writes the names of the members, one after another. */
    method WriteMembers(ghost first: seq<Op>, asked: seq<Asked>) returns (answers: seq<Option<Answer>>)
      requires Contents() == Steps(plain, EMPTY, first)
      modifies this
      ensures Contents() == Steps(plain, EMPTY, first + LookUps(asked))
      ensures Holds(plain, Contents(), asked, answers) && names == old(names)
    {
      hide Step, Steps, Sound, Holds, Canonical, LookUps;
      ghost var start := Contents();
      answers := [];
      PseudonymsAreInjective(plain, first);
      NoLookUps(plain, start, asked);
      NothingHeld(plain, start);
      for i := 0 to |asked|
        invariant Contents() == Steps(plain, start, LookUps(asked[..i]))
        invariant Sound(Contents()) && Holds(plain, Contents(), asked[..i], answers)
      {
        HoldsMore(plain, Contents(), asked[..i], answers, asked[i]);
        LookUpsJoin(plain, start, asked, i);
        var answer := Structural(asked[i].cls, asked[i].raw);
        assert asked[..i] + [asked[i]] == asked[..i + 1];
        answers := answers + [answer];
      }
      assert asked[..|asked|] == asked;
      StepsJoin(plain, EMPTY, first, LookUps(asked));
      AllLookUps(asked);
      LookUpsRegisterNothing(plain, start, LookUps(asked));
    }
  }

  lemma NoLookUps(plain: Plain, t: Table, asked: seq<Asked>)
    ensures Steps(plain, t, LookUps(asked[..0])) == t
  {
  }

  lemma NothingHeld(plain: Plain, t: Table)
    ensures Holds(plain, t, [], [])
  {
  }

  lemma {:induction false} AllLookUps(asked: seq<Asked>)
    ensures forall k :: 0 <= k < |LookUps(asked)| ==> LookUps(asked)[k].LookUp?
  {
    if asked != [] { AllLookUps(asked[..|asked| - 1]); }
  }

  lemma LookUpsJoin(plain: Plain, t: Table, asked: seq<Asked>, i: nat)
    requires i < |asked|
    ensures Steps(plain, t, LookUps(asked[..i + 1])) == Steps(plain, Steps(plain, t, LookUps(asked[..i])), LookUps([asked[i]]))
    ensures Steps(plain, Steps(plain, t, LookUps(asked[..i])), LookUps([asked[i]]))
         == if asked[i].raw == "" then Steps(plain, t, LookUps(asked[..i]))
            else Step(plain, Steps(plain, t, LookUps(asked[..i])), LookUp(asked[i].cls, Canonical(asked[i].raw)))
  {
    hide Step, Canonical;
    var before := Steps(plain, t, LookUps(asked[..i]));
    assert asked[..i + 1][..i] == asked[..i] && [asked[i]][..0] == [];
    StepsJoin(plain, t, LookUps(asked[..i]), LookUps([asked[i]]));
    if asked[i].raw != "" { OneStep(plain, before, LookUp(asked[i].cls, Canonical(asked[i].raw))); }
  }
}
