/** Client mode: causal roles, the finished list of diagnoses, and the verdicts. */
module ClientReport {
  import opened Common
  import opened Client

  // ------------------------------------------------------------------ the list of diagnoses

  lemma {:induction false} ListedMembers(t: Trace, who: Inputs, codes: seq<Code>, d: Diagnosis)
    ensures d in Listed(t, who, codes) <==> exists c :: c in codes && When(t, who, c) && Shape(t, who, c) == d
  {
    hide When, Shape;
    if codes != [] {
      ListedMembers(t, who, codes[1..], d);
      assert codes == [codes[0]] + codes[1..];
    }
  }

  predicate Has(ds: seq<Diagnosis>, code: Code) { exists i :: 0 <= i < |ds| && ds[i].code == code }

  /** A failure that is a cause of its own, or that is blamed, within `n` steps, only on such causes in the list. */
  ghost predicate Grounded(ds: seq<Diagnosis>, d: Diagnosis, n: nat)
    decreases n
  {
    && d.fails && d.kind != Some(Contradicting)
    && (d.relatedTo.None?
        || (n > 0 && Has(ds, d.relatedTo.value)
            && forall e :: e in ds && e.code == d.relatedTo.value ==> Grounded(ds, e, n - 1)))
  }

  lemma GroundStep(ds: seq<Diagnosis>, d: Diagnosis, n: nat)
    requires d.fails && d.kind != Some(Contradicting) && d.relatedTo.Some? && Has(ds, d.relatedTo.value)
    requires forall e :: e in ds && e.code == d.relatedTo.value ==> Grounded(ds, e, n)
    ensures Grounded(ds, d, n + 1)
  {
  }

  /** Only the cache database error can be listed twice. */
  lemma SameCode(t: Trace, who: Inputs, d: Diagnosis, e: Code)
    requires d in Listed(t, who, RULES) && d.code == e && CodeOf(e) == e
    ensures d == Shape(t, who, e) || (e == SSSD_CACHE_DB_ERROR && d == Shape(t, who, SSSD_CACHE_DB_LATER))
  {
    hide When, Base, CauseOf, KindOf;
    ListedMembers(t, who, RULES, d);
  }

  lemma CauseIsListed(t: Trace, who: Inputs, e: Code)
    requires e in RULES && When(t, who, e) && CodeOf(e) == e
    ensures Has(Listed(t, who, RULES), e)
  {
    hide When, Base, CauseOf, KindOf;
    ListedMembers(t, who, RULES, Shape(t, who, e));
    var i :| 0 <= i < |Listed(t, who, RULES)| && Listed(t, who, RULES)[i] == Shape(t, who, e);
  }

  lemma LaterIsRoot(t: Trace, who: Inputs)
    ensures IsRoot(Shape(t, who, SSSD_CACHE_DB_LATER))
  {
  }

  lemma RootIsGrounded(t: Trace, who: Inputs, e: Code, n: nat)
    requires CodeOf(e) == e && IsRoot(Shape(t, who, e))
    ensures forall d :: d in Listed(t, who, RULES) && d.code == e ==> Grounded(Listed(t, who, RULES), d, n)
  {
    hide When, Shape;
    LaterIsRoot(t, who);
    forall d | d in Listed(t, who, RULES) && d.code == e ensures Grounded(Listed(t, who, RULES), d, n) {
      SameCode(t, who, d, e);
    }
  }

  /** Blame reaches a cause in at most two steps. */
  lemma BlameIsGrounded(t: Trace, who: Inputs, c: Code)
    requires When(t, who, c) && CauseOf(t, who, c).Some? && KindOf(t, who, c) != Some(Contradicting)
    ensures Grounded(Listed(t, who, RULES), Shape(t, who, c), if c == SSSD_OFFLINE then 1 else 2)
  {
    hide When, CauseOf, KindOf, UpstreamOf, Listed, RULES, Grounded, Has, Base;
    var ds, e := Listed(t, who, RULES), CauseOf(t, who, c).value;
    CausesAreDiagnosed(t, who, c);
    CauseIsListed(t, who, e);
    if CauseOf(t, who, e).None? {
      RootIsGrounded(t, who, e, 0);
      RootIsGrounded(t, who, e, 1);
    } else {
      OfflineNotItsOwnCause(t, who, c, e);
      OfflineIsGrounded(t, who);
    }
    GroundStep(ds, Shape(t, who, c), if c == SSSD_OFFLINE then 0 else 1);
  }

  lemma OfflineNotItsOwnCause(t: Trace, who: Inputs, c: Code, e: Code)
    requires CauseOf(t, who, c) == Some(e) && e == SSSD_OFFLINE
    ensures c != SSSD_OFFLINE
  {
    hide When;
    UpstreamIsRoot(t, who);
    OfflineIsLater();
  }

  lemma OfflineIsGrounded(t: Trace, who: Inputs)
    requires When(t, who, SSSD_OFFLINE) && CauseOf(t, who, SSSD_OFFLINE).Some?
    ensures
      var ds := Listed(t, who, RULES);
      forall d :: d in ds && d.code == SSSD_OFFLINE ==> Grounded(ds, d, 1)
  {
    hide When, KindOf, UpstreamOf, Listed, RULES;
    var ds := Listed(t, who, RULES);
    var up := CauseOf(t, who, SSSD_OFFLINE).value;
    CausesAreDiagnosed(t, who, SSSD_OFFLINE);
    UpstreamIsRoot(t, who);
    CauseIsListed(t, who, up);
    RootIsGrounded(t, who, up, 0);
    forall d | d in ds && d.code == SSSD_OFFLINE ensures Grounded(ds, d, 1) {
      SameCode(t, who, d, SSSD_OFFLINE);
      OfflineKind(t, who);
    }
  }

  lemma OfflineKind(t: Trace, who: Inputs)
    ensures KindOf(t, who, SSSD_OFFLINE) != Some(Contradicting) && Base(t, who, SSSD_OFFLINE, true).fails
  {
    hide UpstreamOf;
  }

  /** In every list of diagnoses, whatever the trace: a blamed failure is grounded, and a contradiction blames nothing. */
  lemma EveryBlameIsGrounded(t: Trace, who: Inputs, d: Diagnosis)
    requires d in Added(t, who) && d.relatedTo.Some?
    ensures d.fails && d.kind != Some(Contradicting) && Grounded(Added(t, who), d, 2)
  {
    hide When, CauseOf, KindOf, UpstreamOf, Listed, RULES;
    if !NotEnrolled(t) {
      ListedMembers(t, who, RULES, d);
      var c :| c in RULES && When(t, who, c) && Shape(t, who, c) == d;
      ContradictionBlamesNothing(t, who, c);
      BlameIsGrounded(t, who, c);
      GroundedLonger(Added(t, who), d, 1);
    }
  }

  lemma ContradictionBlamesNothing(t: Trace, who: Inputs, c: Code)
    requires CauseOf(t, who, c).Some?
    ensures KindOf(t, who, c) != Some(Contradicting)
  {
    hide UpstreamOf, DnsFailure, ServerFailure, SrvBehindKdc, When;
  }

  lemma {:induction false} GroundedLonger(ds: seq<Diagnosis>, d: Diagnosis, n: nat)
    ensures Grounded(ds, d, n) ==> Grounded(ds, d, n + 1)
    decreases n
  {
    if n > 0 && d.relatedTo.Some? {
      forall e | e in ds && e.code == d.relatedTo.value ensures Grounded(ds, e, n - 1) ==> Grounded(ds, e, n) {
        GroundedLonger(ds, e, n - 1);
      }
    }
  }

  // ------------------------------------------------------------------ roles

  function Prior(d: Diagnosis): nat { (if d.fails then 0 else 100) + Layer(d.capability) }

  /** Failures first, then by layer, then in the order they were added. */
  predicate Precedes(ds: seq<Diagnosis>, i: nat, j: nat)
    requires i < |ds| && j < |ds|
  {
    Prior(ds[i]) < Prior(ds[j]) || (Prior(ds[i]) == Prior(ds[j]) && i < j)
  }

  predicate IsCause(d: Diagnosis) { d.fails && d.relatedTo == None && d.kind == None }

  /** The cause that precedes every other cause. */
  predicate IsFirstCause(ds: seq<Diagnosis>, i: nat)
    requires i < |ds|
  {
    IsCause(ds[i]) && forall j :: 0 <= j < |ds| && j != i && IsCause(ds[j]) ==> Precedes(ds, i, j)
  }

  /** The role of one diagnosis, `first` being whether no cause came before it. */
  function RoleFor(d: Diagnosis, first: bool): (role: Role)
    ensures role in {PRIMARY, INDEPENDENT} <==> IsCause(d)
    ensures role == PRIMARY ==> first
  {
    match d.kind
    case Some(Contradicting) => CONTRADICTING
    case other =>
      if !d.fails then WARNING
      else if d.relatedTo.Some? then RELATED
      else if other == Some(Undiagnosed) then UNDIAGNOSED
      else if first then PRIMARY
      else INDEPENDENT
  }

  function RoleOf(ds: seq<Diagnosis>, i: nat): Role
    requires i < |ds|
  {
    RoleFor(ds[i], IsFirstCause(ds, i))
  }

  /** There is one primary cause exactly when there is a cause at all, and no other cause lies in a lower layer. */
  lemma OnePrimary(ds: seq<Diagnosis>)
    ensures (exists i :: 0 <= i < |ds| && RoleOf(ds, i) == PRIMARY) <==> (exists i :: 0 <= i < |ds| && IsCause(ds[i]))
    ensures forall i, j :: 0 <= i < |ds| && 0 <= j < |ds| && RoleOf(ds, i) == PRIMARY && RoleOf(ds, j) == PRIMARY ==> i == j
    ensures forall i, j :: 0 <= i < |ds| && 0 <= j < |ds| && RoleOf(ds, i) == PRIMARY && RoleOf(ds, j) == INDEPENDENT
              ==> Layer(ds[i].capability) <= Layer(ds[j].capability)
  {
    hide IsFirstCause, Layer, RoleFor;
    forall i, j | 0 <= i < |ds| && 0 <= j < |ds| && RoleOf(ds, i) == PRIMARY && IsCause(ds[j])
      ensures Layer(ds[i].capability) <= Layer(ds[j].capability) && (RoleOf(ds, j) == PRIMARY ==> i == j)
    {
      FirstIsLowest(ds, i, j);
    }
    if i :| 0 <= i < |ds| && IsCause(ds[i]) {
      var first := FirstUpTo(ds, |ds|);
      FirstIsFirst(ds, first);
      assert RoleOf(ds, first) == PRIMARY by { RoleInOrder(ds, first, false); }
    }
    if i :| 0 <= i < |ds| && RoleOf(ds, i) == PRIMARY { assert IsCause(ds[i]); }
  }

  lemma FirstIsFirst(ds: seq<Diagnosis>, first: nat)
    requires first < |ds| && IsCause(ds[first])
    requires forall j :: 0 <= j < |ds| && j != first && IsCause(ds[j]) ==> Precedes(ds, first, j)
    ensures IsFirstCause(ds, first)
  {
  }

  lemma FirstIsLowest(ds: seq<Diagnosis>, i: nat, j: nat)
    requires i < |ds| && j < |ds| && IsFirstCause(ds, i) && IsCause(ds[j])
    ensures Layer(ds[i].capability) <= Layer(ds[j].capability)
    ensures IsFirstCause(ds, j) ==> i == j
  {
    hide Layer;
    if i != j {
      assert Precedes(ds, i, j);
      assert IsFirstCause(ds, j) ==> Precedes(ds, j, i);
    }
  }

  lemma {:induction false} FirstUpTo(ds: seq<Diagnosis>, n: nat) returns (first: nat)
    requires n <= |ds| && exists i :: 0 <= i < n && IsCause(ds[i])
    ensures first < n && IsCause(ds[first])
    ensures forall j :: 0 <= j < n && j != first && IsCause(ds[j]) ==> Precedes(ds, first, j)
  {
    hide Layer;
    if exists i :: 0 <= i < n - 1 && IsCause(ds[i]) {
      first := FirstUpTo(ds, n - 1);
      if IsCause(ds[n - 1]) && Precedes(ds, n - 1, first) { first := n - 1; }
    } else {
      first := n - 1;
    }
  }

  /** A link to a diagnosis that is not listed is dropped. */
  function Cleared(ds: seq<Diagnosis>): (out: seq<Diagnosis>)
    ensures |out| == |ds|
  {
    seq(|ds|, i requires 0 <= i < |ds| =>
      if ds[i].relatedTo.Some? && !Has(ds, ds[i].relatedTo.value) then ds[i].(relatedTo := None) else ds[i])
  }

  function Labelled(ds: seq<Diagnosis>): (out: seq<Diagnosis>)
    ensures |out| == |ds|
  {
    seq(|ds|, i requires 0 <= i < |ds| => ds[i].(role := Some(RoleOf(ds, i))))
  }

  function PriorAt(ds: seq<Diagnosis>, i: nat): nat { if i < |ds| then Prior(ds[i]) else 0 }

  function ByPrior(ds: seq<Diagnosis>): (nat, nat) -> bool {
    (i: nat, j: nat) => PriorAt(ds, i) < PriorAt(ds, j) || (PriorAt(ds, i) == PriorAt(ds, j) && i < j)
  }

  function Indices(n: nat): (s: seq<nat>)
    ensures |s| == n && forall i :: 0 <= i < n ==> s[i] == i
  {
    seq(n, (i: nat) => i)
  }

  function Order(ds: seq<Diagnosis>): seq<nat> { SortBy<nat>(Indices(|ds|), ByPrior(ds)) }

  /** Assigns roles in order of severity and layer. */
  method AssignRoles(ds: seq<Diagnosis>) returns (out: seq<Diagnosis>)
    ensures out == Labelled(ds)
  {
    hide Prior, IsFirstCause, RoleFor, Precedes;
    var order := Order(ds);
    OrderOfAll(ds, order);
    out := ds;
    var primarySet := false;
    for k := 0 to |order|
      invariant |out| == |ds|
      invariant forall m :: 0 <= m < k ==> out[order[m]] == ds[order[m]].(role := Some(RoleOf(ds, order[m])))
      invariant forall m :: k <= m < |order| ==> out[order[m]] == ds[order[m]]
      invariant primarySet <==> exists m :: 0 <= m < k && IsCause(ds[order[m]])
    {
      var d := out[order[k]];
      FirstInOrder(ds, order, k);
      var role := RoleFor(d, !primarySet);
      RoleInOrder(ds, order[k], primarySet);
      primarySet := primarySet || role == PRIMARY;
      out := out[order[k] := d.(role := Some(role))];
    }
    forall i | 0 <= i < |ds| ensures out[i] == Labelled(ds)[i] {
      assert i in order;
      var m :| 0 <= m < |order| && order[m] == i;
    }
  }

  lemma RoleInOrder(ds: seq<Diagnosis>, i: nat, earlier: bool)
    requires i < |ds| && (IsFirstCause(ds, i) <==> IsCause(ds[i]) && !earlier)
    ensures RoleFor(ds[i], !earlier) == RoleOf(ds, i)
    ensures earlier || RoleFor(ds[i], !earlier) == PRIMARY <==> earlier || IsCause(ds[i])
  {
  }

  ghost predicate AllInOrder(ds: seq<Diagnosis>, order: seq<nat>) {
    && (forall m :: 0 <= m < |order| ==> order[m] < |ds|)
    && (forall i {:trigger i in order} :: 0 <= i < |ds| ==> i in order)
    && (forall m, n :: 0 <= m < n < |order| ==> order[m] != order[n])
    && (forall m, n :: 0 <= m < n < |order| ==> order[m] < |ds| && order[n] < |ds| && Precedes(ds, order[m], order[n]))
  }

  lemma ByPriorIsOrder(ds: seq<Diagnosis>)
    ensures IsOrder<nat>(ByPrior(ds))
  {
    hide PriorAt;
  }

  lemma OrderOfAll(ds: seq<Diagnosis>, order: seq<nat>)
    requires order == Order(ds)
    ensures AllInOrder(ds, order)
  {
    hide Prior, IsOrder, Precedes, SortBy;
    var all: seq<nat> := Indices(|ds|);
    SortByElements<nat>(all, ByPrior(ds));
    forall i: nat | i < |ds| ensures i in order { assert all[i] == i; }
    forall m | 0 <= m < |order| ensures order[m] < |ds| { assert order[m] in all; }
    OrderedOnce(ds, order);
    forall m, n | 0 <= m < n < |order| ensures order[m] < |ds| && order[n] < |ds| && Precedes(ds, order[m], order[n]) {
      NotAfterPrecedes(ds, order[m], order[n]);
    }
  }

  lemma OrderedOnce(ds: seq<Diagnosis>, order: seq<nat>)
    requires order == Order(ds)
    ensures forall m, n :: 0 <= m < n < |order| ==> order[m] != order[n] && !ByPrior(ds)(order[n], order[m])
  {
    hide Prior, IsOrder, PriorAt;
    ByPriorIsOrder(ds);
    SortBySorted<nat>(Indices(|ds|), ByPrior(ds));
    NoRepeatsPermuted<nat>(Indices(|ds|), order);
  }

  lemma NotAfterPrecedes(ds: seq<Diagnosis>, i: nat, j: nat)
    requires i < |ds| && j < |ds| && i != j && !ByPrior(ds)(j, i)
    ensures Precedes(ds, i, j)
  {
    hide Prior;
  }

  lemma FirstInOrder(ds: seq<Diagnosis>, order: seq<nat>, k: nat)
    requires AllInOrder(ds, order) && k < |order|
    ensures IsFirstCause(ds, order[k])
       <==> IsCause(ds[order[k]]) && !exists m :: 0 <= m < k && IsCause(ds[order[m]])
  {
    hide Prior;
    if m :| 0 <= m < k && IsCause(ds[order[m]]) {
      assert Precedes(ds, order[m], order[k]) && !Precedes(ds, order[k], order[m]);
    } else if IsCause(ds[order[k]]) {
      forall j | 0 <= j < |ds| && j != order[k] && IsCause(ds[j]) ensures Precedes(ds, order[k], j) {
        assert j in order;
        var m :| 0 <= m < |order| && order[m] == j;
        assert k < m;
      }
    }
  }

  // ------------------------------------------------------------------ the finished list

  function RoleOrder(role: Option<Role>): nat {
    match role
    case Some(PRIMARY) => 0
    case Some(INDEPENDENT) => 1
    case Some(UNDIAGNOSED) => 2
    case Some(CONTRADICTING) => 3
    case Some(RELATED) => 4
    case Some(WARNING) => 5
    case None => 6
  }

  const BY_ROLE: (Diagnosis, Diagnosis) -> bool :=
    (d: Diagnosis, e: Diagnosis) =>
      RoleOrder(d.role) < RoleOrder(e.role)
      || (RoleOrder(d.role) == RoleOrder(e.role) && Layer(d.capability) < Layer(e.capability))

  /** The report begins with the primary cause; then come the independent causes, what is undiagnosed or contradicts itself,
      the related failures and the warnings; within one role the lower layer comes first. */
  lemma RolesInOrder(s: seq<Diagnosis>, i: nat, j: nat)
    requires SortedBy(s, BY_ROLE) && i < j < |s| && s[i].role.Some? && s[j].role.Some?
    ensures s[j].role == Some(PRIMARY) ==> s[i].role == Some(PRIMARY)
    ensures s[j].role == Some(INDEPENDENT) ==> s[i].role in {Some(PRIMARY), Some(INDEPENDENT)}
    ensures s[j].role == Some(UNDIAGNOSED) ==> s[i].role in {Some(PRIMARY), Some(INDEPENDENT), Some(UNDIAGNOSED)}
    ensures s[j].role == Some(CONTRADICTING) ==> s[i].role !in {Some(RELATED), Some(WARNING)}
    ensures s[j].role == Some(RELATED) ==> s[i].role != Some(WARNING)
    ensures s[i].role == s[j].role ==> Layer(s[i].capability) <= Layer(s[j].capability)
  {
    hide Layer;
  }

  function Finished(ds: seq<Diagnosis>): seq<Diagnosis> { SortBy(Labelled(Cleared(ds)), BY_ROLE) }

  /** The diagnoses of a client run. */
  function Report(t: Trace, who: Inputs): seq<Diagnosis> { Finished(Added(t, who)) }

  lemma NothingIsCleared(t: Trace, who: Inputs)
    ensures Cleared(Added(t, who)) == Added(t, who)
  {
    hide Added;
    var ds := Added(t, who);
    forall i | 0 <= i < |ds| && ds[i].relatedTo.Some? ensures Has(ds, ds[i].relatedTo.value) {
      EveryBlameIsGrounded(t, who, ds[i]);
    }
  }

  /** Blame ends, within `n` steps, at a failure that is primary, independent or undiagnosed. */
  ghost predicate EndsAtCause(ds: seq<Diagnosis>, d: Diagnosis, n: nat)
    decreases n
  {
    && d.fails
    && (d.role in {Some(PRIMARY), Some(INDEPENDENT), Some(UNDIAGNOSED)}
        || (d.role == Some(RELATED) && n > 0 && d.relatedTo.Some? && Has(ds, d.relatedTo.value)
            && forall e :: e in ds && e.code == d.relatedTo.value ==> EndsAtCause(ds, e, n - 1)))
  }

  lemma {:induction false} GroundedEnds(ds: seq<Diagnosis>, fs: seq<Diagnosis>, i: nat, n: nat)
    requires i < |ds| && Grounded(ds, ds[i], n)
    requires forall e {:trigger e in fs} {:trigger e in Labelled(ds)} :: e in fs <==> e in Labelled(ds)
    ensures EndsAtCause(fs, Labelled(ds)[i], n)
    decreases n
  {
    hide IsFirstCause;
    if ds[i].relatedTo.Some? {
      var code := ds[i].relatedTo.value;
      var k :| 0 <= k < |ds| && ds[k].code == code;
      assert Labelled(ds)[k] in fs;
      forall e | e in fs && e.code == code ensures EndsAtCause(fs, e, n - 1) {
        var j :| 0 <= j < |ds| && Labelled(ds)[j] == e;
        GroundedEnds(ds, fs, j, n - 1);
      }
    }
  }

  /** In every client result, whatever the trace: following `related_to` from a related diagnosis reaches, in at most two
      steps, a failure whose role is primary, independent or undiagnosed. */
  lemma EveryRelatedEndsAtCause(t: Trace, who: Inputs)
    ensures forall d :: d in Report(t, who) && d.role == Some(RELATED) ==> EndsAtCause(Report(t, who), d, 2)
  {
    hide Report, EndsAtCause;
    forall d | d in Report(t, who) && d.role == Some(RELATED) ensures EndsAtCause(Report(t, who), d, 2) {
      RelatedEndsAtCause(t, who, d);
    }
  }

  lemma RelatedEndsAtCause(t: Trace, who: Inputs, d: Diagnosis)
    requires d in Report(t, who) && d.role == Some(RELATED)
    ensures EndsAtCause(Report(t, who), d, 2)
  {
    hide Added, RoleOf;
    var ds := Added(t, who);
    NothingIsCleared(t, who);
    SortByElements(Labelled(ds), BY_ROLE);
    var i :| 0 <= i < |ds| && Labelled(ds)[i] == d;
    RelatedIsBlamed(ds, i);
    EveryBlameIsGrounded(t, who, ds[i]);
    GroundedEnds(ds, Report(t, who), i, 2);
  }

  lemma RelatedIsBlamed(ds: seq<Diagnosis>, i: nat)
    requires i < |ds| && RoleOf(ds, i) == RELATED
    ensures ds[i].relatedTo.Some?
  {
  }

  /** A client result has a primary cause exactly when it has a cause; it has only one, in the lowest layer of all causes,
      and it comes first. */
  lemma PrimaryComesFirst(t: Trace, who: Inputs)
    ensures
      var ds := Report(t, who);
      && (forall i :: 0 < i < |ds| ==> ds[i].role != Some(PRIMARY))
      && (ds != [] && ds[0].role == Some(PRIMARY) <==> exists d :: d in Added(t, who) && IsCause(d))
      && (forall i :: 0 < i < |ds| && ds[0].role == Some(PRIMARY) && ds[i].role == Some(INDEPENDENT)
            ==> Layer(ds[0].capability) <= Layer(ds[i].capability))
  {
    hide Added, RoleOf;
    NothingIsCleared(t, who);
    FinishedPrimary(Added(t, who), Report(t, who));
  }

  lemma FinishedPrimary(ds: seq<Diagnosis>, fs: seq<Diagnosis>)
    requires fs == SortBy(Labelled(ds), BY_ROLE)
    ensures forall i :: 0 < i < |fs| ==> fs[i].role != Some(PRIMARY)
    ensures fs != [] && fs[0].role == Some(PRIMARY) <==> exists d :: d in ds && IsCause(d)
    ensures forall i :: 0 < i < |fs| && fs[0].role == Some(PRIMARY) && fs[i].role == Some(INDEPENDENT)
              ==> Layer(fs[0].capability) <= Layer(fs[i].capability)
  {
    hide RoleOf, Layer, Labelled, RoleOrder, IsCause;
    FinishedInOrder(ds, fs);
    PrimaryOnce(ds, fs);
    PrimaryIsFirst(fs);
    FinishedHasPrimary(ds, fs);
    forall i | 0 < i < |fs| && fs[0].role == Some(PRIMARY) && fs[i].role == Some(INDEPENDENT)
      ensures Layer(fs[0].capability) <= Layer(fs[i].capability)
    {
      FinishedLayers(ds, fs, fs[0], fs[i]);
    }
  }

  ghost predicate RolesAscend(fs: seq<Diagnosis>) {
    forall i, j :: 0 <= i < j < |fs| ==> RoleOrder(fs[i].role) <= RoleOrder(fs[j].role)
  }

  lemma FinishedInOrder(ds: seq<Diagnosis>, fs: seq<Diagnosis>)
    requires fs == SortBy(Labelled(ds), BY_ROLE)
    ensures RolesAscend(fs)
  {
    hide Labelled, Layer;
    RolesAreOrdered();
    SortBySorted(Labelled(ds), BY_ROLE);
    forall i, j | 0 <= i < j < |fs| ensures RoleOrder(fs[i].role) <= RoleOrder(fs[j].role) {
      assert !BY_ROLE(fs[j], fs[i]);
    }
  }

  lemma PrimaryIsFirst(fs: seq<Diagnosis>)
    requires RolesAscend(fs)
    requires forall i, j :: 0 <= i < j < |fs| && fs[i].role == Some(PRIMARY) ==> fs[j].role != Some(PRIMARY)
    ensures forall i :: 0 < i < |fs| ==> fs[i].role != Some(PRIMARY)
  {
    forall i | 0 < i < |fs| ensures fs[i].role != Some(PRIMARY) {
      assert RoleOrder(fs[0].role) <= RoleOrder(fs[i].role);
    }
  }

  /** Every finished diagnosis is an added one with its role. */
  lemma FinishedFrom(ds: seq<Diagnosis>, fs: seq<Diagnosis>, d: Diagnosis) returns (i: nat)
    requires fs == SortBy(Labelled(ds), BY_ROLE) && d in fs
    ensures i < |ds| && d == ds[i].(role := Some(RoleOf(ds, i)))
  {
    hide RoleOf;
    SortByElements(Labelled(ds), BY_ROLE);
    i :| 0 <= i < |ds| && Labelled(ds)[i] == d;
  }

  /** ... and every added one is finished. */
  lemma FinishedTo(ds: seq<Diagnosis>, fs: seq<Diagnosis>, i: nat)
    requires fs == SortBy(Labelled(ds), BY_ROLE) && i < |ds|
    ensures ds[i].(role := Some(RoleOf(ds, i))) in fs
  {
    hide RoleOf;
    SortByElements(Labelled(ds), BY_ROLE);
    assert Labelled(ds)[i] in fs;
  }

  lemma FinishedHasPrimary(ds: seq<Diagnosis>, fs: seq<Diagnosis>)
    requires fs == SortBy(Labelled(ds), BY_ROLE)
    requires forall i :: 0 < i < |fs| ==> fs[i].role != Some(PRIMARY)
    ensures fs != [] && fs[0].role == Some(PRIMARY) <==> exists d :: d in ds && IsCause(d)
  {
    hide RoleOf, Layer, IsCause, SortBy, Labelled;
    OnePrimary(ds);
    if d :| d in ds && IsCause(d) {
      var k :| 0 <= k < |ds| && ds[k] == d;
      var i :| 0 <= i < |ds| && RoleOf(ds, i) == PRIMARY;
      FinishedTo(ds, fs, i);
    }
    if fs != [] && fs[0].role == Some(PRIMARY) {
      var i := FinishedFrom(ds, fs, fs[0]);
      assert RoleOf(ds, i) == PRIMARY;
      var j :| 0 <= j < |ds| && IsCause(ds[j]);
      assert ds[j] in ds;
    }
  }

  lemma FinishedLayers(ds: seq<Diagnosis>, fs: seq<Diagnosis>, p: Diagnosis, d: Diagnosis)
    requires fs == SortBy(Labelled(ds), BY_ROLE) && p in fs && d in fs
    requires p.role == Some(PRIMARY) && d.role == Some(INDEPENDENT)
    ensures Layer(p.capability) <= Layer(d.capability)
  {
    hide RoleOf, Layer, IsCause, SortBy, Labelled;
    OnePrimary(ds);
    var i := FinishedFrom(ds, fs, p);
    var j := FinishedFrom(ds, fs, d);
    assert RoleOf(ds, i) == PRIMARY && RoleOf(ds, j) == INDEPENDENT;
  }

  lemma RolesAreOrdered()
    ensures IsOrder(BY_ROLE)
  {
    hide RoleOrder, Layer;
  }

  lemma PrimaryOnce(ds: seq<Diagnosis>, fs: seq<Diagnosis>)
    requires multiset(fs) == multiset(Labelled(ds))
    ensures forall i, j :: 0 <= i < j < |fs| && fs[i].role == Some(PRIMARY) ==> fs[j].role != Some(PRIMARY)
  {
    hide RoleOf, Layer;
    var ls := Labelled(ds);
    OnePrimary(ds);
    forall i, j | 0 <= i < j < |fs| && fs[i].role == Some(PRIMARY) ensures fs[j].role != Some(PRIMARY) {
      if fs[j].role == Some(PRIMARY) {
        assert fs[i] in multiset(ls) && fs[j] in multiset(ls);
        var m :| 0 <= m < |ls| && ls[m] == fs[i];
        var n :| 0 <= n < |ls| && ls[n] == fs[j];
        assert m == n;
        TwiceCounts(fs, i, j);
        OnceCounts(ls, m);
      }
    }
  }

  lemma TwiceCounts(s: seq<Diagnosis>, i: nat, j: nat)
    requires i < j < |s| && s[i] == s[j]
    ensures multiset(s)[s[i]] >= 2
  {
    assert s == s[..j] + [s[j]] + s[j + 1..];
    assert s[i] in s[..j];
  }

  lemma OnceCounts(s: seq<Diagnosis>, m: nat)
    requires m < |s| && forall n :: 0 <= n < |s| && n != m ==> s[n] != s[m]
    ensures multiset(s)[s[m]] == 1
  {
    assert s == s[..m] + [s[m]] + s[m + 1..];
    assert s[m] !in s[..m] && s[m] !in s[m + 1..];
  }

  // ------------------------------------------------------------------ verdicts

  /** Layers that break online authentication, but not the logins of users with cached credentials. */
  predicate AuthPathOnly(c: Capability) { c in {DNS, NETWORK, TLS, TIME, KEYTAB, KERBEROS, SSSD_BACKEND} }

  predicate RuntimeBlocker(d: Diagnosis) {
    d.blocksRuntime && d.fails && !AuthPathOnly(d.capability) && d.code != HOST_PRINCIPAL_UNKNOWN
  }

  predicate OnlinePathBroken(d: Diagnosis) { d.fails && (d.blocksAuth || (d.blocksRuntime && !RuntimeBlocker(d))) }

  predicate LocalAuthBreak(d: Diagnosis) { d.code in {PAM_SERVICE_WITHOUT_SSSD, PAM_AUTH_WITHOUT_SSSD} }

  /** Neither verdict is ever a pass: no login is attempted and no credential tested. */
  datatype Verdict = FAILS | NOT_VERIFIED

  function Authentication(ds: seq<Diagnosis>): Verdict {
    if (exists d :: d in ds && LocalAuthBreak(d)) || (exists d :: d in ds && OnlinePathBroken(d)) then FAILS else NOT_VERIFIED
  }

  function Runtime(ds: seq<Diagnosis>): Verdict { if exists d :: d in ds && RuntimeBlocker(d) then FAILS else NOT_VERIFIED }

  predicate BreaksAuth(d: Diagnosis) { LocalAuthBreak(d) || OnlinePathBroken(d) }

  /** What breaks authentication against IPA on this host, besides a missing enrollment and SRV records. */
  const BREAK_AUTH: set<Code> :=
    {SSSD_NOT_CONFIGURED, DNS_NO_RESOLVER, DNS_RESOLVER_NOT_ANSWERING, DNS_SERVER_UNRESOLVABLE, SERVER_UNREACHABLE,
     LDAP_UNREACHABLE, CA_TRUST_FAILED, CLOCK_SKEW, HOST_KEYTAB_MISSING, HOST_KEYTAB_WRONG_PRINCIPAL, HOST_KEYTAB_UNREADABLE,
     KDC_NOT_RESOLVABLE, KDC_UNREACHABLE, HOST_PRINCIPAL_UNKNOWN, HOST_KEY_REJECTED, KERBEROS_FAILED, SSSD_NOT_RUNNING,
     SSSD_OFFLINE, PAM_SERVICE_WITHOUT_SSSD, PAM_AUTH_WITHOUT_SSSD}

  /** What keeps every user from logging in, besides a missing enrollment and a bad configuration of a stopped SSSD. */
  const BLOCK_RUNTIME: set<Code> :=
    {SSSD_NOT_CONFIGURED, SSSD_CACHE_DB_ERROR, SSSD_NOT_RUNNING, IDENTITY_LOOKUP_FAILS, USER_NOT_IN_IPA, NAME_NOT_QUALIFIED,
     SSSD_CACHE_DB_LATER, SSSD_CACHE_INCONSISTENT, IDENTITY_LOOKUP_FAILS_GENERAL, NSS_NOT_USING_SSSD,
     RUNTIME_ACCOUNT_DENIED_LOCAL, RUNTIME_DENIED_HBAC_ALLOWS, RUNTIME_ACCOUNT_DENIED, RUNTIME_ACCOUNT_UNAVAILABLE,
     RUNTIME_ACCOUNT_FAILED}

  /** SRV records that no fixed server makes up for, or that the KDC was not found without. */
  predicate SrvNeeded(t: Trace, who: Inputs, c: Code) {
    c in {DNS_SRV_QUERY_FAILED, DNS_SRV_MISSING} && (!HasFixedServer(t) || SrvBehindKdc(t, who) == Some(c))
  }

  /** The verdicts of a report say what the trace says: each of them fails exactly when the host is not enrolled or one of
      the rules applies that break authentication, or block runtime access. A failure that blocks anything does one or the
      other, so none vanishes from both. */
  lemma VerdictsAreExact(t: Trace, who: Inputs)
    ensures Authentication(Report(t, who)) == FAILS <==>
              NotEnrolled(t) || exists c :: c in RULES && When(t, who, c) && (c in BREAK_AUTH || SrvNeeded(t, who, c))
    ensures Runtime(Report(t, who)) == FAILS <==>
              || NotEnrolled(t)
              || exists c :: c in RULES && When(t, who, c)
                             && (c in BLOCK_RUNTIME || (c == SSSD_CONFIG_INVALID && Is(t, SssdService, FAIL)))
    ensures forall d :: BreaksAuth(d) || RuntimeBlocker(d) <==> LocalAuthBreak(d) || (d.fails && (d.blocksRuntime || d.blocksAuth))
  {
    hide Report, When, Base, RULES, Added, BREAK_AUTH, BLOCK_RUNTIME, SrvNeeded, Is, IsBlocking, RuntimeBlocker, LocalAuthBreak,
         OnlinePathBroken;
    VerdictsAreBlocking();
    BlockersShow(t, who, d => BreaksAuth(d));
    BlockersShow(t, who, d => RuntimeBlocker(d));
    forall c | c in RULES
      ensures BreaksAuth(Base(t, who, c, true)) <==> c in BREAK_AUTH || SrvNeeded(t, who, c)
      ensures RuntimeBlocker(Base(t, who, c, true)) <==> c in BLOCK_RUNTIME || (c == SSSD_CONFIG_INVALID && Is(t, SssdService, FAIL))
    {
      RuleBlocks(t, who, c);
    }
  }

  lemma VerdictsAreBlocking()
    ensures IsBlocking(d => BreaksAuth(d)) && IsBlocking(d => RuntimeBlocker(d))
    ensures forall d :: BreaksAuth(d) || RuntimeBlocker(d) <==> LocalAuthBreak(d) || (d.fails && (d.blocksRuntime || d.blocksAuth))
  {
  }

  lemma RuleBlocks(t: Trace, who: Inputs, c: Code)
    requires c in RULES
    ensures BreaksAuth(Base(t, who, c, true)) <==> c in BREAK_AUTH || SrvNeeded(t, who, c)
    ensures RuntimeBlocker(Base(t, who, c, true)) <==> c in BLOCK_RUNTIME || (c == SSSD_CONFIG_INVALID && Is(t, SssdService, FAIL))
  {
    hide *;
    NotARule(c);
    RuleBlocksRuntime(t, who, c);
    RuleBreaksAuth(t, who, c);
  }

  lemma RuleBlocksRuntime(t: Trace, who: Inputs, c: Code)
    requires c != CLIENT_NOT_ENROLLED
    ensures RuntimeBlocker(Base(t, who, c, true)) <==> c in BLOCK_RUNTIME || (c == SSSD_CONFIG_INVALID && Is(t, SssdService, FAIL))
  {
    hide HasFixedServer, SrvBehindKdc, Is;
  }

  lemma RuleBreaksAuth(t: Trace, who: Inputs, c: Code)
    requires c != CLIENT_NOT_ENROLLED
    ensures BreaksAuth(Base(t, who, c, true)) <==> c in BREAK_AUTH || SrvNeeded(t, who, c)
  {
    hide HasFixedServer, SrvBehindKdc, Is;
  }

  lemma NotARule(c: Code)
    requires c in RULES
    ensures c != CLIENT_NOT_ENROLLED
  {
  }

  /** What a verdict asks of a diagnosis does not depend on its cause, its kind or its role, and holds of a missing
      enrollment. */
  ghost predicate IsBlocking(blocks: Diagnosis -> bool) {
    && (forall d: Diagnosis, c, k, r :: blocks(d.(relatedTo := c, kind := k, role := r)) == blocks(d))
    && blocks(Cause(CLIENT_NOT_ENROLLED, ENROLLMENT, true, true))
  }

  lemma BlockersShow(t: Trace, who: Inputs, blocks: Diagnosis -> bool)
    requires IsBlocking(blocks)
    ensures (exists d :: d in Report(t, who) && blocks(d)) <==>
              NotEnrolled(t) || exists c :: c in RULES && When(t, who, c) && blocks(Base(t, who, c, true))
  {
    hide Report, When, Base, RULES, Added, IsBlocking;
    BlockersFinished(t, who, blocks);
    BlockersAdded(t, who, blocks);
  }

  lemma BlocksAlike(blocks: Diagnosis -> bool, d: Diagnosis, c: Option<Code>, k: Option<Kind>, r: Option<Role>)
    requires IsBlocking(blocks)
    ensures blocks(d.(relatedTo := c, kind := k, role := r)) == blocks(d)
  {
  }

  lemma BlockersFinished(t: Trace, who: Inputs, blocks: Diagnosis -> bool)
    requires IsBlocking(blocks)
    ensures (exists d :: d in Report(t, who) && blocks(d)) <==> exists d :: d in Added(t, who) && blocks(d)
  {
    hide Added, RoleOf, Labelled, SortBy, IsBlocking;
    var ds, fs := Added(t, who), Report(t, who);
    NothingIsCleared(t, who);
    if d :| d in fs && blocks(d) {
      var i := FinishedFrom(ds, fs, d);
      BlocksAlike(blocks, ds[i], d.relatedTo, d.kind, d.role);
      assert ds[i] in ds && blocks(ds[i]);
    }
    if d :| d in ds && blocks(d) {
      var i :| 0 <= i < |ds| && ds[i] == d;
      FinishedTo(ds, fs, i);
      BlocksAlike(blocks, d, d.relatedTo, d.kind, Some(RoleOf(ds, i)));
      assert blocks(ds[i].(role := Some(RoleOf(ds, i))));
    }
  }

  lemma BlockersAdded(t: Trace, who: Inputs, blocks: Diagnosis -> bool)
    requires IsBlocking(blocks)
    ensures (exists d :: d in Added(t, who) && blocks(d)) <==>
              NotEnrolled(t) || exists c :: c in RULES && When(t, who, c) && blocks(Base(t, who, c, true))
  {
    hide When, Base, RULES, CauseOf, KindOf, Listed;
    if NotEnrolled(t) {
      assert Added(t, who)[0] in Added(t, who) && blocks(Added(t, who)[0]);
    } else {
      if d :| d in Added(t, who) && blocks(d) {
        ListedMembers(t, who, RULES, d);
        var c :| c in RULES && When(t, who, c) && Shape(t, who, c) == d;
        BlocksAlike(blocks, Base(t, who, c, true), d.relatedTo, d.kind, None);
        assert blocks(Base(t, who, c, true));
      }
      if c :| c in RULES && When(t, who, c) && blocks(Base(t, who, c, true)) {
        ListedMembers(t, who, RULES, Shape(t, who, c));
        BlocksAlike(blocks, Base(t, who, c, true), CauseOf(t, who, c), KindOf(t, who, c), None);
        assert blocks(Shape(t, who, c));
      }
    }
  }

  datatype Status = HEALTHY | HEALTHY_WITH_WARNINGS | PROBLEM_FOUND | NOT_FULLY_VERIFIED

  /** What a run has to show: the diagnoses, or only that the evidence could not be interpreted. */
  datatype Result = Unusable | Diagnosed(ds: seq<Diagnosis>)

  function StatusOfRun(result: Result, complete: bool): Status {
    match result
    case Unusable => NOT_FULLY_VERIFIED
    case Diagnosed(ds) => StatusOf(ds, complete)
  }

  function StatusOf(ds: seq<Diagnosis>, complete: bool): Status {
    if exists d :: d in ds && (d.fails || d.role in {Some(UNDIAGNOSED), Some(CONTRADICTING)}) then PROBLEM_FOUND
    else if !complete then NOT_FULLY_VERIFIED
    else if ds != [] then HEALTHY_WITH_WARNINGS
    else HEALTHY
  }

  lemma OnlyFailuresAreSpecial(t: Trace, who: Inputs, c: Code)
    ensures KindOf(t, who, c).Some? ==> Base(t, who, c, true).fails
  {
    hide UpstreamOf, DnsFailure, ServerFailure, SrvBehindKdc, CauseOf;
  }

  /** What a run concludes: nothing, if a rule met evidence of an unexpected type. */
  function ResultOf(t: Trace, who: Inputs, unusable: bool): Result {
    if unusable then Unusable else Diagnosed(Report(t, who))
  }

  /** The status says what the trace says: healthy when no rule applies and nothing is missing, a problem when a rule of
      severity FAIL applies, not fully verified when the evidence could not be used or does not suffice to say more. */
  lemma StatusIsExact(t: Trace, who: Inputs, unusable: bool, complete: bool)
    ensures
      var status, fails := StatusOfRun(ResultOf(t, who, unusable), complete), exists d :: d in Added(t, who) && d.fails;
      && (status == HEALTHY <==> !unusable && Added(t, who) == [] && complete)
      && (status == PROBLEM_FOUND <==> !unusable && fails)
      && (status == NOT_FULLY_VERIFIED <==> unusable || (!fails && !complete))
  {
    hide Added, RoleOf;
    NothingIsCleared(t, who);
    forall i | 0 <= i < |Added(t, who)| && RoleOf(Added(t, who), i) in {UNDIAGNOSED, CONTRADICTING}
      ensures Added(t, who)[i].fails
    {
      SpecialRolesFail(t, who, Added(t, who), i);
    }
    FinishedStatus(Added(t, who), Report(t, who), complete);
  }

  lemma FinishedStatus(ds: seq<Diagnosis>, fs: seq<Diagnosis>, complete: bool)
    requires fs == SortBy(Labelled(ds), BY_ROLE)
    requires forall i :: 0 <= i < |ds| && RoleOf(ds, i) in {UNDIAGNOSED, CONTRADICTING} ==> ds[i].fails
    ensures StatusOf(fs, complete) == HEALTHY <==> ds == [] && complete
    ensures StatusOf(fs, complete) == PROBLEM_FOUND <==> exists d :: d in ds && d.fails
  {
    hide RoleOf, SortBy, Labelled;
    if d :| d in ds && d.fails {
      var i :| 0 <= i < |ds| && ds[i] == d;
      FinishedTo(ds, fs, i);
    }
    if d :| d in fs && (d.fails || d.role in {Some(UNDIAGNOSED), Some(CONTRADICTING)}) {
      var i := FinishedFrom(ds, fs, d);
      assert ds[i].fails && ds[i] in ds;
    }
    if ds != [] { FinishedTo(ds, fs, 0); }
    if fs != [] { var i := FinishedFrom(ds, fs, fs[0]); }
  }

  lemma SpecialRolesFail(t: Trace, who: Inputs, ds: seq<Diagnosis>, i: nat)
    requires ds == Added(t, who) && i < |ds|
    ensures RoleOf(ds, i) in {UNDIAGNOSED, CONTRADICTING} ==> ds[i].fails
  {
    hide When, CauseOf, KindOf, Base, Listed, RULES, IsFirstCause;
    if !NotEnrolled(t) {
      ListedMembers(t, who, RULES, ds[i]);
      var c :| c in RULES && When(t, who, c) && Shape(t, who, c) == ds[i];
      OnlyFailuresAreSpecial(t, who, c);
    }
  }

  /** In every report SSSD being offline is blamed on something else exactly when a failure in DNS, network, TLS, time, keytab,
      Kerberos or enrollment is reported. */
  lemma SssdIsBlamedLast(t: Trace, who: Inputs, d: Diagnosis)
    requires d in Report(t, who) && d.code == SSSD_OFFLINE
    ensures d.role == Some(RELATED) <==> exists e :: e in Report(t, who) && e.fails && IsUpstream(e.capability)
  {
    hide Added, RoleOf, Labelled, SortBy, UpstreamOf, IsUpstream, Shape, Report, Cleared;
    var ds, fs := Added(t, who), Report(t, who);
    ReportIs(t, who);
    var i := FinishedFrom(ds, fs, d);
    OfflineAdded(t, who, ds[i]);
    OfflineRole(t, who, ds, i);
    if e :| e in fs && e.fails && IsUpstream(e.capability) {
      var j := FinishedFrom(ds, fs, e);
      assert ds[j] in ds && ds[j].fails && IsUpstream(ds[j].capability);
      UpstreamAdded(t, who);
    }
    if UpstreamOf(t, who).Some? {
      UpstreamAdded(t, who);
      var e :| e in ds && e.fails && IsUpstream(e.capability);
      var j :| 0 <= j < |ds| && ds[j] == e;
      FinishedTo(ds, fs, j);
    }
  }

  /** The steps whose failures are upstream of SSSD. */
  const UPSTREAM_STEPS: set<Step> :=
    {Enroll, DnsServer, DnsSrvLdap, DnsSrvKerberos, NetHttps, NetLdap, TlsTrust, TimeServer, HostKeytab, Krb}

  /** SSSD being offline is its own cause whenever no upstream step has failed, even if none of them was answered or run. */
  lemma SssdIsBlamedUnchecked(t: Trace, who: Inputs)
    requires Is(t, SssdDomain, FAIL) && forall s :: s in UPSTREAM_STEPS ==> !Is(t, s, FAIL)
    ensures exists d :: d in Report(t, who) && d.code == SSSD_OFFLINE && d.role != Some(RELATED)
  {
    hide Added, RoleOf, Labelled, SortBy, UpstreamOf, Shape, Report, Cleared, When, RULES, BEFORE_OFFLINE, Base;
    var ds, fs := Added(t, who), Report(t, who);
    ReportIs(t, who);
    assert !NotEnrolled(t);
    OfflineIsListed(t, who);
    var i :| 0 <= i < |ds| && ds[i] == Shape(t, who, SSSD_OFFLINE);
    NoUpstream(t, who);
    OfflineRole(t, who, ds, i);
    FinishedTo(ds, fs, i);
    assert ds[i].(role := Some(RoleOf(ds, i))).code == SSSD_OFFLINE by { OfflineCode(t, who); }
  }

  lemma OfflineCode(t: Trace, who: Inputs)
    ensures Shape(t, who, SSSD_OFFLINE).code == SSSD_OFFLINE
  {
    hide CauseOf, KindOf;
  }

  lemma OfflineIsListed(t: Trace, who: Inputs)
    requires !NotEnrolled(t) && Is(t, SssdDomain, FAIL)
    ensures Shape(t, who, SSSD_OFFLINE) in Added(t, who)
  {
    hide Shape, Listed, BEFORE_OFFLINE;
    assert When(t, who, SSSD_OFFLINE) && RULES[|BEFORE_OFFLINE|] == SSSD_OFFLINE;
    assert SSSD_OFFLINE in RULES;
    ListedMembers(t, who, RULES, Shape(t, who, SSSD_OFFLINE));
  }

  lemma NoUpstream(t: Trace, who: Inputs)
    requires forall s :: s in UPSTREAM_STEPS ==> !Is(t, s, FAIL)
    ensures UpstreamOf(t, who).None?
  {
    hide BEFORE_OFFLINE, Upstream;
    UpstreamFails(t, who, BEFORE_OFFLINE);
    if UpstreamOf(t, who).Some? { UpstreamStepFails(t, who, UpstreamOf(t, who).value); }
  }

  /** A failure upstream of SSSD is the failure of one of these steps. */
  lemma UpstreamStepFails(t: Trace, who: Inputs, c: Code)
    requires c in BEFORE_OFFLINE && IsUpstreamFailure(t, who, c)
    ensures exists s :: s in UPSTREAM_STEPS && Is(t, s, FAIL)
  {
    hide HasFixedServer, SrvBehindKdc, AnySrvKind, Is;
    assert forall s :: Is(t, s, FAIL) && s in UPSTREAM_STEPS ==> exists u :: u in UPSTREAM_STEPS && Is(t, u, FAIL);
  }

  lemma ReportIs(t: Trace, who: Inputs)
    ensures Report(t, who) == SortBy(Labelled(Added(t, who)), BY_ROLE)
  {
    hide Added, SortBy, Labelled;
    NothingIsCleared(t, who);
  }

  lemma OfflineAdded(t: Trace, who: Inputs, d: Diagnosis)
    requires d in Added(t, who) && d.code == SSSD_OFFLINE
    ensures !NotEnrolled(t) && d == Shape(t, who, SSSD_OFFLINE)
  {
    hide When, Base, CauseOf, KindOf;
    if !NotEnrolled(t) { SameCode(t, who, d, SSSD_OFFLINE); }
  }

  lemma OfflineRole(t: Trace, who: Inputs, ds: seq<Diagnosis>, i: nat)
    requires i < |ds| && ds[i] == Shape(t, who, SSSD_OFFLINE)
    ensures RoleOf(ds, i) == RELATED <==> UpstreamOf(t, who).Some?
  {
    hide UpstreamOf, IsFirstCause;
    OfflineKind(t, who);
  }

  lemma UpstreamAdded(t: Trace, who: Inputs)
    requires !NotEnrolled(t)
    ensures UpstreamOf(t, who).Some? <==> exists e :: e in Added(t, who) && e.fails && IsUpstream(e.capability)
  {
    hide When, Base, RULES, CauseOf, KindOf, Listed, BEFORE_OFFLINE, IsUpstream;
    UpstreamFails(t, who, BEFORE_OFFLINE);
    if e :| e in Added(t, who) && e.fails && IsUpstream(e.capability) {
      ListedMembers(t, who, RULES, e);
      var c :| c in RULES && When(t, who, c) && Shape(t, who, c) == e;
      UpstreamIsEarly(t, who, c);
      assert IsUpstreamFailure(t, who, c);
    }
    if UpstreamOf(t, who).Some? {
      var c := UpstreamOf(t, who).value;
      EarlyIsRule(c);
      ListedMembers(t, who, RULES, Shape(t, who, c));
      assert Shape(t, who, c) in Added(t, who);
    }
  }

  lemma UpstreamIsEarly(t: Trace, who: Inputs, c: Code)
    requires c in RULES && IsUpstream(Base(t, who, c, true).capability)
    ensures c in BEFORE_OFFLINE
  {
    hide Base;
    if c !in BEFORE_OFFLINE {
      LaterRules(c);
      LaterIsNoUpstream(t, who, c);
    }
  }

  lemma LaterRules(c: Code)
    requires c in RULES && c !in BEFORE_OFFLINE
    ensures c == SSSD_OFFLINE || c in IDENTITY_RULES || c in LOGIN_RULES || c in ACCOUNT_RULES
  {
    hide BEFORE_OFFLINE, IDENTITY_RULES, LOGIN_RULES, ACCOUNT_RULES;
  }

  lemma LaterIsNoUpstream(t: Trace, who: Inputs, c: Code)
    requires c == SSSD_OFFLINE || c in IDENTITY_RULES || c in LOGIN_RULES || c in ACCOUNT_RULES
    ensures !IsUpstream(Base(t, who, c, true).capability)
  {
    hide HasFixedServer, SrvBehindKdc, Is;
  }

  lemma EarlyIsRule(c: Code)
    requires c in BEFORE_OFFLINE
    ensures c in RULES
  {
    assert RULES == BEFORE_OFFLINE + ([SSSD_OFFLINE] + IDENTITY_RULES + LOGIN_RULES + ACCOUNT_RULES);
  }

  /** The cache is considered when IPA has the user and SSSD is online, and in one more case: SSSD is down and its log
      reports the cache database. */
  lemma CacheIsConsidered(t: Trace, who: Inputs)
    requires !NotEnrolled(t)
    ensures (exists d :: d in Added(t, who) && d.capability == CACHE)
       <==> || (KnownButUnresolved(t, who) && !ExpectsQualified(t) && (CacheDbBad(t) || CacheEntryHeld(t)))
            || (Is(t, SssdService, FAIL) && Signals(t, CacheDb) && !Is(t, SssdConfig, FAIL))
  {
    hide When, KindOf, CauseOf, RULES, Base;
    if d :| d in Added(t, who) && d.capability == CACHE {
      ListedMembers(t, who, RULES, d);
      var c :| c in RULES && When(t, who, c) && Shape(t, who, c) == d;
      CacheCodes(t, who, c);
    }
    forall c | c in {SSSD_CACHE_DB_ERROR, SSSD_CACHE_DB_LATER, SSSD_CACHE_INCONSISTENT} && When(t, who, c)
      ensures exists d :: d in Added(t, who) && d.capability == CACHE
    {
      CacheRules(c);
      CacheCodes(t, who, c);
      ListedMembers(t, who, RULES, Shape(t, who, c));
      assert Shape(t, who, c) in Added(t, who);
    }
    CacheWhen(t, who);
  }

  lemma CacheWhen(t: Trace, who: Inputs)
    ensures (exists c :: c in {SSSD_CACHE_DB_ERROR, SSSD_CACHE_DB_LATER, SSSD_CACHE_INCONSISTENT} && When(t, who, c))
       <==> || (KnownButUnresolved(t, who) && !ExpectsQualified(t) && (CacheDbBad(t) || CacheEntryHeld(t)))
            || (Is(t, SssdService, FAIL) && Signals(t, CacheDb) && !Is(t, SssdConfig, FAIL))
  {
    hide CacheDbBad, CacheEntryHeld, KnownButUnresolved, Signals, Is, ExpectsQualified;
    assert When(t, who, SSSD_CACHE_DB_ERROR) || When(t, who, SSSD_CACHE_DB_LATER) || When(t, who, SSSD_CACHE_INCONSISTENT)
      <==> exists c :: c in {SSSD_CACHE_DB_ERROR, SSSD_CACHE_DB_LATER, SSSD_CACHE_INCONSISTENT} && When(t, who, c);
  }

  /** SSSD is down and its log reports the cache: nothing else is known, yet the cache is considered. */
  lemma CacheIsConsideredWhileDown(who: Inputs)
    ensures
      var t: Trace := map[SssdService := Record(FAIL, NO_FACTS), SssdLogs := Record(PASS, NO_FACTS.(signals := [CacheDb]))];
      !KnownButUnresolved(t, who) && exists d :: d in Added(t, who) && d.capability == CACHE
  {
    hide Added;
    var t: Trace := map[SssdService := Record(FAIL, NO_FACTS), SssdLogs := Record(PASS, NO_FACTS.(signals := [CacheDb]))];
    CacheIsConsidered(t, who);
    assert Signals(t, CacheDb);
  }

  lemma CacheCodes(t: Trace, who: Inputs, c: Code)
    ensures Base(t, who, c, true).capability == CACHE
       <==> c in {SSSD_CACHE_DB_ERROR, SSSD_CACHE_DB_LATER, SSSD_CACHE_INCONSISTENT}
  {
  }

  lemma CacheRules(c: Code)
    requires c in {SSSD_CACHE_DB_ERROR, SSSD_CACHE_DB_LATER, SSSD_CACHE_INCONSISTENT}
    ensures c in RULES
  {
  }
}
