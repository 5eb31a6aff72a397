/** The safety net: an ERROR or CRITICAL finding no rule claimed must never vanish; and the whole server run. */
module Unexplained {
  import opened Common
  import opened Engine
  import opened Correlate

  const MAX_GROUPED: nat := 6

  /** Severe enough for the safety net, and not claimed: an id several findings share claims none of them. */
  predicate IsUnclaimed(fs: seq<Finding>, packs: seq<Diagnosis>, f: Finding) {
    f.severity.Rank() >= ERROR.Rank() && (f.id !in ClaimedIds(packs) || IdCount(fs, f.id) > 1)
  }

  /** ... that is, an error or worse that no diagnosis cites, for or against, or whose id another finding shares. */
  lemma UnclaimedExactly(fs: seq<Finding>, packs: seq<Diagnosis>, f: Finding)
    requires f in fs
    ensures IsUnclaimed(fs, packs, f) <==>
              && f.severity in {ERROR, UNKNOWN, CRITICAL}
              && (|| (forall d, r :: d in packs && r in d.evidenceFor + d.evidenceAgainst ==> r.id != f.id)
                  || exists i, j :: 0 <= i < j < |fs| && fs[i].id == f.id && fs[j].id == f.id)
  {
    IdsCounted(fs, f.id);
    if d :| d in packs && (Engine.Cites(d, f.id) || CitesAgainst(d, f.id)) {
      var r :| r in d.evidenceFor + d.evidenceAgainst && r.id == f.id;
    }
    if d, r :| d in packs && r in d.evidenceFor + d.evidenceAgainst && r.id == f.id {
      assert Engine.Cites(d, f.id) || CitesAgainst(d, f.id);
    }
  }

  predicate IsCoreService(name: string) {
    name in {"dirsrv", "krb5kdc", "kadmin", "httpd", "named", "named-pkcs11", "pki-tomcatd", "pki_tomcatd"}
  }

  function Refs(fs: seq<Finding>): (r: seq<EvidenceRef>)
    ensures |r| == |fs| && forall i :: 0 <= i < |fs| ==> r[i] == EvidenceRef(fs[i].id, true)
  {
    seq(|fs|, i requires 0 <= i < |fs| => EvidenceRef(fs[i].id, true))
  }

  /** The worst severity, the first one among equals. */
  function Worst(fs: seq<Finding>): (s: Severity)
    requires fs != []
    ensures forall f :: f in fs ==> f.severity.Rank() <= s.Rank()
    ensures exists f :: f in fs && f.severity == s
  {
    var last := fs[|fs| - 1];
    assert fs == fs[..|fs| - 1] + [last];
    if |fs| == 1 then last.severity
    else
      var before := Worst(fs[..|fs| - 1]);
      if last.severity.Rank() > before.Rank() then last.severity else before
  }

  const SERVICE_UPSTREAMS: seq<Pack> := [DirectoryServer, Kerberos, Dns, Certificates]

  /** A service check states that a required service is not running. */
  function ServiceDiagnosis(f: Finding, service: string): Diagnosis {
    Diagnosis(DiagnosisId(Healthcheck, STOPPED + service), DIAGNOSED, HIGH, 1,
              if IsCoreService(BeforeAt(service)) then CRITICAL else ERROR, None,
              [EvidenceRef(f.id, true)], [], [], [], true, INFORMATIONAL)
  }

  /** One honest unknown for a group of findings, citing at most MAX_GROUPED of them. */
  function Grouped(id: DiagnosisId, fs: seq<Finding>): Diagnosis
    requires fs != []
  {
    Diagnosis(id, UNKNOWN_INSUFFICIENT_EVIDENCE, INSUFFICIENT, 0, Worst(fs), None,
              Refs(if |fs| > MAX_GROUPED then fs[..MAX_GROUPED] else fs), [], SERVICE_UPSTREAMS, [], true, INFORMATIONAL)
  }

  lemma StoppedInjective(a: string, b: string)
    ensures STOPPED + a == STOPPED + b ==> a == b
    ensures STOPPED + a != CHECK_FAILED.rule && STOPPED + a != UNEXPLAINED.rule
    ensures !StartsWith(UNEXPLAINED.rule, STOPPED) && !StartsWith(CHECK_FAILED.rule, STOPPED)
  {
    assert (STOPPED + a)[|STOPPED|..] == a && (STOPPED + b)[|STOPPED|..] == b;
    assert (STOPPED + a)[0] == 's' && CHECK_FAILED.rule[0] == 'h' && UNEXPLAINED.rule[0] == 'u';
  }

  function ServiceId(service: string): DiagnosisId { DiagnosisId(Healthcheck, STOPPED + service) }

  /** How the safety net shows a finding: a crashed check in one group, a stopped service by its own diagnosis, anything
      else in another group. */
  function NetId(f: Finding): DiagnosisId {
    if f.crashed then CHECK_FAILED else if f.stopped.Some? then ServiceId(f.stopped.value) else UNEXPLAINED
  }

  predicate IsShownBy(f: Finding, d: Diagnosis) { d.id == NetId(f) }

  /** The unclaimed findings, among the first `n`, that a diagnosis of this id shows. */
  function Mine(fs: seq<Finding>, packs: seq<Diagnosis>, id: DiagnosisId, n: nat): seq<Finding>
    requires n <= |fs|
  {
    if n == 0 then []
    else
      Mine(fs, packs, id, n - 1) + if IsUnclaimed(fs, packs, fs[n - 1]) && NetId(fs[n - 1]) == id then [fs[n - 1]] else []
  }

  lemma {:induction false} MineAre(fs: seq<Finding>, packs: seq<Diagnosis>, id: DiagnosisId, n: nat)
    requires n <= |fs|
    ensures forall f {:trigger f in Mine(fs, packs, id, n)} :: f in Mine(fs, packs, id, n) <==>
              f in fs[..n] && IsUnclaimed(fs, packs, f) && NetId(f) == id
  {
    hide IsUnclaimed, NetId;
    if n > 0 {
      MineAre(fs, packs, id, n - 1);
      assert fs[..n] == fs[..n - 1] + [fs[n - 1]];
    }
  }

  /** The net after a prefix of the findings: `firsts` are the findings that gave each stopped service its diagnosis. */
  ghost predicate Sorted(fs: seq<Finding>, packs: seq<Diagnosis>, n: nat, firsts: seq<Finding>, result: seq<Diagnosis>,
                         seen: set<string>, others: seq<Finding>, crashed: seq<Finding>)
  {
    && n <= |fs| && |firsts| == |result|
    && others == Mine(fs, packs, UNEXPLAINED, n) && crashed == Mine(fs, packs, CHECK_FAILED, n)
    && (forall s :: s in seen <==> Mine(fs, packs, ServiceId(s), n) != [])
    && (forall j :: 0 <= j < |firsts| ==> GivesService(fs, packs, n, firsts[j], result[j]))
    && (forall j, k :: 0 <= j < k < |firsts| ==> firsts[j].stopped != firsts[k].stopped)
    && (forall s :: s in seen ==> exists j :: 0 <= j < |firsts| && firsts[j].stopped == Some(s))
  }

  /** The finding is the first unclaimed one of its stopped service, and has given the service its diagnosis. */
  ghost predicate GivesService(fs: seq<Finding>, packs: seq<Diagnosis>, n: nat, f: Finding, d: Diagnosis)
    requires n <= |fs|
  {
    && f.stopped.Some? && d == ServiceDiagnosis(f, f.stopped.value)
    && [f] <= Mine(fs, packs, ServiceId(f.stopped.value), n)
  }

  lemma SortedStep(fs: seq<Finding>, packs: seq<Diagnosis>, n: nat, firsts: seq<Finding>, result: seq<Diagnosis>,
                   seen: set<string>, others: seq<Finding>, crashed: seq<Finding>)
    requires Sorted(fs, packs, n, firsts, result, seen, others, crashed) && n < |fs|
    ensures var f := fs[n];
            if !IsUnclaimed(fs, packs, f) then Sorted(fs, packs, n + 1, firsts, result, seen, others, crashed)
            else if f.crashed then Sorted(fs, packs, n + 1, firsts, result, seen, others, crashed + [f])
            else if f.stopped.None? then Sorted(fs, packs, n + 1, firsts, result, seen, others + [f], crashed)
            else if f.stopped.value in seen then Sorted(fs, packs, n + 1, firsts, result, seen, others, crashed)
            else Sorted(fs, packs, n + 1, firsts + [f], result + [ServiceDiagnosis(f, f.stopped.value)],
                        seen + {f.stopped.value}, others, crashed)
  {
    hide IsUnclaimed, ServiceDiagnosis, Mine, NetId, ServiceId;
    var f := fs[n];
    NetIdIs(f);
    MineStep(fs, packs, UNEXPLAINED, n);
    MineStep(fs, packs, CHECK_FAILED, n);
    forall s ensures Mine(fs, packs, ServiceId(s), n + 1)
                  == Mine(fs, packs, ServiceId(s), n) + if IsUnclaimed(fs, packs, f) && NetId(f) == ServiceId(s) then [f] else []
    {
      MineStep(fs, packs, ServiceId(s), n);
    }
    if IsUnclaimed(fs, packs, f) && !f.crashed && f.stopped.Some? && f.stopped.value !in seen {
      NewService(fs, packs, n, firsts, result, seen, f);
    }
  }

  lemma MineStep(fs: seq<Finding>, packs: seq<Diagnosis>, id: DiagnosisId, n: nat)
    requires n < |fs|
    ensures Mine(fs, packs, id, n + 1)
         == Mine(fs, packs, id, n) + if IsUnclaimed(fs, packs, fs[n]) && NetId(fs[n]) == id then [fs[n]] else []
  {
  }

  /** The three ways of being shown exclude each other. */
  lemma NetIdIs(f: Finding)
    ensures NetId(f) == UNEXPLAINED <==> !f.crashed && f.stopped.None?
    ensures NetId(f) == CHECK_FAILED <==> f.crashed
    ensures forall s {:trigger ServiceId(s)} :: NetId(f) == ServiceId(s) <==> !f.crashed && f.stopped == Some(s)
  {
    forall s, t ensures ServiceId(s) == ServiceId(t) ==> s == t { StoppedInjective(s, t); }
    forall s ensures ServiceId(s) != CHECK_FAILED && ServiceId(s) != UNEXPLAINED { StoppedInjective(s, ""); }
  }

  lemma NewService(fs: seq<Finding>, packs: seq<Diagnosis>, n: nat, firsts: seq<Finding>, result: seq<Diagnosis>,
                   seen: set<string>, f: Finding)
    requires f.stopped.Some? && forall s :: s in seen ==> exists j :: 0 <= j < |firsts| && firsts[j].stopped == Some(s)
    ensures forall s :: s in seen + {f.stopped.value} ==>
              exists j :: 0 <= j < |firsts + [f]| && (firsts + [f])[j].stopped == Some(s)
  {
    var more := firsts + [f];
    forall s | s in seen + {f.stopped.value} ensures exists j :: 0 <= j < |more| && more[j].stopped == Some(s) {
      if s == f.stopped.value {
        assert more[|firsts|] == f;
      } else {
        var j :| 0 <= j < |firsts| && firsts[j].stopped == Some(s);
        assert more[j] == firsts[j];
      }
    }
  }

  ghost predicate ShownIn(result: seq<Diagnosis>, f: Finding) {
    exists i :: 0 <= i < |result| && IsShownBy(f, result[i])
  }

  predicate IsGroup(d: Diagnosis) { d.id == UNEXPLAINED || d.id == CHECK_FAILED }

  /** The diagnosis cites unclaimed findings that it shows: a group, whose cause is unknown, the first MAX_GROUPED of them,
      and it has the worst severity of them all, the first one of equals; a stopped service, which is established, the first
      one, and a core service makes it critical. */
  ghost predicate Cites(fs: seq<Finding>, packs: seq<Diagnosis>, d: Diagnosis) {
    var mine := Mine(fs, packs, d.id, |fs|);
    && mine != [] && d.explainsDownstream && d.evidenceSeverity == None && d.evidenceAgainst == [] && d.notCausedBy == []
    && d.evidenceFor == Refs(mine[..if !IsGroup(d) then 1 else if |mine| > MAX_GROUPED then MAX_GROUPED else |mine|])
    && if IsGroup(d) then
         && d.status == UNKNOWN_INSUFFICIENT_EVIDENCE && d.confidence == INSUFFICIENT && d.corroborating == 0
         && d.upstream == [DirectoryServer, Kerberos, Dns, Certificates]
         && (forall f :: f in mine ==> f.severity.Rank() <= d.severity.Rank())
         && exists i :: IsFirstOf(mine, i, d.severity)
       else
         && d.status == DIAGNOSED && d.confidence == HIGH && d.corroborating == 1 && d.upstream == []
         && mine[0].stopped.Some?
         && d.severity == (if BeforeAt(mine[0].stopped.value)
                              in {"dirsrv", "krb5kdc", "kadmin", "httpd", "named", "named-pkcs11", "pki-tomcatd", "pki_tomcatd"}
                           then CRITICAL else ERROR)
  }

  /** The first finding of this rank has this severity. */
  ghost predicate IsFirstOf(mine: seq<Finding>, i: nat, s: Severity) {
    i < |mine| && mine[i].severity == s && forall j :: 0 <= j < i ==> mine[j].severity.Rank() < s.Rank()
  }

  lemma {:induction false} WorstIsFirst(mine: seq<Finding>)
    requires mine != []
    ensures exists i :: IsFirstOf(mine, i, Worst(mine))
  {
    hide Severity.Rank, IsFirstOf;
    var n := |mine| - 1;
    if n == 0 {
      FirstHere(mine, 0, Worst(mine));
    } else {
      var front := mine[..n];
      WorstIsFirst(front);
      if mine[n].severity.Rank() > Worst(front).Rank() {
        assert Worst(mine) == mine[n].severity;
        FirstHere(mine, n, mine[n].severity);
      } else {
        var i: nat :| IsFirstOf(front, i, Worst(front));
        assert Worst(mine) == Worst(front);
        FirstStill(front, mine, i, Worst(front));
      }
    }
  }

  lemma FirstHere(mine: seq<Finding>, i: nat, s: Severity)
    requires i < |mine| && mine[i].severity == s
    requires i == 0 || (s.Rank() > Worst(mine[..i]).Rank())
    ensures IsFirstOf(mine, i, s)
  {
    hide Severity.Rank;
    forall j | 0 <= j < i ensures mine[j].severity.Rank() < s.Rank() { assert mine[j] in mine[..i]; }
  }

  lemma FirstStill(front: seq<Finding>, mine: seq<Finding>, i: nat, s: Severity)
    requires front <= mine && IsFirstOf(front, i, s)
    ensures IsFirstOf(mine, i, s)
  {
  }

  /** The diagnosis shows and cites unclaimed findings, at ERROR or worse, and fits the documented order. */
  ghost predicate ShowsFinding(fs: seq<Finding>, packs: seq<Diagnosis>, d: Diagnosis) {
    && (exists f :: f in fs && IsUnclaimed(fs, packs, f) && IsShownBy(f, d))
    && Cites(fs, packs, d) && d.severity.Rank() >= ERROR.Rank() && d.evidenceFor != [] && RespectsOrder(d)
  }

  /** The safety net's promise: every unclaimed finding is shown, every diagnosis shows some and cites them, no id occurs
      twice. */
  ghost predicate Caught(fs: seq<Finding>, packs: seq<Diagnosis>, result: seq<Diagnosis>) {
    && (forall f :: f in fs && IsUnclaimed(fs, packs, f) ==> ShownIn(result, f))
    && (forall i :: 0 <= i < |result| ==> ShowsFinding(fs, packs, result[i]))
    && (forall i, j :: 0 <= i < j < |result| ==> result[i].id != result[j].id)
  }

  lemma ServiceCaught(fs: seq<Finding>, packs: seq<Diagnosis>, f: Finding, d: Diagnosis)
    requires GivesService(fs, packs, |fs|, f, d)
    ensures ShowsFinding(fs, packs, d)
  {
    hide IsUnclaimed, CausalRank, Mine;
    StoppedInjective(f.stopped.value, "");
    MineAre(fs, packs, d.id, |fs|);
    var mine := Mine(fs, packs, d.id, |fs|);
    assert mine[0] == f && mine[..1] == [f] && f in mine && fs[..|fs|] == fs;
    assert Refs(mine[..1]) == [EvidenceRef(f.id, true)];
    assert IsShownBy(f, d);
  }

  lemma NetRank(id: DiagnosisId)
    requires id == UNEXPLAINED || id == CHECK_FAILED
    ensures CausalRank(id) == 10
  {
    StoppedInjective("", "");
  }

  lemma GroupCaught(fs: seq<Finding>, packs: seq<Diagnosis>, group: seq<Finding>, id: DiagnosisId)
    requires group != [] && (id == UNEXPLAINED || id == CHECK_FAILED) && group == Mine(fs, packs, id, |fs|)
    ensures ShowsFinding(fs, packs, Grouped(id, group))
  {
    hide RespectsOrder, Mine, NetId, ClaimedIds, IdCount, Cites, Refs;
    MineAre(fs, packs, id, |fs|);
    GroupCites(fs, packs, group, id);
    GroupInOrder(group, id);
    assert fs[..|fs|] == fs && group[0] in group;
    assert IsShownBy(group[0], Grouped(id, group));
    assert |Refs(group[..1])| == 1;
  }

  lemma GroupInOrder(group: seq<Finding>, id: DiagnosisId)
    requires group != [] && (id == UNEXPLAINED || id == CHECK_FAILED)
    ensures RespectsOrder(Grouped(id, group))
  {
    hide CausalRank;
    NetRank(id);
  }

  lemma GroupCites(fs: seq<Finding>, packs: seq<Diagnosis>, group: seq<Finding>, id: DiagnosisId)
    requires group != [] && (id == UNEXPLAINED || id == CHECK_FAILED) && group == Mine(fs, packs, id, |fs|)
    ensures Cites(fs, packs, Grouped(id, group))
  {
    hide Mine, Worst, Refs;
    assert group[..|group|] == group;
    WorstIsFirst(group);
  }

  /** The three kinds of diagnoses together keep the promise. */
  lemma NetCatches(fs: seq<Finding>, packs: seq<Diagnosis>, firsts: seq<Finding>, services: seq<Diagnosis>,
                   seen: set<string>, others: seq<Finding>, crashed: seq<Finding>)
    requires Sorted(fs, packs, |fs|, firsts, services, seen, others, crashed)
    ensures Caught(fs, packs, Assemble(services, others, crashed))
  {
    hide IsUnclaimed, ServiceDiagnosis, Grouped, ShowsFinding, IsShownBy, Sorted;
    var result := Assemble(services, others, crashed);
    forall i | 0 <= i < |result| ensures ShowsFinding(fs, packs, result[i]) {
      NetSound(fs, packs, firsts, services, seen, others, crashed, i);
    }
    forall f | f in fs && IsUnclaimed(fs, packs, f) ensures ShownIn(result, f) {
      NetComplete(fs, packs, firsts, services, seen, others, crashed, f);
    }
    NetDistinct(fs, packs, firsts, services, seen, others, crashed);
  }

  function Assemble(services: seq<Diagnosis>, others: seq<Finding>, crashed: seq<Finding>): seq<Diagnosis> {
    services + (if others != [] then [Grouped(UNEXPLAINED, others)] else [])
    + (if crashed != [] then [Grouped(CHECK_FAILED, crashed)] else [])
  }

  lemma NetSound(fs: seq<Finding>, packs: seq<Diagnosis>, firsts: seq<Finding>, services: seq<Diagnosis>,
                 seen: set<string>, others: seq<Finding>, crashed: seq<Finding>, i: nat)
    requires Sorted(fs, packs, |fs|, firsts, services, seen, others, crashed)
    requires i < |Assemble(services, others, crashed)|
    ensures ShowsFinding(fs, packs, Assemble(services, others, crashed)[i])
  {
    hide ShowsFinding, CausalRank, Mine, GivesService, Grouped;
    if i < |services| {
      ServiceCaught(fs, packs, firsts[i], services[i]);
    } else if i == |services| && others != [] {
      GroupCaught(fs, packs, others, UNEXPLAINED);
    } else {
      GroupCaught(fs, packs, crashed, CHECK_FAILED);
    }
  }

  lemma NetComplete(fs: seq<Finding>, packs: seq<Diagnosis>, firsts: seq<Finding>, services: seq<Diagnosis>,
                    seen: set<string>, others: seq<Finding>, crashed: seq<Finding>, f: Finding)
    requires Sorted(fs, packs, |fs|, firsts, services, seen, others, crashed)
    requires f in fs && IsUnclaimed(fs, packs, f)
    ensures ShownIn(Assemble(services, others, crashed), f)
  {
    hide IsUnclaimed, Mine;
    var result := Assemble(services, others, crashed);
    MineAre(fs, packs, NetId(f), |fs|);
    assert fs[..|fs|] == fs && f in Mine(fs, packs, NetId(f), |fs|);
    if f.crashed {
      assert result[|result| - 1].id == CHECK_FAILED;
    } else if f.stopped.Some? {
      assert f.stopped.value in seen;
      var j :| 0 <= j < |firsts| && firsts[j].stopped == f.stopped;
      assert GivesService(fs, packs, |fs|, firsts[j], services[j]) && result[j] == services[j];
    } else {
      assert result[|services|].id == UNEXPLAINED;
    }
  }

  lemma NetDistinct(fs: seq<Finding>, packs: seq<Diagnosis>, firsts: seq<Finding>, services: seq<Diagnosis>,
                    seen: set<string>, others: seq<Finding>, crashed: seq<Finding>)
    requires Sorted(fs, packs, |fs|, firsts, services, seen, others, crashed)
    ensures var r := Assemble(services, others, crashed); forall i, j :: 0 <= i < j < |r| ==> r[i].id != r[j].id
  {
    hide IsUnclaimed, Mine;
    var r := Assemble(services, others, crashed);
    forall i, j | 0 <= i < j < |r| ensures r[i].id != r[j].id {
      if i < |services| {
        assert GivesService(fs, packs, |fs|, firsts[i], services[i]);
        StoppedInjective(firsts[i].stopped.value, if j < |services| then firsts[j].stopped.value else "");
      }
    }
  }

  /** The diagnoses of the safety net. Every unclaimed finding is shown, each stopped service once, and nothing else is
      said. */
  method UnexplainedDiagnoses(fs: seq<Finding>, packs: seq<Diagnosis>) returns (result: seq<Diagnosis>)
    ensures Caught(fs, packs, result)
  {
    hide Sorted, Caught, Grouped, ServiceDiagnosis;
    hide IsUnclaimed;
    result := [];
    var others: seq<Finding>, crashed: seq<Finding>, seen: set<string> := [], [], {};
    ghost var firsts: seq<Finding> := [];
    SortedStart(fs, packs);
    var i := 0;
    while i < |fs|
      invariant 0 <= i <= |fs| && Sorted(fs, packs, i, firsts, result, seen, others, crashed)
    {
      var f := fs[i];
      SortedStep(fs, packs, i, firsts, result, seen, others, crashed);
      i := i + 1;
      if !IsUnclaimed(fs, packs, f) {
        continue;
      }
      if f.crashed {
        crashed := crashed + [f];
      } else if f.stopped.Some? {
        if f.stopped.value !in seen {
          seen := seen + {f.stopped.value};
          result := result + [ServiceDiagnosis(f, f.stopped.value)];
          firsts := firsts + [f];
        }
      } else {
        others := others + [f];
      }
    }
    NetCatches(fs, packs, firsts, result, seen, others, crashed);
    ghost var services := result;
    if others != [] {
      result := result + [Grouped(UNEXPLAINED, others)];
    }
    if crashed != [] {
      result := result + [Grouped(CHECK_FAILED, crashed)];
    }
    assert result == Assemble(services, others, crashed);
  }

  lemma SortedStart(fs: seq<Finding>, packs: seq<Diagnosis>)
    ensures Sorted(fs, packs, 0, [], [], {}, [], [])
  {
  }

  // ------------------------------------------------------------------ the whole run

  /** The findings the rules may read: a crashed check says nothing about the system. */
  function Answered(fs: seq<Finding>): (r: seq<Finding>)
    ensures forall f {:trigger f in r} :: f in r <==> f in fs && !f.crashed
  {
    if fs == [] then []
    else
      assert fs == [fs[0]] + fs[1..];
      (if !fs[0].crashed then [fs[0]] else []) + Answered(fs[1..])
  }

  /** What the diagnostic packs conclude from the findings they are given. */
  type Packs = seq<Finding> -> seq<Diagnosis>

  /** One server diagnosis: the packs, then the safety net, then the correlation. Whatever the packs conclude, no finding
      fails silently, and HEALTHY means that nothing at all was found. */
  method RunDiagnosis(packs: Packs, sources: PackSources, fs: seq<Finding>, errors: seq<string>, certmongerStarted: bool)
    returns (r: Report, ghost claimed: seq<Diagnosis>, ghost net: seq<Diagnosis>, ghost ds: seq<Diagnosis>, ghost out: seq<Diagnosis>)
    ensures claimed == packs(Answered(fs)) && Caught(fs, claimed, net)
    ensures |ds| == |claimed + net| && forall i :: 0 <= i < |ds| ==> ds[i] == Softened(certmongerStarted, (claimed + net)[i])
    ensures Prioritised(sources, fs, ds, out) && multiset(r.diagnoses) == multiset(out)
    // every finding that is not a success is explained by a positive citation of its own, or listed
    ensures forall f :: f in fs && f.severity != SUCCESS ==> IsExplained(fs, claimed + net, f) || f in r.undiagnosed
    // a severe finding is claimed by a pack, under an id of its own, or shown by the safety net
    ensures forall f :: f in fs && f.severity.Rank() >= ERROR.Rank() ==>
              (f.id in ClaimedIds(claimed) && IdCount(fs, f.id) == 1) || ShownIn(net, f)
    ensures r.overall == HEALTHY <==> claimed == [] && errors == [] && forall f :: f in fs ==> f.severity == SUCCESS
    ensures r.overall == UNKNOWN_STATUS ==> "ipa-healthcheck" in errors
    // under the documented order of the packs' own declarations, every symptom leads to a reported root
    ensures (forall d :: d in claimed ==> RespectsOrder(d)) ==>
              forall i :: 0 <= i < |out| && out[i].priority == RELATED_SYMPTOM ==>
                exists chain :: LeadsToRoot(sources, fs, ds, out, chain) && chain[0] == i
  {
    hide Prioritised, Caught, IsExplained, RespectsOrder, LeadsToRoot, ClaimedIds, OverallOf;
    var found := packs(Answered(fs));
    claimed := found;
    var caught := UnexplainedDiagnoses(fs, found);
    net := caught;
    r, ds, out := BuildReport(sources, fs, errors, certmongerStarted, found + caught);
    SevereShown(fs, claimed, net);
    NetImpliesFinding(fs, claimed, net);
    if forall d :: d in claimed ==> RespectsOrder(d) {
      AllLeadToRoot(sources, fs, certmongerStarted, claimed, net, ds, out);
    }
  }

  lemma SevereShown(fs: seq<Finding>, claimed: seq<Diagnosis>, net: seq<Diagnosis>)
    requires Caught(fs, claimed, net)
    ensures forall f :: f in fs && f.severity.Rank() >= ERROR.Rank() ==>
              (f.id in ClaimedIds(claimed) && IdCount(fs, f.id) == 1) || ShownIn(net, f)
  {
    hide ClaimedIds, IsShownBy, ShowsFinding;
    forall f | f in fs && f.severity.Rank() >= ERROR.Rank() && !ShownIn(net, f)
      ensures f.id in ClaimedIds(claimed) && IdCount(fs, f.id) == 1
    {
      CountsItself(fs, f);
    }
  }

  lemma {:induction false} CountsItself(fs: seq<Finding>, f: Finding)
    requires f in fs
    ensures IdCount(fs, f.id) >= 1
  {
    if fs[0] != f {
      CountsItself(fs[1..], f);
    }
  }

  lemma NetImpliesFinding(fs: seq<Finding>, claimed: seq<Diagnosis>, net: seq<Diagnosis>)
    requires Caught(fs, claimed, net)
    ensures (forall f :: f in fs ==> f.severity == SUCCESS) ==> net == []
  {
    hide IsShownBy, RespectsOrder, Cites;
    if net != [] {
      assert ShowsFinding(fs, claimed, net[0]);
    }
  }

  lemma AllLeadToRoot(sources: PackSources, fs: seq<Finding>, certmongerStarted: bool, claimed: seq<Diagnosis>,
                      net: seq<Diagnosis>, ds: seq<Diagnosis>, out: seq<Diagnosis>)
    requires Caught(fs, claimed, net) && Prioritised(sources, fs, ds, out)
    requires |ds| == |claimed + net| && forall i :: 0 <= i < |ds| ==> ds[i] == Softened(certmongerStarted, (claimed + net)[i])
    requires forall d :: d in claimed ==> RespectsOrder(d)
    ensures forall i :: 0 <= i < |out| && out[i].priority == RELATED_SYMPTOM ==>
              exists chain :: LeadsToRoot(sources, fs, ds, out, chain) && chain[0] == i
  {
    forall d | d in ds ensures RespectsOrder(d) {
      var i :| 0 <= i < |ds| && ds[i] == d;
      var was := (claimed + net)[i];
      if i < |claimed| {
        assert was in claimed;
      } else {
        assert ShowsFinding(fs, claimed, net[i - |claimed|]);
      }
      SoftenedOrder(certmongerStarted, was);
    }
    assert |out| == |ds|;
    forall i | 0 <= i < |out| && out[i].priority == RELATED_SYMPTOM
      ensures exists chain :: LeadsToRoot(sources, fs, ds, out, chain) && chain[0] == i
    {
      var chain := SymptomLeadsToRoot(sources, fs, ds, out, i);
    }
  }

  lemma SoftenedOrder(certmongerStarted: bool, d: Diagnosis)
    requires RespectsOrder(d)
    ensures RespectsOrder(Softened(certmongerStarted, d))
  {
  }
}
