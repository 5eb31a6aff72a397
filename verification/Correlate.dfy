/** Correlation: which diagnosis explains which, the priority buckets, and the one overall status. */
module Correlate {
  import opened Common
  import opened Engine

  // ------------------------------------------------------------------ causes

  /** The diagnoses the specific causality table relates: `u`, where it can break others, explains `d`. */
  predicate ImplicitPair(d: DiagnosisId, u: DiagnosisId) {
    || (d == DiagnosisId(Kerberos, "kdc-discovery-failure") && StoppedPrefix(u, "dirsrv"))
    || (d == DiagnosisId(Dns, "srv-autodiscovery")
        && (u == DiagnosisId(Dns, "named-service-down") || StoppedExactly(u, "named") || StoppedExactly(u, "named-pkcs11")))
    || ((d == DiagnosisId(Certificates, "certmonger-tracking-stuck") || d == DiagnosisId(Certificates, "ra-agent-desync"))
        && (StoppedPrefix(u, "pki-tomcatd") || StoppedPrefix(u, "pki_tomcatd")))
    || (StoppedPrefix(d, "dirsrv") && u == DiagnosisId(DirectoryServer, "disk-space-exhaustion"))
    || (NeedsDirsrv(d) && StoppedPrefix(u, "dirsrv"))
  }

  /** Services that need this server's Directory Server. */
  predicate NeedsDirsrv(d: DiagnosisId) {
    || StoppedExactly(d, "krb5kdc") || StoppedExactly(d, "kadmin") || StoppedExactly(d, "httpd")
    || StoppedExactly(d, "ipa-custodia") || StoppedExactly(d, "pki-tomcatd") || StoppedExactly(d, "pki_tomcatd")
    || StoppedExactly(d, "ipa-dnskeysyncd") || StoppedExactly(d, "named") || StoppedExactly(d, "named-pkcs11")
  }

  /** What a stopped service, a stopped CA, a stopped name server and a full disk explain, and nothing else. */
  lemma ImplicitPairsAre(d: DiagnosisId, u: DiagnosisId)
    ensures ImplicitPair(d, u) <==>
              || (IsStopped(u, "dirsrv")
                  && (d == DiagnosisId(Kerberos, "kdc-discovery-failure")
                      || (d.pack == Healthcheck && exists s :: s in NEED_DIRSRV && d.rule == STOPPED + s)))
              || ((IsStopped(u, "pki-tomcatd") || IsStopped(u, "pki_tomcatd"))
                  && d.pack == Certificates && d.rule in {"certmonger-tracking-stuck", "ra-agent-desync"})
              || ((u == DiagnosisId(Dns, "named-service-down")
                   || (u.pack == Healthcheck && u.rule in {STOPPED + "named", STOPPED + "named-pkcs11"}))
                  && d == DiagnosisId(Dns, "srv-autodiscovery"))
              || (u == DiagnosisId(DirectoryServer, "disk-space-exhaustion") && IsStopped(d, "dirsrv"))
  {
    hide StoppedPrefix, StoppedExactly, IsStopped, NeedsDirsrv, NEED_DIRSRV, STOPPED;
    StoppedIs(u, "dirsrv");
    StoppedIs(d, "dirsrv");
    StoppedIs(u, "pki-tomcatd");
    StoppedIs(u, "pki_tomcatd");
    ExactlyIs(u, "named");
    ExactlyIs(u, "named-pkcs11");
    NeedsIs(d);
  }

  lemma NeedsIs(d: DiagnosisId)
    ensures NeedsDirsrv(d) <==> d.pack == Healthcheck && exists s :: s in NEED_DIRSRV && d.rule == STOPPED + s
  {
    hide StoppedExactly, STOPPED;
    forall s ensures StoppedExactly(d, s) <==> d.pack == Healthcheck && d.rule == STOPPED + s { ExactlyIs(d, s); }
  }

  const NEED_DIRSRV: set<string> :=
    {"krb5kdc", "kadmin", "httpd", "ipa-custodia", "pki-tomcatd", "pki_tomcatd", "ipa-dnskeysyncd", "named", "named-pkcs11"}

  /** The rule reports a stopped service whose name begins like this. */
  predicate IsStopped(id: DiagnosisId, service: string) { id.pack == Healthcheck && STOPPED + service <= id.rule }

  lemma StoppedIs(id: DiagnosisId, prefix: string)
    ensures StoppedPrefix(id, prefix) <==> IsStopped(id, prefix)
  {
    if STOPPED <= id.rule { assert id.rule == STOPPED + ServiceOf(id); }
    if IsStopped(id, prefix) { assert id.rule[..|STOPPED|] == STOPPED; }
  }

  lemma ExactlyIs(id: DiagnosisId, service: string)
    ensures StoppedExactly(id, service) <==> id.pack == Healthcheck && id.rule == STOPPED + service
  {
    if STOPPED <= id.rule { assert id.rule == STOPPED + ServiceOf(id); }
  }

  /** A stopped service, whatever its instance, stands for the pack that depends on it; any other rule for its own pack. */
  lemma StandsForPack(service: string, instance: string)
    requires '@' !in service && (instance == "" || instance[0] == '@')
    ensures EffectivePack(DiagnosisId(Healthcheck, STOPPED + service + instance))
         == if service == "dirsrv" then DirectoryServer
            else if service == "krb5kdc" then Kerberos
            else if service in {"named", "named-pkcs11"} then Dns
            else if service in {"pki-tomcatd", "pki_tomcatd", "certmonger"} then Certificates
            else Healthcheck
    ensures forall id: DiagnosisId :: id.pack != Healthcheck || !(STOPPED <= id.rule) ==> EffectivePack(id) == id.pack
  {
    var rule := STOPPED + service + instance;
    assert rule[|STOPPED|..] == service + instance && rule[..|STOPPED|] == STOPPED;
    InstanceDropped(service, instance);
  }

  lemma {:induction false} InstanceDropped(service: string, instance: string)
    requires '@' !in service && (instance == "" || instance[0] == '@')
    ensures BeforeAt(service + instance) == service
  {
    if service != "" {
      assert (service + instance)[1..] == service[1..] + instance;
      InstanceDropped(service[1..], instance);
    }
  }

  /** The score grows with the severity of the evidence, with the status and with the confidence, and with each of the first
      six corroborating pieces of evidence. */
  lemma ScoreGrows(d: Diagnosis, e: Diagnosis)
    requires EvidenceRank(d) <= EvidenceRank(e) && StatusOrder(d.status) <= StatusOrder(e.status)
    requires ConfidenceOrder(d.confidence) <= ConfidenceOrder(e.confidence) && d.corroborating <= e.corroborating
    ensures Score(d) <= Score(e)
    ensures Score(d) == Score(e) <==>
              && EvidenceRank(d) == EvidenceRank(e) && d.status == e.status && d.confidence == e.confidence
              && (d.corroborating == e.corroborating || d.corroborating >= 6)
  {
    hide EvidenceRank, StatusWeight, ConfidenceWeight, StatusOrder, ConfidenceOrder;
    WeightsGrow(d.status, e.status, d.confidence, e.confidence);
    var a, b := (EvidenceRank(d) + 1) as real, (EvidenceRank(e) + 1) as real;
    var c, x := StatusWeight(d.status), StatusWeight(e.status);
    var f, g := ConfidenceWeight(d.confidence), ConfidenceWeight(e.confidence);
    var m := 1.0 + 0.05 * (if d.corroborating < 6 then d.corroborating else 6) as real;
    var n := 1.0 + 0.05 * (if e.corroborating < 6 then e.corroborating else 6) as real;
    AllGrow(a, b, c, x, f, g, m, n);
  }

  lemma WeightsGrow(s: DiagnosisStatus, t: DiagnosisStatus, c: ConfidenceLevel, d: ConfidenceLevel)
    requires StatusOrder(s) <= StatusOrder(t) && ConfidenceOrder(c) <= ConfidenceOrder(d)
    ensures 0.0 < StatusWeight(s) <= StatusWeight(t) && (StatusWeight(s) == StatusWeight(t) <==> s == t)
    ensures 0.0 < ConfidenceWeight(c) <= ConfidenceWeight(d) && (ConfidenceWeight(c) == ConfidenceWeight(d) <==> c == d)
  {
  }

  lemma AllGrow(a: real, b: real, c: real, d: real, f: real, g: real, m: real, n: real)
    requires 0.0 < a <= b && 0.0 < c <= d && 0.0 < f <= g && 0.0 < m <= n
    ensures a * c * f * m <= b * d * g * n
    ensures a * c * f * m == b * d * g * n <==> a == b && c == d && f == g && m == n
  {
    ProductGrows(a, b, c, d);
    ProductGrows(a * c, b * d, f, g);
    ProductGrows(a * c * f, b * d * g, m, n);
  }

  lemma ProductGrows(a: real, b: real, c: real, d: real)
    requires 0.0 < a <= b && 0.0 < c <= d
    ensures 0.0 < a * c <= b * d && (a * c == b * d <==> a == b && c == d)
  {
    assert a * c <= b * c <= b * d;
    if a < b { assert a * c < b * c; }
    if c < d { assert b * c < b * d; }
  }

  function StatusOrder(s: DiagnosisStatus): nat {
    match s
    case TRANSIENT_SUSPECTED => 0
    case UNKNOWN_INSUFFICIENT_EVIDENCE => 1
    case UNKNOWN_CONFLICTING_EVIDENCE => 2
    case DIAGNOSED => 3
  }

  function ConfidenceOrder(c: ConfidenceLevel): nat {
    match c
    case INSUFFICIENT => 0
    case LOW => 1
    case MEDIUM => 2
    case HIGH => 3
  }

  /** A real problem, backed by ERROR-level evidence, of a pack `d` declares as upstream. */
  predicate DeclaredCause(d: Diagnosis, u: Diagnosis) {
    && IsRealProblem(u) && u.explainsDownstream && EvidenceRank(u) >= ERROR.Rank()
    && EffectivePack(u.id) in d.upstream && EffectivePack(u.id) != d.id.pack && EffectivePack(u.id) !in d.notCausedBy
  }

  predicate ImplicitCause(d: Diagnosis, u: Diagnosis) {
    u.explainsDownstream && ImplicitPair(d.id, u.id) && IsRealProblem(u) && EffectivePack(u.id) !in d.notCausedBy
  }

  const CHECK_FAILED: DiagnosisId := DiagnosisId(Healthcheck, "healthcheck-check-failed")
  const UNEXPLAINED: DiagnosisId := DiagnosisId(Healthcheck, "unexplained-findings")

  predicate IsSafetyNet(d: Diagnosis) { d.id == CHECK_FAILED || d.id == UNEXPLAINED }

  predicate IsServiceDown(id: DiagnosisId) { IsStoppedService(id) || id == DiagnosisId(Dns, "named-service-down") }

  /** What the correlation knows of the finding behind an id: its source and its check, empty when there is none. */
  datatype Origin = Origin(source: string, check: string)

  /** The ipa-healthcheck sources a pack's rules read. */
  type PackSources = Pack -> seq<string>

  /** Whether the stopped service `u` explains a crashed, or an unexplained, finding of this origin. */
  predicate ExplainsSource(sources: PackSources, u: DiagnosisId, o: Origin, crashed: bool) {
    if StartsWith(o.source, "ipahealthcheck.system.filesystemspace") then false
    else if u.pack == Healthcheck && BeforeAt(ServiceOf(u)) == "dirsrv" && crashed then true
    else if StartsWith(o.source, "ipahealthcheck.meta.services") then true
    else if !crashed then BeforeAt(ServiceOf(u)) == "certmonger" && o.check == "IPACertmongerCA"
    else exists p :: p in sources(EffectivePack(u)) && StartsWith(o.source, p)
  }

  /** The origin recorded last under an id. */
  function OriginOf(fs: seq<Finding>, id: string): Origin {
    if fs == [] then Origin("", "")
    else if fs[|fs| - 1].id == id then Origin(fs[|fs| - 1].source, fs[|fs| - 1].check)
    else OriginOf(fs[..|fs| - 1], id)
  }

  /** Whether a cause is allowed to absorb the symptom: a stopped service absorbs the crashed and unexplained checks it
      owns; an unconfirmed cause never hides a confirmed problem, nor a more severe one. */
  predicate MayAbsorb(sources: PackSources, fs: seq<Finding>, d: Diagnosis, u: Diagnosis) {
    if IsSafetyNet(d) then
      && u.status == DIAGNOSED && IsServiceDown(u.id)
      && (exists r :: r in d.evidenceFor && r.ofFinding)
      && (forall r :: r in d.evidenceFor && r.ofFinding ==> ExplainsSource(sources, u.id, OriginOf(fs, r.id), d.id == CHECK_FAILED))
      && (d.id == CHECK_FAILED || EvidenceRank(u) >= EvidenceRank(d))
    else
      u.status == DIAGNOSED || (d.status != DIAGNOSED && EvidenceRank(u) >= EvidenceRank(d))
  }

  /** `u` explains `d`. */
  predicate Causes(sources: PackSources, fs: seq<Finding>, u: Diagnosis, d: Diagnosis) {
    (DeclaredCause(d, u) || ImplicitCause(d, u)) && MayAbsorb(sources, fs, d, u)
  }

  // ------------------------------------------------------------------ what explaining means

  const SEVERE: set<Severity> := {ERROR, UNKNOWN, CRITICAL}

  /** The rule reports this service, or an instance of it, as stopped. */
  ghost predicate StoppedInstance(rule: string, service: string) {
    exists instance :: (instance == "" || instance[0] == '@') && rule == STOPPED + service + instance
  }

  /** Disk space is never a symptom of a stopped service. A service check is one of any, a crashed check one of Directory
      Server or of the service whose pack owns it, and a check that did run only if it asked certmonger itself. */
  lemma ExplainsSourceExactly(sources: PackSources, u: DiagnosisId, o: Origin, crashed: bool)
    ensures ExplainsSource(sources, u, o, crashed) <==>
              && !("ipahealthcheck.system.filesystemspace" <= o.source)
              && (|| "ipahealthcheck.meta.services" <= o.source
                  || (crashed && u.pack == Healthcheck && StoppedInstance(u.rule, "dirsrv"))
                  || (crashed && exists p :: p in sources(EffectivePack(u)) && p <= o.source)
                  || (!crashed && StoppedInstance(u.rule, "certmonger") && o.check == "IPACertmongerCA"))
  {
    hide EffectivePack, StoppedInstance, BeforeAt, ServiceOf;
    InstanceIs(u, "dirsrv");
    InstanceIs(u, "certmonger");
  }

  lemma InstanceIs(u: DiagnosisId, service: string)
    requires '@' !in service && service != ""
    ensures BeforeAt(ServiceOf(u)) == service <==> StoppedInstance(u.rule, service)
  {
    hide BeforeAt, STOPPED;
    var s := ServiceOf(u);
    if STOPPED <= u.rule {
      assert u.rule == STOPPED + s;
      if BeforeAt(s) == service {
        WholeName(s);
        assert s == service + s[|service|..];
        Grouped(STOPPED, service, s[|service|..]);
      }
    } else {
      assert BeforeAt(s) == "";
    }
    if instance :| (instance == "" || instance[0] == '@') && u.rule == STOPPED + service + instance {
      Grouped(STOPPED, service, instance);
      assert u.rule[..|STOPPED|] == STOPPED && u.rule[|STOPPED|..] == service + instance;
      InstanceDropped(service, instance);
    }
  }

  lemma Grouped(a: string, b: string, c: string)
    ensures a + b + c == a + (b + c)
  {
  }

  lemma {:induction false} WholeName(s: string)
    ensures BeforeAt(s) <= s && (|BeforeAt(s)| < |s| ==> s[|BeforeAt(s)|] == '@')
  {
    if s != "" && s[0] != '@' { WholeName(s[1..]); }
  }

  /** What is known of an id is the origin of the last finding that carries it. */
  lemma {:induction false} OriginIsLast(fs: seq<Finding>, id: string)
    ensures || ((forall f :: f in fs ==> f.id != id) && OriginOf(fs, id) == Origin("", ""))
            || exists i: nat :: LastFinding(fs, id, i) && OriginOf(fs, id) == Origin(fs[i].source, fs[i].check)
  {
    if fs != [] && fs[|fs| - 1].id != id {
      var front := fs[..|fs| - 1];
      OriginIsLast(front, id);
      if i: nat :| LastFinding(front, id, i) && OriginOf(front, id) == Origin(front[i].source, front[i].check) {
        assert LastFinding(fs, id, i) && fs[i] == front[i];
      }
    } else if fs != [] {
      assert LastFinding(fs, id, |fs| - 1);
    }
  }

  ghost predicate LastFinding(fs: seq<Finding>, id: string, i: nat) {
    i < |fs| && fs[i].id == id && forall j :: i < j < |fs| ==> fs[j].id != id
  }

  /** The evidence counts as severe as it is, but never more severe than the diagnosis. */
  lemma EvidenceRankIs(d: Diagnosis)
    ensures EvidenceRank(d) <= d.severity.Rank() && (d.evidenceSeverity.Some? ==> EvidenceRank(d) <= d.evidenceSeverity.value.Rank())
    ensures EvidenceRank(d) == d.severity.Rank() || d.evidenceSeverity.Some?
    ensures d.evidenceSeverity.Some? ==> EvidenceRank(d) in {d.severity.Rank(), d.evidenceSeverity.value.Rank()}
    ensures EvidenceRank(d) >= ERROR.Rank() <==>
              d.severity in SEVERE && (d.evidenceSeverity.Some? ==> d.evidenceSeverity.value in SEVERE)
    ensures d.severity.Rank() >= ERROR.Rank() <==> d.severity in SEVERE
  {
  }

  /** `u` explains `d` exactly if it is a real problem that can break others, its pack is one that `d` declares, with severe
      evidence, or the table relates the two, `d` does not exclude its pack, and it may absorb `d`: an unconfirmed problem
      hides neither a confirmed nor a more severe one; and findings that no rule claims are absorbed only by a confirmed
      stopped service that explains every one of them and, if the checks did run, is at least as severe. */
  lemma CausesExactly(sources: PackSources, fs: seq<Finding>, u: Diagnosis, d: Diagnosis)
    ensures Causes(sources, fs, u, d) <==>
              var pack := EffectivePack(u.id);
              var net := d.id == CHECK_FAILED || d.id == UNEXPLAINED;
              var confirmed, severer := u.status == DIAGNOSED, EvidenceRank(u) >= EvidenceRank(d);
              && u.severity in SEVERE && u.explainsDownstream && pack !in d.notCausedBy
              && (|| ImplicitPair(d.id, u.id)
                  || (pack in d.upstream && pack != d.id.pack && (u.evidenceSeverity.Some? ==> u.evidenceSeverity.value in SEVERE)))
              && (!net && !confirmed ==> d.status != DIAGNOSED && severer)
              && (net ==>
                    && confirmed && (d.id == UNEXPLAINED ==> severer)
                    && (u.id == DiagnosisId(Dns, "named-service-down") || (u.id.pack == Healthcheck && STOPPED <= u.id.rule))
                    && (exists r :: r in d.evidenceFor && r.ofFinding)
                    && forall r :: r in d.evidenceFor && r.ofFinding ==>
                         ExplainsSource(sources, u.id, OriginOf(fs, r.id), d.id == CHECK_FAILED))
  {
    hide ImplicitPair, EffectivePack, ExplainsSource, OriginOf, EvidenceRank, SEVERE, Severity.Rank;
    EvidenceRankIs(u);
  }

  predicate HasCause(sources: PackSources, fs: seq<Finding>, ds: seq<Diagnosis>, d: Diagnosis) {
    exists u :: u in ds && Causes(sources, fs, u, d)
  }

  /** Diagnoses are demoted by id: one cause for one of them is enough for all that share the id. */
  ghost predicate Demoted(sources: PackSources, fs: seq<Finding>, ds: seq<Diagnosis>, id: DiagnosisId) {
    exists d :: d in ds && d.id == id && HasCause(sources, fs, ds, d)
  }

  // ------------------------------------------------------------------ the causality chain is acyclic

  /** The documented order: DNS, Kerberos, Replication, Certificates, with Directory Server under all of them. */
  function PackRank(p: Pack): nat {
    match p
    case DirectoryServer => 0
    case Dns => 1
    case Kerberos => 2
    case Replication => 3
    case Certificates => 4
    case Healthcheck => 5
  }

  /** A rank every cause lowers: the pack order, refined where the table relates diagnoses of one pack. */
  function CausalRank(id: DiagnosisId): nat {
    if StoppedPrefix(id, "dirsrv") then 1
    else if StoppedPrefix(id, "pki-tomcatd") || StoppedPrefix(id, "pki_tomcatd") then 8
    else 2 * PackRank(EffectivePack(id))
         + (if id == DiagnosisId(Dns, "srv-autodiscovery") || id == DiagnosisId(Certificates, "certmonger-tracking-stuck")
            || id == DiagnosisId(Certificates, "ra-agent-desync") then 1 else 0)
  }

  /** Every rule declares as upstream only packs that come before it in the documented order. */
  predicate RespectsOrder(d: Diagnosis) { forall p :: p in d.upstream ==> 2 * PackRank(p) + 1 < CausalRank(d.id) }

  lemma PkiPack(id: DiagnosisId)
    requires StoppedPrefix(id, "pki-tomcatd") || StoppedPrefix(id, "pki_tomcatd")
    ensures PackRank(EffectivePack(id)) >= 4
  {
    var service := ServiceOf(id);
    assert service[0] == 'p';
    assert BeforeAt(service)[0] == 'p';
    assert "dirsrv"[0] == 'd' && "krb5kdc"[0] == 'k' && "named"[0] == 'n' && "named-pkcs11"[0] == 'n';
  }

  lemma RankBelowPack(id: DiagnosisId)
    ensures CausalRank(id) <= 2 * PackRank(EffectivePack(id)) + 1
  {
    if StoppedPrefix(id, "pki-tomcatd") || StoppedPrefix(id, "pki_tomcatd") {
      PkiPack(id);
    }
  }

  /** The causality table alone lowers the rank. */
  lemma ImplicitLowersRank(d: DiagnosisId, u: DiagnosisId)
    requires ImplicitPair(d, u)
    ensures CausalRank(u) < CausalRank(d)
  {
    assert "dirsrv"[0] == 'd' && "pki-tomcatd"[0] == 'p' && "pki_tomcatd"[0] == 'p';
    if NeedsDirsrv(d) && StoppedPrefix(u, "dirsrv") {
      NeedsDirsrvRank(d);
    } else if d == DiagnosisId(Dns, "srv-autodiscovery") {
      NamedRank(u);
    }
  }

  lemma NamedRank(u: DiagnosisId)
    requires u == DiagnosisId(Dns, "named-service-down") || StoppedExactly(u, "named") || StoppedExactly(u, "named-pkcs11")
    ensures CausalRank(u) <= 2
  {
    hide BeforeAt;
    assert "named"[0] == 'n' && "named-pkcs11"[0] == 'n' && "dirsrv"[0] == 'd' && "pki-tomcatd"[0] == 'p' && "pki_tomcatd"[0] == 'p';
    NoInstance("named");
    NoInstance("named-pkcs11");
  }

  lemma NeedsDirsrvRank(d: DiagnosisId)
    requires NeedsDirsrv(d)
    ensures CausalRank(d) >= 2
  {
    hide BeforeAt;
    var service := ServiceOf(d);
    assert "dirsrv"[0] == 'd' && service[0] in {'k', 'h', 'i', 'p', 'n'};
    assert BeforeAt(service) != "dirsrv";
  }

  lemma CauseLowersRank(sources: PackSources, fs: seq<Finding>, u: Diagnosis, d: Diagnosis)
    requires Causes(sources, fs, u, d) && RespectsOrder(d)
    ensures CausalRank(u.id) < CausalRank(d.id)
  {
    if DeclaredCause(d, u) {
      RankBelowPack(u.id);
    } else {
      ImplicitLowersRank(d.id, u.id);
    }
  }

  /** What the registered packs declare as upstream. */
  predicate DeclaredAsRegistered(d: Diagnosis) {
    match d.id.pack
    case DirectoryServer => d.upstream == []
    case Dns => d.upstream == [] || d.upstream == [DirectoryServer]
    case Kerberos => d.upstream == [] || d.upstream == [Dns]
    case Replication => d.upstream == [] || d.upstream == [Dns, Kerberos] || d.upstream == [Dns, Kerberos, DirectoryServer]
    case Certificates => d.upstream == [] || d.upstream == [Replication] || d.upstream == [DirectoryServer]
    case Healthcheck => false
  }

  lemma RegisteredPacksRespectOrder(d: Diagnosis)
    requires DeclaredAsRegistered(d)
    ensures RespectsOrder(d)
  {
    assert EffectivePack(d.id) == d.id.pack;
    assert CausalRank(d.id) >= 2 * PackRank(d.id.pack);
  }

  // ------------------------------------------------------------------ demotion

  /** The packs of every cause of `d`, each once. */
  function CausePacks(sources: PackSources, fs: seq<Finding>, ds: seq<Diagnosis>, d: Diagnosis): set<Pack> {
    set u | u in ds && Causes(sources, fs, u, d) :: EffectivePack(u.id)
  }

  /** What is recorded for an id are the packs of all causes of a diagnosis that carries it. */
  ghost predicate RecordsCauses(sources: PackSources, fs: seq<Finding>, ds: seq<Diagnosis>, id: DiagnosisId, packs: set<Pack>) {
    exists i :: 0 <= i < |ds| && ds[i].id == id && packs == CausePacks(sources, fs, ds, ds[i])
  }

  /** The demoted ids, each with the packs of the causes of the last diagnosis that carries it and has any. */
  method Demote(sources: PackSources, fs: seq<Finding>, ds: seq<Diagnosis>) returns (demotions: map<DiagnosisId, set<Pack>>)
    ensures forall id :: id in demotions <==> Demoted(sources, fs, ds, id)
    ensures forall id :: id in demotions ==> demotions[id] != {} && RecordsCauses(sources, fs, ds, id, demotions[id])
  {
    hide Causes, CausePacks;
    demotions := map[];
    var i := 0;
    while i < |ds|
      invariant 0 <= i <= |ds|
      invariant forall id :: id in demotions <==> exists j :: 0 <= j < i && ds[j].id == id && HasCause(sources, fs, ds, ds[j])
      invariant forall id :: id in demotions ==> demotions[id] != {} && RecordsCauses(sources, fs, ds, id, demotions[id])
    {
      var packs := CausePacks(sources, fs, ds, ds[i]);
      PacksNonempty(sources, fs, ds, ds[i]);
      assert RecordsCauses(sources, fs, ds, ds[i].id, packs);
      if packs != {} {
        demotions := demotions[ds[i].id := packs];
      }
      i := i + 1;
    }
  }

  lemma PacksNonempty(sources: PackSources, fs: seq<Finding>, ds: seq<Diagnosis>, d: Diagnosis)
    ensures CausePacks(sources, fs, ds, d) != {} <==> HasCause(sources, fs, ds, d)
  {
    hide Causes;
    if u :| u in ds && Causes(sources, fs, u, d) {
      assert EffectivePack(u.id) in CausePacks(sources, fs, ds, d);
    }
  }

  // ------------------------------------------------------------------ priorities

  /** Evidence of ERROR level first, then the score. */
  predicate Outranks(a: Diagnosis, b: Diagnosis) {
    var ea, eb := EvidenceRank(a) >= ERROR.Rank(), EvidenceRank(b) >= ERROR.Rank();
    (ea && !eb) || (ea == eb && Score(a) > Score(b))
  }

  /** A diagnosis the report ranks: neither somebody's symptom nor a benign heads-up. */
  ghost predicate IsRoot(sources: PackSources, fs: seq<Finding>, ds: seq<Diagnosis>, d: Diagnosis) {
    !Demoted(sources, fs, ds, d.id) && !IsHeadsUp(d)
  }

  /** The buckets: symptoms and heads-ups as they are, one PRIMARY among the roots that no other root outranks, every
      other root SECONDARY. Nothing else of a diagnosis changes. */
  ghost predicate Prioritised(sources: PackSources, fs: seq<Finding>, ds: seq<Diagnosis>, out: seq<Diagnosis>) {
    && |out| == |ds|
    && (forall i :: 0 <= i < |ds| ==> out[i] == ds[i].(priority := out[i].priority))
    && (forall i :: 0 <= i < |ds| ==> (out[i].priority == RELATED_SYMPTOM <==> Demoted(sources, fs, ds, ds[i].id)))
    && (forall i :: 0 <= i < |ds| ==>
          (out[i].priority == WARNING_BUCKET <==> !Demoted(sources, fs, ds, ds[i].id) && IsHeadsUp(ds[i])))
    && (forall i :: 0 <= i < |ds| ==> out[i].priority != INFORMATIONAL)
    && ((exists i :: 0 <= i < |ds| && IsRoot(sources, fs, ds, ds[i])) ==> exists i :: 0 <= i < |out| && out[i].priority == PRIMARY)
    && (forall i, j :: 0 <= i < j < |out| ==> !(out[i].priority == PRIMARY && out[j].priority == PRIMARY))
    && (forall i, j :: 0 <= i < |out| && 0 <= j < |out| && out[i].priority == PRIMARY && IsRoot(sources, fs, ds, ds[j]) ==>
          !Outranks(ds[j], ds[i]))
  }

  /** The diagnosis rests on severe evidence. */
  ghost predicate SevereEvidence(d: Diagnosis) {
    d.severity in SEVERE && (d.evidenceSeverity.Some? ==> d.evidenceSeverity.value in SEVERE)
  }

  /** What the buckets mean: a warning that is established and that nothing explains is a heads-up; and the primary problem
      rests on severe evidence if any root does, and has the highest score among the roots of its kind. */
  lemma BucketsAre(sources: PackSources, fs: seq<Finding>, ds: seq<Diagnosis>, out: seq<Diagnosis>)
    requires Prioritised(sources, fs, ds, out)
    ensures forall i :: 0 <= i < |ds| ==>
              (out[i].priority == WARNING_BUCKET
               <==> !Demoted(sources, fs, ds, ds[i].id) && ds[i].severity == WARNING && ds[i].status == DIAGNOSED)
    ensures forall i, j :: 0 <= i < |ds| && 0 <= j < |ds| && out[i].priority == PRIMARY
                           && out[j].priority in {PRIMARY, SECONDARY_INDEPENDENT} ==>
              (SevereEvidence(ds[j]) ==> SevereEvidence(ds[i]))
              && ((SevereEvidence(ds[j]) <==> SevereEvidence(ds[i])) ==> Score(ds[j]) <= Score(ds[i]))
  {
    hide Demoted, Score, EvidenceRank, SevereEvidence;
    forall i | 0 <= i < |ds| ensures EvidenceRank(ds[i]) >= ERROR.Rank() <==> SevereEvidence(ds[i]) { EvidenceCounts(ds[i]); }
    forall j | 0 <= j < |ds| && out[j].priority in {PRIMARY, SECONDARY_INDEPENDENT} ensures IsRoot(sources, fs, ds, ds[j]) {
    }
  }

  lemma EvidenceCounts(d: Diagnosis)
    ensures EvidenceRank(d) >= ERROR.Rank() <==> SevereEvidence(d)
  {
    EvidenceRankIs(d);
  }

  /** A root candidate: its position in the list, and the diagnosis. */
  type Candidate = (int, Diagnosis)

  const BY_RANK: (Candidate, Candidate) -> bool := (a: Candidate, b: Candidate) => Outranks(a.1, b.1)

  lemma RankIsOrder()
    ensures IsOrder(BY_RANK)
  {
    hide Score, EvidenceRank;
  }

  /** The first pass: symptoms and heads-ups take their bucket, the rest are root candidates. */
  ghost predicate FirstPass(demotions: set<DiagnosisId>, ds: seq<Diagnosis>, out: seq<Diagnosis>, roots: seq<Candidate>, n: nat) {
    && |out| == |ds| && n <= |ds|
    && (forall j :: 0 <= j < |ds| ==> out[j] == ds[j].(priority := out[j].priority))
    && (forall j :: 0 <= j < n && ds[j].id in demotions ==> out[j].priority == RELATED_SYMPTOM)
    && (forall j :: 0 <= j < n && ds[j].id !in demotions && IsHeadsUp(ds[j]) ==> out[j].priority == WARNING_BUCKET)
    && (forall j :: 0 <= j < n && ds[j].id !in demotions && !IsHeadsUp(ds[j]) ==> (j, ds[j]) in roots)
    && (forall j :: 0 <= j < |roots| ==>
          0 <= roots[j].0 < n && roots[j].1 == ds[roots[j].0] && ds[roots[j].0].id !in demotions && !IsHeadsUp(ds[roots[j].0]))
    && NoRepeats(roots)
  }

  /** The second pass: the first `k` ranked candidates have their bucket. */
  ghost predicate SecondPass(demotions: set<DiagnosisId>, ds: seq<Diagnosis>, out: seq<Diagnosis>, ranked: seq<Candidate>, k: nat) {
    && FirstPass(demotions, ds, out, ranked, |ds|) && k <= |ranked|
    && forall j :: 0 <= j < k ==> out[ranked[j].0].priority == (if j == 0 then PRIMARY else SECONDARY_INDEPENDENT)
  }

  lemma FirstPassStart(demotions: set<DiagnosisId>, ds: seq<Diagnosis>)
    ensures FirstPass(demotions, ds, ds, [], 0)
  {
  }

  lemma FirstStep(demotions: set<DiagnosisId>, ds: seq<Diagnosis>, out: seq<Diagnosis>, roots: seq<Candidate>, i: nat, p: Priority)
    requires FirstPass(demotions, ds, out, roots, i) && i < |ds|
    ensures ds[i].id in demotions && p == RELATED_SYMPTOM ==>
              FirstPass(demotions, ds, out[i := out[i].(priority := p)], roots, i + 1)
    ensures ds[i].id !in demotions && IsHeadsUp(ds[i]) && p == WARNING_BUCKET ==>
              FirstPass(demotions, ds, out[i := out[i].(priority := p)], roots, i + 1)
    ensures ds[i].id !in demotions && !IsHeadsUp(ds[i]) ==> FirstPass(demotions, ds, out, roots + [(i, ds[i])], i + 1)
  {
  }

  lemma SecondStep(demotions: set<DiagnosisId>, ds: seq<Diagnosis>, out: seq<Diagnosis>, ranked: seq<Candidate>, k: nat)
    requires SecondPass(demotions, ds, out, ranked, k) && k < |ranked|
    ensures 0 <= ranked[k].0 < |out|
    ensures var p := if k == 0 then PRIMARY else SECONDARY_INDEPENDENT;
            SecondPass(demotions, ds, out[ranked[k].0 := out[ranked[k].0].(priority := p)], ranked, k + 1)
  {
    hide IsHeadsUp;
    forall j | 0 <= j < k ensures ranked[j].0 != ranked[k].0 {
    }
  }

  lemma RankedPass(demotions: set<DiagnosisId>, ds: seq<Diagnosis>, out: seq<Diagnosis>, roots: seq<Candidate>)
    requires FirstPass(demotions, ds, out, roots, |ds|)
    ensures SecondPass(demotions, ds, out, SortBy(roots, BY_RANK), 0)
    ensures SortedBy(SortBy(roots, BY_RANK), BY_RANK)
  {
    hide Outranks, IsHeadsUp, SortBy;
    var ranked := SortBy(roots, BY_RANK);
    RankIsOrder();
    SortBySorted(roots, BY_RANK);
    NoRepeatsPermuted(roots, ranked);
    forall x: Candidate ensures x in ranked <==> x in roots {
      assert x in multiset(ranked) <==> x in multiset(roots);
    }
    FirstPassPermuted(demotions, ds, out, roots, ranked);
  }

  lemma FirstPassPermuted(demotions: set<DiagnosisId>, ds: seq<Diagnosis>, out: seq<Diagnosis>, roots: seq<Candidate>,
                          ranked: seq<Candidate>)
    requires FirstPass(demotions, ds, out, roots, |ds|) && NoRepeats(ranked)
    requires forall x {:trigger x in ranked} {:trigger x in roots} :: x in ranked <==> x in roots
    ensures FirstPass(demotions, ds, out, ranked, |ds|)
  {
    hide IsHeadsUp;
    forall j | 0 <= j < |ranked| ensures ranked[j] in roots {
      assert ranked[j] in ranked;
    }
  }

  lemma PassesPrioritise(sources: PackSources, fs: seq<Finding>, demotions: set<DiagnosisId>, ds: seq<Diagnosis>,
                         out: seq<Diagnosis>, ranked: seq<Candidate>)
    requires forall id :: id in demotions <==> Demoted(sources, fs, ds, id)
    requires SecondPass(demotions, ds, out, ranked, |ranked|) && SortedBy(ranked, BY_RANK)
    ensures Prioritised(sources, fs, ds, out)
  {
    hide Outranks, Demoted;
    forall i | 0 <= i < |ds| && IsRoot(sources, fs, ds, ds[i])
      ensures exists j :: 0 <= j < |ranked| && ranked[j] == (i, ds[i])
    {
      assert (i, ds[i]) in ranked;
    }
    if i :| 0 <= i < |ds| && IsRoot(sources, fs, ds, ds[i]) {
      assert out[ranked[0].0].priority == PRIMARY;
    }
    forall i | 0 <= i < |out| && out[i].priority == PRIMARY ensures |ranked| > 0 && i == ranked[0].0 {
      assert (i, ds[i]) in ranked;
    }
    forall i, j | 0 <= i < |out| && 0 <= j < |out| && out[i].priority == PRIMARY && IsRoot(sources, fs, ds, ds[j])
      ensures !Outranks(ds[j], ds[i])
    {
      var k :| 0 <= k < |ranked| && ranked[k] == (j, ds[j]);
      assert !BY_RANK(ranked[k], ranked[0]) by {
        if k == 0 {
          RankIsOrder();
        }
      }
    }
  }

  /** Marks symptoms and heads-ups, and collects the root candidates. */
  method CollectRoots(demotions: map<DiagnosisId, set<Pack>>, ds: seq<Diagnosis>) returns (out: seq<Diagnosis>, roots: seq<Candidate>)
    ensures FirstPass(demotions.Keys, ds, out, roots, |ds|)
  {
    hide FirstPass, IsHeadsUp;
    out, roots := ds, [];
    FirstPassStart(demotions.Keys, ds);
    var i := 0;
    while i < |ds|
      invariant 0 <= i <= |ds| == |out|
      invariant FirstPass(demotions.Keys, ds, out, roots, i)
    {
      FirstStep(demotions.Keys, ds, out, roots, i, if ds[i].id in demotions then RELATED_SYMPTOM else WARNING_BUCKET);
      if ds[i].id in demotions {
        out := out[i := out[i].(priority := RELATED_SYMPTOM)];
      } else if IsHeadsUp(ds[i]) {
        out := out[i := out[i].(priority := WARNING_BUCKET)];
      } else {
        roots := roots + [(i, ds[i])];
      }
      i := i + 1;
    }
  }

  /** Sorts the diagnoses into their buckets. */
  method AssignPriorities(sources: PackSources, fs: seq<Finding>, ds: seq<Diagnosis>) returns (out: seq<Diagnosis>)
    ensures Prioritised(sources, fs, ds, out)
  {
    hide Prioritised, Demoted, IsRoot, FirstPass, SecondPass, SortBy, SortedBy;
    var demotions := Demote(sources, fs, ds);
    var roots;
    out, roots := CollectRoots(demotions, ds);
    FirstPassLength(demotions.Keys, ds, out, roots, |ds|);
    var ranked := SortBy(roots, BY_RANK);
    RankedPass(demotions.Keys, ds, out, roots);
    var k := 0;
    while k < |ranked|
      invariant 0 <= k <= |ranked| && |out| == |ds|
      invariant SecondPass(demotions.Keys, ds, out, ranked, k)
    {
      SecondStep(demotions.Keys, ds, out, ranked, k);
      var at := ranked[k].0;
      out := out[at := out[at].(priority := if k == 0 then PRIMARY else SECONDARY_INDEPENDENT)];
      k := k + 1;
    }
    PassesPrioritise(sources, fs, demotions.Keys, ds, out, ranked);
  }

  lemma FirstPassLength(demotions: set<DiagnosisId>, ds: seq<Diagnosis>, out: seq<Diagnosis>, roots: seq<Candidate>, n: nat)
    requires FirstPass(demotions, ds, out, roots, n)
    ensures |out| == |ds|
  {
  }

  // ------------------------------------------------------------------ every symptom leads to a root

  /** `v` stands, by its id, for a diagnosis that `u` explains. */
  ghost predicate ExplainsId(sources: PackSources, fs: seq<Finding>, ds: seq<Diagnosis>, u: Diagnosis, v: Diagnosis) {
    u in ds && exists d :: d in ds && d.id == v.id && Causes(sources, fs, u, d)
  }

  /** A chain of explanations from position `at`: every next diagnosis explains the one before, and the last one is a
      root the report shows as PRIMARY or SECONDARY. */
  ghost predicate LeadsToRoot(sources: PackSources, fs: seq<Finding>, ds: seq<Diagnosis>, out: seq<Diagnosis>, chain: seq<nat>) {
    && chain != [] && chain[0] < |ds| == |out|
    && if |chain| == 1 then out[chain[0]].priority == PRIMARY || out[chain[0]].priority == SECONDARY_INDEPENDENT
       else
         && chain[1] < |ds| && ExplainsId(sources, fs, ds, ds[chain[1]], ds[chain[0]])
         && LeadsToRoot(sources, fs, ds, out, chain[1..])
  }

  lemma CauseIsReal(sources: PackSources, fs: seq<Finding>, u: Diagnosis, d: Diagnosis)
    requires Causes(sources, fs, u, d)
    ensures !IsHeadsUp(u)
  {
  }

  /** A cause of a symptom is itself a symptom of lower rank, or a reported root. */
  lemma NextCause(sources: PackSources, fs: seq<Finding>, ds: seq<Diagnosis>, out: seq<Diagnosis>, at: nat) returns (next: nat)
    requires Prioritised(sources, fs, ds, out) && at < |ds| && out[at].priority == RELATED_SYMPTOM
    requires forall d :: d in ds ==> RespectsOrder(d)
    ensures next < |ds| == |out| && ExplainsId(sources, fs, ds, ds[next], ds[at])
    ensures CausalRank(ds[next].id) < CausalRank(ds[at].id)
    ensures out[next].priority != WARNING_BUCKET && out[next].priority != INFORMATIONAL
  {
    hide Causes, CausalRank, RespectsOrder, IsHeadsUp;
    assert Demoted(sources, fs, ds, ds[at].id);
    var d :| d in ds && d.id == ds[at].id && HasCause(sources, fs, ds, d);
    var u :| u in ds && Causes(sources, fs, u, d);
    CauseLowersRank(sources, fs, u, d);
    CauseIsReal(sources, fs, u, d);
    next :| 0 <= next < |ds| && ds[next] == u;
  }

  /** Position `at` has a chain of explanations that ends at a reported root. */
  ghost predicate HasRoot(sources: PackSources, fs: seq<Finding>, ds: seq<Diagnosis>, out: seq<Diagnosis>, at: nat) {
    exists chain :: LeadsToRoot(sources, fs, ds, out, chain) && chain[0] == at
  }

  /** Symptoms that are explained only by one another. */
  ghost predicate Trapped(sources: PackSources, fs: seq<Finding>, ds: seq<Diagnosis>, out: seq<Diagnosis>, trap: set<nat>) {
    forall i :: i in trap ==>
      && i < |ds| == |out| && out[i].priority == RELATED_SYMPTOM
      && forall j :: 0 <= j < |ds| && ExplainsId(sources, fs, ds, ds[j], ds[i]) ==> j in trap
  }

  /** No chain leaves a trap. */
  lemma {:induction false} TrapHolds(sources: PackSources, fs: seq<Finding>, ds: seq<Diagnosis>, out: seq<Diagnosis>,
                                     trap: set<nat>, chain: seq<nat>)
    requires Trapped(sources, fs, ds, out, trap) && LeadsToRoot(sources, fs, ds, out, chain)
    ensures chain[0] !in trap
  {
    hide ExplainsId;
    if chain[0] in trap && |chain| > 1 { TrapHolds(sources, fs, ds, out, trap, chain[1..]); }
  }

  /** The symptoms that lead nowhere. */
  ghost function Rootless(sources: PackSources, fs: seq<Finding>, ds: seq<Diagnosis>, out: seq<Diagnosis>): set<nat> {
    set i: nat | i < |ds| && i < |out| && out[i].priority == RELATED_SYMPTOM && !HasRoot(sources, fs, ds, out, i)
  }

  lemma RootlessIsTrapped(sources: PackSources, fs: seq<Finding>, ds: seq<Diagnosis>, out: seq<Diagnosis>)
    requires Prioritised(sources, fs, ds, out)
    ensures Trapped(sources, fs, ds, out, Rootless(sources, fs, ds, out))
  {
    hide ExplainsId, HasRoot, Prioritised, LeadsToRoot;
    var trap := Rootless(sources, fs, ds, out);
    assert |out| == |ds| by { PrioritisedLength(sources, fs, ds, out); }
    forall i, j: nat | i in trap && j < |ds| && ExplainsId(sources, fs, ds, ds[j], ds[i]) ensures j in trap {
      if j !in trap {
        ExplainerIsReal(sources, fs, ds, out, i, j);
        ChainFrom(sources, fs, ds, out, i, j);
      }
    }
  }

  lemma PrioritisedLength(sources: PackSources, fs: seq<Finding>, ds: seq<Diagnosis>, out: seq<Diagnosis>)
    requires Prioritised(sources, fs, ds, out)
    ensures |out| == |ds|
  {
  }

  /** What explains another diagnosis is a symptom itself or a reported root. */
  lemma ExplainerIsReal(sources: PackSources, fs: seq<Finding>, ds: seq<Diagnosis>, out: seq<Diagnosis>, i: nat, j: nat)
    requires Prioritised(sources, fs, ds, out) && i < |ds| && j < |ds| && ExplainsId(sources, fs, ds, ds[j], ds[i])
    ensures out[j].priority in {PRIMARY, SECONDARY_INDEPENDENT, RELATED_SYMPTOM}
  {
    hide Causes, IsHeadsUp;
    var d :| d in ds && d.id == ds[i].id && Causes(sources, fs, ds[j], d);
    CauseIsReal(sources, fs, ds[j], d);
    match out[j].priority
    case PRIMARY =>
    case SECONDARY_INDEPENDENT =>
    case RELATED_SYMPTOM =>
    case WARNING_BUCKET => assert false;
    case INFORMATIONAL => assert false;
  }

  lemma ChainFrom(sources: PackSources, fs: seq<Finding>, ds: seq<Diagnosis>, out: seq<Diagnosis>, i: nat, j: nat)
    requires i < |ds| == |out| && j < |ds| && ExplainsId(sources, fs, ds, ds[j], ds[i])
    requires out[j].priority in {PRIMARY, SECONDARY_INDEPENDENT} || HasRoot(sources, fs, ds, out, j)
    ensures HasRoot(sources, fs, ds, out, i)
  {
    hide ExplainsId;
    var rest: seq<nat>;
    if HasRoot(sources, fs, ds, out, j) {
      rest :| LeadsToRoot(sources, fs, ds, out, rest) && rest[0] == j;
    } else {
      rest := [j];
    }
    assert ([i] + rest)[1..] == rest;
    assert LeadsToRoot(sources, fs, ds, out, [i] + rest);
  }

  /** Every symptom leads to a reported root exactly when no symptoms are explained only by one another. */
  lemma RootsExactly(sources: PackSources, fs: seq<Finding>, ds: seq<Diagnosis>, out: seq<Diagnosis>)
    requires Prioritised(sources, fs, ds, out)
    ensures (forall i :: 0 <= i < |ds| == |out| && out[i].priority == RELATED_SYMPTOM ==> HasRoot(sources, fs, ds, out, i))
       <==> !exists trap: set<nat> :: trap != {} && Trapped(sources, fs, ds, out, trap)
  {
    hide HasRoot, Prioritised, Trapped;
    PrioritisedLength(sources, fs, ds, out);
    RootlessIsTrapped(sources, fs, ds, out);
    if forall i :: 0 <= i < |ds| == |out| && out[i].priority == RELATED_SYMPTOM ==> HasRoot(sources, fs, ds, out, i) {
      forall trap: set<nat> | trap != {} ensures !Trapped(sources, fs, ds, out, trap) {
        if Trapped(sources, fs, ds, out, trap) {
          var i :| i in trap;
          TrapIsSymptoms(sources, fs, ds, out, trap, i);
          TrappedHasNoRoot(sources, fs, ds, out, trap, i);
        }
      }
    } else {
      var i :| 0 <= i < |ds| && out[i].priority == RELATED_SYMPTOM && !HasRoot(sources, fs, ds, out, i);
      assert i in Rootless(sources, fs, ds, out);
    }
  }

  lemma TrappedHasNoRoot(sources: PackSources, fs: seq<Finding>, ds: seq<Diagnosis>, out: seq<Diagnosis>, trap: set<nat>, i: nat)
    requires Trapped(sources, fs, ds, out, trap) && i in trap
    ensures !HasRoot(sources, fs, ds, out, i)
  {
    hide Trapped, ExplainsId;
    forall chain | LeadsToRoot(sources, fs, ds, out, chain) ensures chain[0] != i { TrapHolds(sources, fs, ds, out, trap, chain); }
  }

  lemma TrapIsSymptoms(sources: PackSources, fs: seq<Finding>, ds: seq<Diagnosis>, out: seq<Diagnosis>, trap: set<nat>, i: nat)
    requires Trapped(sources, fs, ds, out, trap) && i in trap
    ensures i < |ds| == |out| && out[i].priority == RELATED_SYMPTOM
  {
  }

  /** Under the documented order of the packs, every symptom has a chain of causes that ends at a reported root. */
  lemma {:induction false} SymptomLeadsToRoot(sources: PackSources, fs: seq<Finding>, ds: seq<Diagnosis>, out: seq<Diagnosis>, at: nat)
    returns (chain: seq<nat>)
    requires Prioritised(sources, fs, ds, out) && at < |ds| && out[at].priority == RELATED_SYMPTOM
    requires forall d :: d in ds ==> RespectsOrder(d)
    ensures LeadsToRoot(sources, fs, ds, out, chain) && chain[0] == at
    decreases CausalRank(ds[at].id)
  {
    hide Prioritised, CausalRank, RespectsOrder, ExplainsId;
    var next := NextCause(sources, fs, ds, out, at);
    if out[next].priority == RELATED_SYMPTOM {
      var rest := SymptomLeadsToRoot(sources, fs, ds, out, next);
      chain := [at] + rest;
      assert chain[1..] == rest;
    } else {
      chain := [at, next];
      assert chain[1..] == [next];
      assert LeadsToRoot(sources, fs, ds, out, [next]);
    }
  }

  lemma {:induction false} EndsAtRoot(sources: PackSources, fs: seq<Finding>, ds: seq<Diagnosis>, out: seq<Diagnosis>, chain: seq<nat>)
    requires Prioritised(sources, fs, ds, out) && LeadsToRoot(sources, fs, ds, out, chain)
    ensures exists i :: 0 <= i < |ds| && IsRoot(sources, fs, ds, ds[i])
  {
    hide Causes, ExplainsId;
    if |chain| == 1 {
      assert IsRoot(sources, fs, ds, ds[chain[0]]);
    } else {
      EndsAtRoot(sources, fs, ds, out, chain[1..]);
    }
  }

  /** Under the documented order a PRIMARY exists unless every diagnosis is a heads-up nobody explains. */
  lemma PrimaryExists(sources: PackSources, fs: seq<Finding>, ds: seq<Diagnosis>, out: seq<Diagnosis>)
    requires Prioritised(sources, fs, ds, out)
    requires forall d :: d in ds ==> RespectsOrder(d)
    ensures (exists i :: 0 <= i < |out| && out[i].priority == PRIMARY) <==>
            exists i :: 0 <= i < |out| && out[i].priority != WARNING_BUCKET
  {
    if i :| 0 <= i < |out| && out[i].priority != WARNING_BUCKET && out[i].priority != PRIMARY {
      if out[i].priority == RELATED_SYMPTOM {
        var chain := SymptomLeadsToRoot(sources, fs, ds, out, i);
        EndsAtRoot(sources, fs, ds, out, chain);
      } else {
        assert IsRoot(sources, fs, ds, ds[i]);
      }
    }
  }

  /** Without that order the chain may never end: two packs that name each other leave no root at all. */
  lemma MutualUpstreamsHaveNoRoot(sources: PackSources, fs: seq<Finding>, a: Diagnosis, b: Diagnosis, out: seq<Diagnosis>)
    requires a.id == DiagnosisId(Dns, "x") && b.id == DiagnosisId(Kerberos, "y")
    requires a.upstream == [Kerberos] && b.upstream == [Dns] && a.notCausedBy == [] && b.notCausedBy == []
    requires forall d :: d in {a, b} ==>
               d.status == DIAGNOSED && d.severity == ERROR && d.evidenceSeverity == None && d.explainsDownstream
    requires Prioritised(sources, fs, [a, b], out)
    ensures out[0].priority == RELATED_SYMPTOM && out[1].priority == RELATED_SYMPTOM
    ensures Trapped(sources, fs, [a, b], out, {0, 1})
  {
    hide Causes, ExplainsId;
    assert a in [a, b] && b in [a, b];
    MutualCauses(sources, fs, a, b);
  }

  lemma MutualCauses(sources: PackSources, fs: seq<Finding>, a: Diagnosis, b: Diagnosis)
    requires a.id == DiagnosisId(Dns, "x") && b.id == DiagnosisId(Kerberos, "y")
    requires a.upstream == [Kerberos] && b.upstream == [Dns] && a.notCausedBy == [] && b.notCausedBy == []
    requires forall d :: d in {a, b} ==>
               d.status == DIAGNOSED && d.severity == ERROR && d.evidenceSeverity == None && d.explainsDownstream
    ensures Causes(sources, fs, b, a) && Causes(sources, fs, a, b)
  {
    hide ImplicitCause;
  }

  // ------------------------------------------------------------------ the overall status

  datatype Level = COMPLETE | PARTIAL | INSUFFICIENT_EVIDENCE

  /** How much of the evidence was collected; a collection error is known by its collector. */
  function LevelOf(errors: seq<string>): Level {
    if "ipa-healthcheck" in errors then INSUFFICIENT_EVIDENCE
    else if errors != [] then PARTIAL
    else COMPLETE
  }

  /** The highest severity rank, SUCCESS when there is no diagnosis. */
  function MaxRank(ds: seq<Diagnosis>): (r: nat)
    ensures forall d {:trigger d in ds} :: d in ds ==> d.severity.Rank() <= r
    ensures r > 0 ==> exists d :: d in ds && d.severity.Rank() == r
  {
    if ds == [] then 0
    else
      assert ds == [ds[0]] + ds[1..];
      var rest := MaxRank(ds[1..]);
      if ds[0].severity.Rank() >= rest then ds[0].severity.Rank() else rest
  }

  function OverallOf(ds: seq<Diagnosis>): OverallStatus {
    if ds == [] then HEALTHY
    else if (exists d :: d in ds && d.priority == PRIMARY && d.status != DIAGNOSED) && MaxRank(ds) >= ERROR.Rank() then UNKNOWN_STATUS
    else if MaxRank(ds) >= CRITICAL.Rank() then CRITICAL_STATUS
    else if MaxRank(ds) >= ERROR.Rank() then DEGRADED
    else if exists d :: d in ds && d.priority != INFORMATIONAL then DEGRADED
    else HEALTHY
  }

  function ApplyCompleteness(status: OverallStatus, level: Level, undiagnosed: bool): OverallStatus {
    if level == INSUFFICIENT_EVIDENCE && status in {HEALTHY, UNKNOWN_STATUS, NOT_FULLY_VERIFIED} then UNKNOWN_STATUS
    else if status == UNKNOWN_STATUS then NOT_FULLY_VERIFIED
    else if status != HEALTHY then status
    else if level == PARTIAL || undiagnosed then NOT_FULLY_VERIFIED
    else HEALTHY
  }

  // ------------------------------------------------------------------ findings no rule explains

  /** A finding counts as explained only by a positive citation under an id no other finding shares. */
  predicate IsExplained(fs: seq<Finding>, ds: seq<Diagnosis>, f: Finding) {
    f.id in CitedIds(ds) && IdCount(fs, f.id) == 1
  }

  /** ... that is, some diagnosis cites it as positive evidence, and it is the only finding of its id. */
  lemma ExplainedExactly(fs: seq<Finding>, ds: seq<Diagnosis>, f: Finding)
    requires f in fs
    ensures IsExplained(fs, ds, f) <==>
              && (exists d, r :: d in ds && r in d.evidenceFor && r.id == f.id)
              && forall i, j :: 0 <= i < j < |fs| ==> !(fs[i].id == f.id && fs[j].id == f.id)
  {
    IdsCounted(fs, f.id);
    var k :| 0 <= k < |fs| && fs[k] == f;
    if d, r :| d in ds && r in d.evidenceFor && r.id == f.id { assert Engine.Cites(d, f.id); }
  }

  lemma {:induction false} IdsCounted(fs: seq<Finding>, id: string)
    ensures IdCount(fs, id) == 0 <==> forall i :: 0 <= i < |fs| ==> fs[i].id != id
    ensures IdCount(fs, id) <= 1 <==> forall i, j :: 0 <= i < j < |fs| ==> !(fs[i].id == id && fs[j].id == id)
  {
    if fs != [] {
      IdsCounted(fs[1..], id);
      assert forall i :: 0 <= i < |fs[1..]| ==> fs[1..][i] == fs[i + 1];
      if forall i, j :: 0 <= i < j < |fs| ==> !(fs[i].id == id && fs[j].id == id) {
        assert fs[0].id == id ==> forall j :: 0 < j < |fs| ==> fs[j].id != id;
      }
      if fs[0].id == id && IdCount(fs[1..], id) > 0 {
        var i :| 0 <= i < |fs[1..]| && fs[1..][i].id == id;
        assert fs[0].id == id && fs[i + 1].id == id;
      }
      if IdCount(fs[1..], id) > 1 {
        var i, j :| 0 <= i < j < |fs[1..]| && fs[1..][i].id == id && fs[1..][j].id == id;
        assert fs[i + 1].id == id && fs[j + 1].id == id;
      }
    }
  }

  predicate IsListed(fs: seq<Finding>, ds: seq<Diagnosis>, f: Finding) {
    f.severity != SUCCESS && !IsExplained(fs, ds, f)
  }

  function Listed(all: seq<Finding>, fs: seq<Finding>, ds: seq<Diagnosis>): (r: seq<Finding>)
    ensures forall f {:trigger f in r} :: f in r <==> f in fs && IsListed(all, ds, f)
  {
    if fs == [] then []
    else
      assert fs == [fs[0]] + fs[1..];
      (if IsListed(all, ds, fs[0]) then [fs[0]] else []) + Listed(all, fs[1..], ds)
  }

  function SeverityOrder(s: Severity): nat {
    match s
    case CRITICAL => 4
    case ERROR => 3
    case UNKNOWN => 3
    case WARNING => 1
    case SUCCESS => 2
  }

  const BY_SEVERITY: (Finding, Finding) -> bool := (a: Finding, b: Finding) =>
    SeverityOrder(a.severity) > SeverityOrder(b.severity)
    || (SeverityOrder(a.severity) == SeverityOrder(b.severity)
        && (TextLess(a.source, b.source) || (a.source == b.source && TextLess(a.check, b.check))))

  /** The worst findings come first, and within one severity the order is by source and check. */
  lemma WorstFirst(s: seq<Finding>, i: nat, j: nat)
    requires SortedBy(s, BY_SEVERITY) && i < j < |s|
    ensures s[j].severity == CRITICAL ==> s[i].severity == CRITICAL
    ensures s[j].severity in {ERROR, UNKNOWN} ==> s[i].severity in {CRITICAL, ERROR, UNKNOWN}
    ensures s[j].severity == SUCCESS ==> s[i].severity != WARNING
    ensures s[i].severity == s[j].severity ==>
              !TextLess(s[j].source, s[i].source) && (s[i].source == s[j].source ==> !TextLess(s[j].check, s[i].check))
  {
  }

  lemma SeverityIsOrder()
    ensures IsOrder(BY_SEVERITY)
  {
    hide SeverityOrder;
    forall a, b ensures TextOrder(a, b) { TextIsOrder(a, b); }
    forall a, b, c ensures TextLess(a, b) && TextLess(b, c) ==> TextLess(a, c) { TextLessJoin(a, b, c); }
    forall x: Finding, y: Finding, z: Finding
      ensures BY_SEVERITY(x, y) ==> !BY_SEVERITY(y, x)
      ensures !BY_SEVERITY(y, x) && !BY_SEVERITY(z, y) ==> !BY_SEVERITY(z, x)
    {
      assert TextOrder(x.source, y.source) && TextOrder(y.source, z.source) && TextOrder(x.source, z.source);
      assert TextOrder(x.check, y.check) && TextOrder(y.check, z.check) && TextOrder(x.check, z.check);
    }
  }

  /** Every finding that is not a success and that no diagnosis explains, the worst first. None is lost, none is added,
      and a finding that occurs twice is listed twice. */
  method UndiagnosedFindings(fs: seq<Finding>, ds: seq<Diagnosis>) returns (out: seq<Finding>)
    ensures SortedBy(out, BY_SEVERITY)
    ensures multiset(out) == multiset(Listed(fs, fs, ds))
    ensures forall f :: f in fs && f.severity != SUCCESS ==> (f in out <==> !IsExplained(fs, ds, f))
    ensures out == [] <==> forall f :: f in fs ==> f.severity == SUCCESS || IsExplained(fs, ds, f)
  {
    hide IsExplained, SortedBy, SortBy;
    var i := 0;
    out := [];
    while i < |fs|
      invariant 0 <= i <= |fs| && out + Listed(fs, fs[i..], ds) == Listed(fs, fs, ds)
    {
      if IsListed(fs, ds, fs[i]) {
        out := out + [fs[i]];
      }
      i := i + 1;
    }
    assert out == Listed(fs, fs, ds);
    SortedFindings(out);
    assert out != [] ==> out[0] in out;
    out := SortBy(out, BY_SEVERITY);
  }

  lemma SortedFindings(listed: seq<Finding>)
    ensures
      var out := SortBy(listed, BY_SEVERITY);
      && multiset(out) == multiset(listed) && SortedBy(out, BY_SEVERITY) && (out == [] <==> listed == [])
      && forall f {:trigger f in out} :: f in out <==> f in listed
  {
    hide IsOrder, SortedBy, SeverityOrder;
    SortByElements(listed, BY_SEVERITY);
    SeverityIsOrder();
    SortBySorted(listed, BY_SEVERITY);
  }

  // ------------------------------------------------------------------ the report

  datatype Report = Report(overall: OverallStatus, diagnoses: seq<Diagnosis>, undiagnosed: seq<Finding>, level: Level)

  function BucketOrder(p: Priority): nat {
    match p
    case PRIMARY => 0
    case SECONDARY_INDEPENDENT => 1
    case RELATED_SYMPTOM => 2
    case WARNING_BUCKET => 3
    case INFORMATIONAL => 4
  }

  const BY_BUCKET: (Diagnosis, Diagnosis) -> bool := (a: Diagnosis, b: Diagnosis) =>
    BucketOrder(a.priority) < BucketOrder(b.priority) || (a.priority == b.priority && Score(a) > Score(b))

  /** The report begins with the primary problem, then come the independent ones, the symptoms and the warnings, each bucket
      by falling score. */
  lemma BucketsInOrder(s: seq<Diagnosis>, i: nat, j: nat)
    requires SortedBy(s, BY_BUCKET) && i < j < |s|
    ensures s[j].priority == PRIMARY ==> s[i].priority == PRIMARY
    ensures s[j].priority == SECONDARY_INDEPENDENT ==> s[i].priority in {PRIMARY, SECONDARY_INDEPENDENT}
    ensures s[j].priority == RELATED_SYMPTOM ==> s[i].priority in {PRIMARY, SECONDARY_INDEPENDENT, RELATED_SYMPTOM}
    ensures s[j].priority == WARNING_BUCKET ==> s[i].priority != INFORMATIONAL
    ensures s[i].priority == s[j].priority ==> Score(s[j]) <= Score(s[i])
  {
    hide Score;
  }

  const CERTMONGER: DiagnosisId := DiagnosisId(Healthcheck, STOPPED + "certmonger")

  /** ipa-healthcheck started certmonger during this run: "not running" is no current outage. */
  function Softened(certmongerStarted: bool, d: Diagnosis): Diagnosis {
    if certmongerStarted && d.id == CERTMONGER then d.(severity := WARNING) else d
  }

  lemma BucketIsOrder()
    ensures IsOrder(BY_BUCKET)
  {
    hide Score;
  }

  ghost predicate AnyCritical(out: seq<Diagnosis>) { exists i :: 0 <= i < |out| && out[i].severity == CRITICAL }

  /** Some diagnosis is an error or worse; an unrecognized severity counts as an error. */
  ghost predicate AnySevere(out: seq<Diagnosis>) {
    exists i :: 0 <= i < |out| && out[i].severity in {ERROR, UNKNOWN, CRITICAL}
  }

  /** The primary problem, or one of them, has no established cause. */
  ghost predicate Unresolved(out: seq<Diagnosis>) {
    exists i :: 0 <= i < |out| && out[i].priority == PRIMARY && out[i].status != DIAGNOSED
  }

  /** Builds the report. The diagnoses keep everything but their bucket, and the certmonger outage its severity. */
  method BuildReport(sources: PackSources, fs: seq<Finding>, errors: seq<string>, certmongerStarted: bool, given: seq<Diagnosis>)
    returns (r: Report, ghost ds: seq<Diagnosis>, ghost out: seq<Diagnosis>)
    ensures |ds| == |given| && forall i :: 0 <= i < |ds| ==> ds[i] == Softened(certmongerStarted, given[i])
    ensures forall i :: 0 <= i < |ds| ==>
              ds[i] == given[i].(severity :=
                if certmongerStarted && given[i].id == DiagnosisId(Healthcheck, "service-not-running-certmonger") then WARNING
                else given[i].severity)
    ensures Prioritised(sources, fs, ds, out) && multiset(r.diagnoses) == multiset(out)
    ensures SortedBy(r.diagnoses, BY_BUCKET) && SortedBy(r.undiagnosed, BY_SEVERITY)
    ensures forall f :: f in fs && f.severity != SUCCESS ==> (f in r.undiagnosed <==> !IsExplained(fs, given, f))
    ensures r.level == LevelOf(errors)
    ensures r.level == INSUFFICIENT_EVIDENCE <==> "ipa-healthcheck" in errors
    ensures r.level == COMPLETE <==> errors == []
    // healthy means what it says
    ensures r.overall == HEALTHY <==> given == [] && errors == [] && forall f :: f in fs ==> f.severity == SUCCESS
    // a found problem survives every gap in the evidence
    ensures r.overall == CRITICAL_STATUS <==> AnyCritical(out) && !Unresolved(out)
    ensures r.overall == DEGRADED <==> out != [] && !AnyCritical(out) && (AnySevere(out) ==> !Unresolved(out))
    // without one, the evidence decides
    ensures r.overall == UNKNOWN_STATUS <==> "ipa-healthcheck" in errors && (out != [] ==> AnySevere(out) && Unresolved(out))
    ensures r.overall == NOT_FULLY_VERIFIED <==>
            && "ipa-healthcheck" !in errors
            && if out != [] then AnySevere(out) && Unresolved(out)
               else errors != [] || !(forall f :: f in fs ==> f.severity == SUCCESS)
  {
    hide Prioritised, IsExplained, Score, SortedBy, IsOrder, OverallOf, AnyCritical, AnySevere, Unresolved, ApplyCompleteness,
         LevelOf, Softened;
    var softened: seq<Diagnosis> := [];
    var i := 0;
    while i < |given|
      invariant 0 <= i <= |given| && |softened| == i
      invariant forall j :: 0 <= j < i ==> softened[j] == Softened(certmongerStarted, given[j])
    {
      softened := softened + [Softened(certmongerStarted, given[i])];
      i := i + 1;
    }
    ds := softened;
    forall i | 0 <= i < |ds| { OnlyCertmonger(certmongerStarted, given[i]); }
    LevelIs(errors);
    var prioritised := AssignPriorities(sources, fs, softened);
    out := prioritised;
    var undiagnosed := UndiagnosedFindings(fs, prioritised);
    SameCitations(sources, fs, certmongerStarted, given, ds, out);
    NothingInformational(sources, fs, ds, out);
    OverallIsExact(out, errors, undiagnosed != []);
    assert given == [] ==> (undiagnosed == [] <==> forall f :: f in fs ==> f.severity == SUCCESS);
    BucketIsOrder();
    SortBySorted(prioritised, BY_BUCKET);
    r := Report(ApplyCompleteness(OverallOf(prioritised), LevelOf(errors), undiagnosed != []),
                SortBy(prioritised, BY_BUCKET), undiagnosed, LevelOf(errors));
  }

  lemma OnlyCertmonger(certmongerStarted: bool, d: Diagnosis)
    ensures Softened(certmongerStarted, d)
         == d.(severity := if certmongerStarted && d.id == DiagnosisId(Healthcheck, "service-not-running-certmonger")
                           then WARNING else d.severity)
  {
    assert STOPPED + "certmonger" == "service-not-running-certmonger";
  }

  lemma LevelIs(errors: seq<string>)
    ensures LevelOf(errors) == INSUFFICIENT_EVIDENCE <==> "ipa-healthcheck" in errors
    ensures LevelOf(errors) == COMPLETE <==> errors == []
  {
  }

  lemma SameCitations(sources: PackSources, fs: seq<Finding>, certmongerStarted: bool, given: seq<Diagnosis>,
                      ds: seq<Diagnosis>, out: seq<Diagnosis>)
    requires |ds| == |given| && forall i :: 0 <= i < |ds| ==> ds[i] == Softened(certmongerStarted, given[i])
    requires Prioritised(sources, fs, ds, out)
    ensures CitedIds(out) == CitedIds(given) && |out| == |given|
    ensures forall f :: IsExplained(fs, out, f) == IsExplained(fs, given, f)
    ensures given == [] ==> forall f :: !IsExplained(fs, given, f)
  {
  }

  /** What the diagnoses alone make of the status. */
  lemma StatusIsExact(out: seq<Diagnosis>)
    requires forall i :: 0 <= i < |out| ==> out[i].priority != INFORMATIONAL
    ensures OverallOf(out) == CRITICAL_STATUS <==> AnyCritical(out) && !Unresolved(out)
    ensures OverallOf(out) == DEGRADED <==> out != [] && !AnyCritical(out) && (AnySevere(out) ==> !Unresolved(out))
    ensures OverallOf(out) == UNKNOWN_STATUS <==> AnySevere(out) && Unresolved(out)
    ensures OverallOf(out) == HEALTHY <==> out == []
  {
    RanksReached(out);
    if out != [] { assert out[0] in out && out[0].priority != INFORMATIONAL; }
    if d :| d in out && d.priority == PRIMARY && d.status != DIAGNOSED {
      var i :| 0 <= i < |out| && out[i] == d;
    }
    if i :| 0 <= i < |out| && out[i].priority == PRIMARY && out[i].status != DIAGNOSED { assert out[i] in out; }
  }

  /** ... and what the collected evidence adds. */
  lemma OverallIsExact(out: seq<Diagnosis>, errors: seq<string>, undiagnosed: bool)
    requires forall i :: 0 <= i < |out| ==> out[i].priority != INFORMATIONAL
    ensures
      var overall := ApplyCompleteness(OverallOf(out), LevelOf(errors), undiagnosed);
      && (overall == HEALTHY <==> out == [] && errors == [] && !undiagnosed)
      && (overall == CRITICAL_STATUS <==> AnyCritical(out) && !Unresolved(out))
      && (overall == DEGRADED <==> out != [] && !AnyCritical(out) && (AnySevere(out) ==> !Unresolved(out)))
      && (overall == UNKNOWN_STATUS <==> "ipa-healthcheck" in errors && (out != [] ==> AnySevere(out) && Unresolved(out)))
      && (overall == NOT_FULLY_VERIFIED <==>
            && "ipa-healthcheck" !in errors
            && if out != [] then AnySevere(out) && Unresolved(out) else errors != [] || undiagnosed)
  {
    hide OverallOf;
    StatusIsExact(out);
    assert AnyCritical(out) ==> AnySevere(out);
  }

  lemma RanksReached(out: seq<Diagnosis>)
    ensures MaxRank(out) >= CRITICAL.Rank() <==> AnyCritical(out)
    ensures MaxRank(out) >= ERROR.Rank() <==> AnySevere(out)
  {
    if MaxRank(out) > 0 {
      var d :| d in out && d.severity.Rank() == MaxRank(out);
      var i :| 0 <= i < |out| && out[i] == d;
    }
    if i :| 0 <= i < |out| && out[i].severity == CRITICAL { assert out[i] in out; }
    if i :| 0 <= i < |out| && out[i].severity in {ERROR, UNKNOWN, CRITICAL} { assert out[i] in out; }
  }

  lemma NothingInformational(sources: PackSources, fs: seq<Finding>, ds: seq<Diagnosis>, out: seq<Diagnosis>)
    requires Prioritised(sources, fs, ds, out)
    ensures forall i :: 0 <= i < |out| ==> out[i].priority != INFORMATIONAL
  {
    hide Demoted, IsRoot, Outranks, IsHeadsUp;
  }
}
