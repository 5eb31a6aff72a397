/** The data of one server diagnosis: findings, diagnoses, severities, and how diagnoses are identified. */
module Engine {
  import opened Common

  datatype Severity = SUCCESS | WARNING | ERROR | CRITICAL | UNKNOWN {
    /** An unrecognized severity ranks with ERROR. */
    function Rank(): nat {
      match this
      case SUCCESS => 0
      case WARNING => 1
      case ERROR => 2
      case UNKNOWN => 2
      case CRITICAL => 3
    }
  }

  lemma RanksInOrder()
    ensures SUCCESS.Rank() < WARNING.Rank() < ERROR.Rank() == UNKNOWN.Rank() < CRITICAL.Rank()
  {
  }

  datatype DiagnosisStatus = DIAGNOSED | UNKNOWN_CONFLICTING_EVIDENCE | UNKNOWN_INSUFFICIENT_EVIDENCE | TRANSIENT_SUSPECTED

  datatype ConfidenceLevel = HIGH | MEDIUM | LOW | INSUFFICIENT

  datatype Priority = PRIMARY | SECONDARY_INDEPENDENT | RELATED_SYMPTOM | WARNING_BUCKET | INFORMATIONAL

  datatype OverallStatus = HEALTHY | DEGRADED | CRITICAL_STATUS | UNKNOWN_STATUS | NOT_FULLY_VERIFIED

  /** The five registered packs, and the pseudo pack of the safety net. */
  datatype Pack = DirectoryServer | Dns | Kerberos | Replication | Certificates | Healthcheck

  datatype EvidenceRef = EvidenceRef(id: string, ofFinding: bool)

  /** A diagnosis is identified by its pack and its rule. */
  datatype DiagnosisId = DiagnosisId(pack: Pack, rule: string)

  datatype Diagnosis = Diagnosis(
    id: DiagnosisId, status: DiagnosisStatus, confidence: ConfidenceLevel, corroborating: nat,
    severity: Severity, evidenceSeverity: Option<Severity>,
    evidenceFor: seq<EvidenceRef>, evidenceAgainst: seq<EvidenceRef>,
    upstream: seq<Pack>, notCausedBy: seq<Pack>, explainsDownstream: bool, priority: Priority)

  /** One ipa-healthcheck result. `crashed`: the check raised an exception instead of answering. `stopped`: the service
      a service check reports as not running. */
  datatype Finding = Finding(id: string, source: string, check: string, severity: Severity, crashed: bool, stopped: Option<string>)

  // ------------------------------------------------------------------ text helpers

  predicate StartsWith(s: string, prefix: string) { prefix <= s }

  /** The part of a unit name before its instance. */
  function BeforeAt(s: string): (r: string)
    ensures r <= s
    ensures s != [] && s[0] != '@' ==> r != []
  {
    if s == [] || s[0] == '@' then [] else [s[0]] + BeforeAt(s[1..])
  }

  lemma {:induction false} NoInstance(s: string)
    requires '@' !in s
    ensures BeforeAt(s) == s
  {
    if s != [] {
      assert s == [s[0]] + s[1..];
      NoInstance(s[1..]);
    }
  }

  // ------------------------------------------------------------------ stopped services

  const STOPPED: string := "service-not-running-"

  predicate IsStoppedService(id: DiagnosisId) { id.pack == Healthcheck && StartsWith(id.rule, STOPPED) }

  /** The service a "not running" rule is about. */
  function ServiceOf(id: DiagnosisId): string {
    if StartsWith(id.rule, STOPPED) then id.rule[|STOPPED|..] else ""
  }

  predicate StoppedExactly(id: DiagnosisId, service: string) { IsStoppedService(id) && ServiceOf(id) == service }

  predicate StoppedPrefix(id: DiagnosisId, prefix: string) { IsStoppedService(id) && StartsWith(ServiceOf(id), prefix) }

  /** The pack that depends on a service. */
  function ServicePack(service: string): Pack {
    if service == "dirsrv" then DirectoryServer
    else if service == "krb5kdc" then Kerberos
    else if service == "named" || service == "named-pkcs11" then Dns
    else if service == "pki-tomcatd" || service == "pki_tomcatd" || service == "certmonger" then Certificates
    else Healthcheck
  }

  /** A stopped service stands for the pack that depends on it. */
  function EffectivePack(id: DiagnosisId): Pack {
    if IsStoppedService(id) then ServicePack(BeforeAt(ServiceOf(id))) else id.pack
  }

  // ------------------------------------------------------------------ severity and score

  function EvidenceRank(d: Diagnosis): nat {
    match d.evidenceSeverity
    case None => d.severity.Rank()
    case Some(e) => if e.Rank() < d.severity.Rank() then e.Rank() else d.severity.Rank()
  }

  function StatusWeight(s: DiagnosisStatus): real {
    match s
    case DIAGNOSED => 1.0
    case UNKNOWN_CONFLICTING_EVIDENCE => 0.85
    case UNKNOWN_INSUFFICIENT_EVIDENCE => 0.7
    case TRANSIENT_SUSPECTED => 0.5
  }

  function ConfidenceWeight(c: ConfidenceLevel): real {
    match c
    case HIGH => 1.0
    case MEDIUM => 0.7
    case LOW => 0.4
    case INSUFFICIENT => 0.2
  }

  function Score(d: Diagnosis): real {
    (EvidenceRank(d) + 1) as real * StatusWeight(d.status) * ConfidenceWeight(d.confidence)
    * (1.0 + 0.05 * (if d.corroborating < 6 then d.corroborating else 6) as real)
  }

  predicate IsRealProblem(d: Diagnosis) { d.severity.Rank() >= ERROR.Rank() }

  /** A benign heads-up: never a root cause, never demoted further. */
  predicate IsHeadsUp(d: Diagnosis) { d.severity == WARNING && d.status == DIAGNOSED }

  // ------------------------------------------------------------------ citations

  predicate Cites(d: Diagnosis, id: string) { exists r :: r in d.evidenceFor && r.id == id }

  predicate CitesAgainst(d: Diagnosis, id: string) { exists r :: r in d.evidenceAgainst && r.id == id }

  /** Ids cited as positive evidence by some diagnosis. */
  function CitedIds(ds: seq<Diagnosis>): (s: set<string>)
    ensures forall id {:trigger id in s} :: id in s <==> exists d :: d in ds && Cites(d, id)
  {
    set d, r | d in ds && r in d.evidenceFor :: r.id
  }

  /** Ids some diagnosis claims, as evidence for or against. */
  function ClaimedIds(ds: seq<Diagnosis>): (s: set<string>)
    ensures forall id {:trigger id in s} :: id in s <==> exists d :: d in ds && (Cites(d, id) || CitesAgainst(d, id))
  {
    CitedIds(ds) + set d, r | d in ds && r in d.evidenceAgainst :: r.id
  }

  /** How many findings carry this id. */
  function IdCount(fs: seq<Finding>, id: string): nat {
    if fs == [] then 0 else (if fs[0].id == id then 1 else 0) + IdCount(fs[1..], id)
  }
}
