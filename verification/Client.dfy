/** Client mode: what the steps of a trace are diagnosed as, what is blamed on what, and which verdicts follow. */
module Client {
  import opened Common

  datatype Outcome = PASS | WARN | FAIL | UNKNOWN | SKIPPED

  datatype Step = Enroll | Sssd | DnsServer | DnsResolvers | DnsSrvLdap | DnsSrvKerberos | NetHttps | NetLdap | NetKdc
    | TlsTrust | TimeServer | TimeLocal | HostKeytab | Krb | SssdConfig | SssdService | SssdLogs | SssdDomain | CacheFiles
    | CacheEntry | IdUser | IdGroup | IpaUser | NssSystem | NssSwitch | PamStack | PamAcct

  /** The values that rules look for, and any other text. */
  datatype Word = Absent | ResolverTimeout | NoResolver | Missing | PrincipalMissing | Permissions | ClockSkew
    | KdcUnresolvable | KdcUnreachable | PrincipalUnknown | KeyRejected | KeytabNoEntry | CacheDb | Offline | Erroneous
    | Present | Expired | PermissionDenied | AuthinfoUnavail | Srv | Empty | Else(text: string)

  /** What a step established. `known`: IPA has the user; `qualified`: SSSD expects qualified names; `servers`: those that
      SSSD lists. */
  datatype FactSet = FactSet(
    state: Option<Word>, kind: Option<Word>, error: Option<Word>, result: Option<Word>,
    known: Option<bool>, qualified: Option<bool>, mismatch: Option<bool>, authSss: Option<bool>, accountSss: Option<bool>,
    servers: seq<Word>, signals: seq<Word>)

  const NO_FACTS := FactSet(None, None, None, None, None, None, None, None, None, [], [])

  datatype Record = Record(outcome: Outcome, facts: FactSet)

  type Trace = map<Step, Record>

  /** Whether a user was given, and whether FreeIPA's own decision is known to allow the login. */
  datatype Inputs = Inputs(user: bool, hbacAllows: bool)

  predicate Is(t: Trace, step: Step, o: Outcome) { step in t && t[step].outcome == o }

  /** A step that was skipped has no facts. */
  function Facts(t: Trace, step: Step): FactSet {
    if step in t && t[step].outcome != SKIPPED then t[step].facts else NO_FACTS
  }

  datatype Capability = ENROLLMENT | SSSD_CONFIG | DNS | SSSD_SERVICE | NETWORK | TLS | TIME | KEYTAB | KERBEROS
    | SSSD_BACKEND | IDENTITY | CACHE | NSS | PAM

  function Layer(c: Capability): nat {
    match c
    case ENROLLMENT => 0
    case SSSD_CONFIG => 1
    case DNS => 2
    case SSSD_SERVICE => 2
    case NETWORK => 3
    case TLS => 4
    case TIME => 4
    case KEYTAB => 5
    case KERBEROS => 6
    case SSSD_BACKEND => 7
    case IDENTITY => 8
    case CACHE => 8
    case NSS => 9
    case PAM => 10
  }

  /** From the enrollment up to the login. */
  lemma LayersRise()
    ensures Layer(ENROLLMENT) < Layer(SSSD_CONFIG) < Layer(DNS) == Layer(SSSD_SERVICE) < Layer(NETWORK) < Layer(TLS) == Layer(TIME)
    ensures Layer(TIME) < Layer(KEYTAB) < Layer(KERBEROS) < Layer(SSSD_BACKEND) < Layer(IDENTITY) == Layer(CACHE)
    ensures Layer(CACHE) < Layer(NSS) < Layer(PAM)
  {
  }

  /** In the order in which they are added. `SSSD_CACHE_DB_LATER` is the second place that adds an SSSD_CACHE_DB_ERROR. */
  datatype Code =
    | CLIENT_CONFIG_INCOMPLETE | SSSD_NOT_CONFIGURED | HOSTNAME_MISMATCH
    | DNS_NO_RESOLVER | DNS_RESOLVER_NOT_ANSWERING | DNS_SERVER_UNRESOLVABLE | DNS_SRV_QUERY_FAILED | DNS_SRV_MISSING
    | SERVER_UNREACHABLE | LDAP_UNREACHABLE | HTTPS_UNREACHABLE | CA_TRUST_FAILED
    | CLOCK_SKEW | CLOCK_DRIFT | NTP_NOT_SYNCHRONIZED
    | HOST_KEYTAB_MISSING | HOST_KEYTAB_WRONG_PRINCIPAL | HOST_KEYTAB_UNREADABLE | HOST_KEYTAB_PERMISSIONS
    | KDC_NOT_RESOLVABLE | KDC_UNREACHABLE | HOST_PRINCIPAL_UNKNOWN | HOST_KEY_REJECTED | KERBEROS_FAILED
    | SSSD_CONFIG_INVALID | SSSD_CACHE_DB_ERROR | SSSD_NOT_RUNNING | SSSD_OFFLINE
    | IDENTITY_LOOKUP_FAILS | USER_NOT_IN_IPA | NAME_NOT_QUALIFIED | SSSD_CACHE_DB_LATER | SSSD_CACHE_INCONSISTENT
    | IDENTITY_LOOKUP_FAILS_GENERAL
    | NSS_NOT_USING_SSSD | PAM_ACCOUNT_WITHOUT_SSSD | PAM_SERVICE_WITHOUT_SSSD | PAM_AUTH_WITHOUT_SSSD
    | RUNTIME_ACCOUNT_DENIED_LOCAL | RUNTIME_DENIED_HBAC_ALLOWS | RUNTIME_ACCOUNT_DENIED | RUNTIME_ACCOUNT_UNAVAILABLE
    | RUNTIME_ACCOUNT_FAILED
    | CLIENT_NOT_ENROLLED

  datatype Kind = Undiagnosed | Contradicting

  datatype Role = PRIMARY | INDEPENDENT | UNDIAGNOSED | CONTRADICTING | RELATED | WARNING

  /** `fails`: severity FAIL, otherwise WARN. */
  datatype Diagnosis = Diagnosis(
    code: Code, capability: Capability, fails: bool, relatedTo: Option<Code>, kind: Option<Kind>,
    blocksRuntime: bool, blocksAuth: bool, role: Option<Role>)

  function Cause(code: Code, c: Capability, blocksRuntime: bool, blocksAuth: bool): Diagnosis {
    Diagnosis(code, c, true, None, None, blocksRuntime, blocksAuth, None)
  }

  function Warns(code: Code, c: Capability): Diagnosis { Diagnosis(code, c, false, None, None, false, false, None) }

  // ------------------------------------------------------------------ readings shared by several rules

  predicate NotEnrolled(t: Trace) { Is(t, Enroll, FAIL) && Facts(t, Enroll).state == Some(Absent) }

  predicate AnySrvKind(t: Trace, kinds: set<Word>) {
    || (Facts(t, DnsSrvLdap).kind.Some? && Facts(t, DnsSrvLdap).kind.value in kinds)
    || (Facts(t, DnsSrvKerberos).kind.Some? && Facts(t, DnsSrvKerberos).kind.value in kinds)
  }

  predicate SrvFails(t: Trace, step: Step, missing: bool) {
    Is(t, step, FAIL) && (Facts(t, step).kind == Some(Missing)) == missing
  }

  predicate AnySrvFails(t: Trace, missing: bool) {
    SrvFails(t, DnsSrvLdap, missing) || SrvFails(t, DnsSrvKerberos, missing)
  }

  /** SSSD lists a server besides the one found through SRV records. */
  predicate HasFixedServer(t: Trace) {
    exists i :: 0 <= i < |Facts(t, Sssd).servers| && Facts(t, Sssd).servers[i] != Srv
  }

  /** The KDC's error class, empty when the host key worked or was not tried. */
  function KrbError(t: Trace): Word {
    if Is(t, Krb, FAIL) && Facts(t, Krb).error.Some? then Facts(t, Krb).error.value else Empty
  }

  function KrbSrvKind(t: Trace): Option<Word> {
    if Is(t, DnsSrvKerberos, FAIL) || Is(t, DnsSrvKerberos, WARN) then Facts(t, DnsSrvKerberos).kind else None
  }

  predicate Signals(t: Trace, signal: Word) { signal in Facts(t, SssdLogs).signals }

  predicate CacheDbBad(t: Trace) {
    Signals(t, CacheDb) || Facts(t, CacheEntry).state == Some(Erroneous) || Is(t, CacheFiles, FAIL)
  }

  predicate CacheEntryHeld(t: Trace) { Facts(t, CacheEntry).state in {Some(Present), Some(Expired)} }

  /** SSSD does not know the user although IPA has it and SSSD is online. */
  predicate KnownButUnresolved(t: Trace, who: Inputs) {
    && who.user && Is(t, IdUser, FAIL) && Facts(t, IpaUser).known == Some(true) && Is(t, SssdDomain, PASS)
  }

  predicate ExpectsQualified(t: Trace) { Facts(t, Sssd).qualified == Some(true) }

  predicate AccountDenied(t: Trace) { Is(t, PamAcct, FAIL) && Facts(t, PamAcct).result == Some(PermissionDenied) }

  predicate AccountWithoutSssd(t: Trace) { Facts(t, PamStack).accountSss == Some(false) }

  // ------------------------------------------------------------------ the table of rules

  /** When a diagnosis is added, on an enrolled host. */
  predicate When(t: Trace, who: Inputs, c: Code) {
    match c
    case CLIENT_CONFIG_INCOMPLETE => Is(t, Enroll, FAIL)
    case SSSD_NOT_CONFIGURED => Is(t, Sssd, FAIL)
    case HOSTNAME_MISMATCH => Is(t, Sssd, WARN) && Facts(t, Sssd).mismatch == Some(true)
    case DNS_NO_RESOLVER => Is(t, DnsServer, FAIL) && Is(t, DnsResolvers, FAIL)
    case DNS_RESOLVER_NOT_ANSWERING =>
      Is(t, DnsServer, FAIL) && !Is(t, DnsResolvers, FAIL) && AnySrvKind(t, {ResolverTimeout, NoResolver})
    case DNS_SERVER_UNRESOLVABLE =>
      Is(t, DnsServer, FAIL) && !Is(t, DnsResolvers, FAIL) && !AnySrvKind(t, {ResolverTimeout, NoResolver})
    case DNS_SRV_QUERY_FAILED => !Is(t, DnsServer, FAIL) && AnySrvFails(t, false)
    case DNS_SRV_MISSING => !Is(t, DnsServer, FAIL) && AnySrvFails(t, true)
    case SERVER_UNREACHABLE => Is(t, DnsServer, PASS) && Is(t, NetHttps, FAIL) && Is(t, NetLdap, FAIL)
    case LDAP_UNREACHABLE => Is(t, NetLdap, FAIL) && Is(t, NetHttps, PASS)
    case HTTPS_UNREACHABLE => Is(t, NetHttps, FAIL) && Is(t, NetLdap, PASS)
    case CA_TRUST_FAILED => Is(t, TlsTrust, FAIL)
    case CLOCK_SKEW => Is(t, TimeServer, FAIL) || KrbError(t) == ClockSkew
    case CLOCK_DRIFT => Is(t, TimeServer, WARN) && KrbError(t) != ClockSkew
    case NTP_NOT_SYNCHRONIZED => Is(t, TimeLocal, WARN) && !Is(t, TimeServer, FAIL) && KrbError(t) != ClockSkew
    case HOST_KEYTAB_MISSING => Is(t, HostKeytab, FAIL) && Facts(t, HostKeytab).state == Some(Missing)
    case HOST_KEYTAB_WRONG_PRINCIPAL => Is(t, HostKeytab, FAIL) && Facts(t, HostKeytab).state == Some(PrincipalMissing)
    case HOST_KEYTAB_UNREADABLE =>
      Is(t, HostKeytab, FAIL) && Facts(t, HostKeytab).state !in {Some(Missing), Some(PrincipalMissing)}
    case HOST_KEYTAB_PERMISSIONS => Is(t, HostKeytab, WARN) && Facts(t, HostKeytab).state == Some(Permissions)
    case KDC_NOT_RESOLVABLE => KrbError(t) == KdcUnresolvable
    case KDC_UNREACHABLE => KrbError(t) == KdcUnreachable
    case HOST_PRINCIPAL_UNKNOWN => KrbError(t) == PrincipalUnknown
    case HOST_KEY_REJECTED => KrbError(t) in {KeyRejected, KeytabNoEntry}
    case KERBEROS_FAILED =>
      KrbError(t) !in {Empty, ClockSkew, KdcUnresolvable, KdcUnreachable, PrincipalUnknown, KeyRejected,
                       KeytabNoEntry}
    case SSSD_CONFIG_INVALID => Is(t, SssdConfig, FAIL)
    case SSSD_CACHE_DB_ERROR => Is(t, SssdService, FAIL) && Signals(t, CacheDb) && !Is(t, SssdConfig, FAIL)
    case SSSD_NOT_RUNNING => Is(t, SssdService, FAIL)
    case SSSD_OFFLINE => Is(t, SssdDomain, FAIL)
    case IDENTITY_LOOKUP_FAILS =>
      && who.user && Is(t, IdUser, FAIL)
      && (|| Is(t, SssdDomain, FAIL) || Is(t, SssdDomain, UNKNOWN)
          || (Facts(t, IpaUser).known != Some(false)
              && (KnownButUnresolved(t, who) ==> !ExpectsQualified(t) && !CacheDbBad(t) && !CacheEntryHeld(t))))
    case USER_NOT_IN_IPA =>
      && who.user && Is(t, IdUser, FAIL) && !Is(t, SssdDomain, FAIL) && !Is(t, SssdDomain, UNKNOWN)
      && Facts(t, IpaUser).known == Some(false)
    case NAME_NOT_QUALIFIED => KnownButUnresolved(t, who) && ExpectsQualified(t)
    case SSSD_CACHE_DB_LATER => KnownButUnresolved(t, who) && !ExpectsQualified(t) && CacheDbBad(t)
    case SSSD_CACHE_INCONSISTENT => KnownButUnresolved(t, who) && !ExpectsQualified(t) && !CacheDbBad(t) && CacheEntryHeld(t)
    case IDENTITY_LOOKUP_FAILS_GENERAL =>
      Is(t, IdGroup, FAIL) && !Is(t, SssdDomain, FAIL) && !Is(t, SssdService, FAIL)
    case NSS_NOT_USING_SSSD => Is(t, NssSystem, FAIL)
    case PAM_ACCOUNT_WITHOUT_SSSD => Is(t, PamStack, FAIL) && Facts(t, PamStack).authSss == Some(true)
    case PAM_SERVICE_WITHOUT_SSSD => Is(t, PamStack, FAIL) && Facts(t, PamStack).authSss != Some(true)
    case PAM_AUTH_WITHOUT_SSSD => Is(t, PamStack, WARN)
    case RUNTIME_ACCOUNT_DENIED_LOCAL => AccountDenied(t) && AccountWithoutSssd(t)
    case RUNTIME_DENIED_HBAC_ALLOWS => AccountDenied(t) && !AccountWithoutSssd(t) && who.hbacAllows
    case RUNTIME_ACCOUNT_DENIED => AccountDenied(t) && !AccountWithoutSssd(t) && !who.hbacAllows
    case RUNTIME_ACCOUNT_UNAVAILABLE => Is(t, PamAcct, FAIL) && Facts(t, PamAcct).result == Some(AuthinfoUnavail)
    case RUNTIME_ACCOUNT_FAILED =>
      Is(t, PamAcct, FAIL) && Facts(t, PamAcct).result !in {Some(PermissionDenied), Some(AuthinfoUnavail)}
    case CLIENT_NOT_ENROLLED => false
  }

  /** The name of the IPA server does not resolve: which of the three DNS causes. */
  function DnsFailure(t: Trace, who: Inputs): Option<Code> {
    if When(t, who, DNS_NO_RESOLVER) then Some(DNS_NO_RESOLVER)
    else if When(t, who, DNS_RESOLVER_NOT_ANSWERING) then Some(DNS_RESOLVER_NOT_ANSWERING)
    else if When(t, who, DNS_SERVER_UNRESOLVABLE) then Some(DNS_SERVER_UNRESOLVABLE)
    else None
  }

  function ServerFailure(t: Trace, who: Inputs): Option<Code> {
    if DnsFailure(t, who).Some? then DnsFailure(t, who)
    else if When(t, who, SERVER_UNREACHABLE) then Some(SERVER_UNREACHABLE)
    else None
  }

  /** The SRV diagnosis that explains why no KDC address was found. */
  function SrvBehindKdc(t: Trace, who: Inputs): Option<Code> {
    if KrbError(t) != KdcUnresolvable || DnsFailure(t, who).Some? || KrbSrvKind(t).None? then None
    else if KrbSrvKind(t) == Some(Missing) then if When(t, who, DNS_SRV_MISSING) then Some(DNS_SRV_MISSING) else None
    else if When(t, who, DNS_SRV_QUERY_FAILED) then Some(DNS_SRV_QUERY_FAILED)
    else None
  }

  predicate IsUpstream(c: Capability) { c in {DNS, NETWORK, TLS, TIME, KEYTAB, KERBEROS, ENROLLMENT} }

  function CodeOf(c: Code): Code { if c == SSSD_CACHE_DB_LATER then SSSD_CACHE_DB_ERROR else c }

  /** Capability, severity and what is blocked. `final`: after the Kerberos rules, which turn a warning about SRV records
      into a failure when the KDC could not be found without them. */
  function Base(t: Trace, who: Inputs, c: Code, final: bool): (d: Diagnosis)
    ensures d.code == CodeOf(c) && d.relatedTo == None && d.kind == None && d.role == None
  {
    match c
    case CLIENT_NOT_ENROLLED => Cause(c, ENROLLMENT, true, true)
    case CLIENT_CONFIG_INCOMPLETE => Cause(c, ENROLLMENT, false, false)
    case SSSD_NOT_CONFIGURED => Cause(c, SSSD_CONFIG, true, true)
    case HOSTNAME_MISMATCH => Warns(c, SSSD_CONFIG)
    case DNS_NO_RESOLVER => Cause(c, DNS, true, true)
    case DNS_RESOLVER_NOT_ANSWERING => Cause(c, DNS, true, true)
    case DNS_SERVER_UNRESOLVABLE => Cause(c, DNS, true, true)
    case DNS_SRV_QUERY_FAILED =>
      if !HasFixedServer(t) || (final && SrvBehindKdc(t, who) == Some(c)) then Cause(c, DNS, true, false) else Warns(c, DNS)
    case DNS_SRV_MISSING =>
      if !HasFixedServer(t) || (final && SrvBehindKdc(t, who) == Some(c)) then Cause(c, DNS, true, false) else Warns(c, DNS)
    case SERVER_UNREACHABLE => Cause(c, NETWORK, true, true)
    case LDAP_UNREACHABLE => Cause(c, NETWORK, true, false)
    case HTTPS_UNREACHABLE => Warns(c, NETWORK)
    case CA_TRUST_FAILED => Cause(c, TLS, true, false)
    case CLOCK_SKEW => Cause(c, TIME, true, true)
    case CLOCK_DRIFT => Warns(c, TIME)
    case NTP_NOT_SYNCHRONIZED => Warns(c, TIME)
    case HOST_KEYTAB_MISSING => Cause(c, KEYTAB, true, true)
    case HOST_KEYTAB_WRONG_PRINCIPAL => Cause(c, KEYTAB, true, true)
    case HOST_KEYTAB_UNREADABLE => Cause(c, KEYTAB, true, false)
    case HOST_KEYTAB_PERMISSIONS => Warns(c, KEYTAB)
    case KDC_NOT_RESOLVABLE => Cause(c, KERBEROS, true, true)
    case KDC_UNREACHABLE => Cause(c, KERBEROS, true, true)
    case HOST_PRINCIPAL_UNKNOWN => Cause(c, ENROLLMENT, true, true)
    case HOST_KEY_REJECTED => Cause(c, KEYTAB, true, true)
    case KERBEROS_FAILED => Cause(c, KERBEROS, true, false)
    case SSSD_CONFIG_INVALID => Cause(c, SSSD_CONFIG, Is(t, SssdService, FAIL), false)
    case SSSD_CACHE_DB_ERROR => Cause(c, CACHE, true, false)
    case SSSD_NOT_RUNNING => Cause(c, SSSD_SERVICE, true, true)
    case SSSD_OFFLINE => Cause(c, SSSD_BACKEND, true, false)
    case IDENTITY_LOOKUP_FAILS => Cause(c, IDENTITY, true, false)
    case USER_NOT_IN_IPA => Cause(c, IDENTITY, true, false)
    case NAME_NOT_QUALIFIED => Cause(c, IDENTITY, true, false)
    case SSSD_CACHE_DB_LATER => Cause(SSSD_CACHE_DB_ERROR, CACHE, true, false)
    case SSSD_CACHE_INCONSISTENT => Cause(c, CACHE, true, false)
    case IDENTITY_LOOKUP_FAILS_GENERAL => Cause(c, IDENTITY, true, false)
    case NSS_NOT_USING_SSSD => Cause(c, NSS, true, false)
    case PAM_ACCOUNT_WITHOUT_SSSD => Warns(c, PAM)
    case PAM_SERVICE_WITHOUT_SSSD => Cause(c, PAM, false, false)
    case PAM_AUTH_WITHOUT_SSSD => Cause(c, PAM, false, false)
    case RUNTIME_ACCOUNT_DENIED_LOCAL => Cause(c, PAM, true, false)
    case RUNTIME_DENIED_HBAC_ALLOWS => Cause(c, PAM, true, false)
    case RUNTIME_ACCOUNT_DENIED => Cause(c, PAM, true, false)
    case RUNTIME_ACCOUNT_UNAVAILABLE => Cause(c, PAM, true, false)
    case RUNTIME_ACCOUNT_FAILED => Cause(c, PAM, true, false)
  }

  const FIRST: seq<Code> :=
    [CLIENT_CONFIG_INCOMPLETE, SSSD_NOT_CONFIGURED, HOSTNAME_MISMATCH]
  const DNS_RULES: seq<Code> :=
    [DNS_NO_RESOLVER, DNS_RESOLVER_NOT_ANSWERING, DNS_SERVER_UNRESOLVABLE, DNS_SRV_QUERY_FAILED, DNS_SRV_MISSING]
  const NET_RULES: seq<Code> := [SERVER_UNREACHABLE, LDAP_UNREACHABLE, HTTPS_UNREACHABLE, CA_TRUST_FAILED]
  const TIME_RULES: seq<Code> := [CLOCK_SKEW, CLOCK_DRIFT, NTP_NOT_SYNCHRONIZED]
  const KEYTAB_RULES: seq<Code> :=
    [HOST_KEYTAB_MISSING, HOST_KEYTAB_WRONG_PRINCIPAL, HOST_KEYTAB_UNREADABLE, HOST_KEYTAB_PERMISSIONS]
  const KRB_RULES: seq<Code> :=
    [KDC_NOT_RESOLVABLE, KDC_UNREACHABLE, HOST_PRINCIPAL_UNKNOWN, HOST_KEY_REJECTED, KERBEROS_FAILED]
  const SSSD_RULES: seq<Code> := [SSSD_CONFIG_INVALID, SSSD_CACHE_DB_ERROR, SSSD_NOT_RUNNING]
  const IDENTITY_RULES: seq<Code> :=
    [IDENTITY_LOOKUP_FAILS, USER_NOT_IN_IPA, NAME_NOT_QUALIFIED, SSSD_CACHE_DB_LATER, SSSD_CACHE_INCONSISTENT,
     IDENTITY_LOOKUP_FAILS_GENERAL]
  const LOGIN_RULES: seq<Code> :=
    [NSS_NOT_USING_SSSD, PAM_ACCOUNT_WITHOUT_SSSD, PAM_SERVICE_WITHOUT_SSSD, PAM_AUTH_WITHOUT_SSSD]
  const ACCOUNT_RULES: seq<Code> :=
    [RUNTIME_ACCOUNT_DENIED_LOCAL, RUNTIME_DENIED_HBAC_ALLOWS, RUNTIME_ACCOUNT_DENIED, RUNTIME_ACCOUNT_UNAVAILABLE,
     RUNTIME_ACCOUNT_FAILED]

  const BEFORE_KRB: seq<Code> := FIRST + DNS_RULES + NET_RULES + TIME_RULES + KEYTAB_RULES
  const BEFORE_OFFLINE: seq<Code> := BEFORE_KRB + KRB_RULES + SSSD_RULES
  const RULES: seq<Code> := BEFORE_OFFLINE + [SSSD_OFFLINE] + IDENTITY_RULES + LOGIN_RULES + ACCOUNT_RULES

  /** The first failure upstream of SSSD. */
  function Upstream(t: Trace, who: Inputs, codes: seq<Code>): Option<Code> {
    if codes == [] then None
    else if IsUpstreamFailure(t, who, codes[0]) then Some(codes[0])
    else Upstream(t, who, codes[1..])
  }

  predicate IsUpstreamFailure(t: Trace, who: Inputs, c: Code) {
    When(t, who, c) && Base(t, who, c, true).fails && IsUpstream(Base(t, who, c, true).capability)
  }

  function UpstreamOf(t: Trace, who: Inputs): Option<Code> { Upstream(t, who, BEFORE_OFFLINE) }

  /** What a diagnosis is blamed on. */
  function CauseOf(t: Trace, who: Inputs, c: Code): Option<Code> {
    match c
    case KDC_NOT_RESOLVABLE => if DnsFailure(t, who).Some? then DnsFailure(t, who) else SrvBehindKdc(t, who)
    case KDC_UNREACHABLE => ServerFailure(t, who)
    case KERBEROS_FAILED => ServerFailure(t, who)
    case SSSD_NOT_RUNNING =>
      if Is(t, SssdConfig, FAIL) then Some(SSSD_CONFIG_INVALID)
      else if When(t, who, SSSD_CACHE_DB_ERROR) then Some(SSSD_CACHE_DB_ERROR)
      else None
    case SSSD_OFFLINE => UpstreamOf(t, who)
    case IDENTITY_LOOKUP_FAILS =>
      if Is(t, SssdDomain, FAIL) then Some(SSSD_OFFLINE)
      else if Is(t, SssdDomain, UNKNOWN) || KnownButUnresolved(t, who) then None
      else UpstreamOf(t, who)
    case IDENTITY_LOOKUP_FAILS_GENERAL => UpstreamOf(t, who)
    case RUNTIME_ACCOUNT_DENIED => if Is(t, SssdDomain, FAIL) then Some(SSSD_OFFLINE) else UpstreamOf(t, who)
    case RUNTIME_ACCOUNT_UNAVAILABLE => if Is(t, SssdDomain, FAIL) then Some(SSSD_OFFLINE) else None
    case _ => None
  }

  predicate ExplainedByLog(t: Trace) {
    exists i :: 0 <= i < |Facts(t, SssdLogs).signals| && Facts(t, SssdLogs).signals[i] != Offline
  }

  /** A failure nothing explains, or evidence that disagrees. */
  function KindOf(t: Trace, who: Inputs, c: Code): Option<Kind> {
    match c
    case KDC_NOT_RESOLVABLE => if DnsFailure(t, who).None? && KrbSrvKind(t).None? then Some(Undiagnosed) else None
    case KERBEROS_FAILED => if ServerFailure(t, who).None? then Some(Undiagnosed) else None
    case SSSD_OFFLINE => if UpstreamOf(t, who).None? && !ExplainedByLog(t) then Some(Undiagnosed) else None
    case IDENTITY_LOOKUP_FAILS => if CauseOf(t, who, c).None? then Some(Undiagnosed) else None
    case IDENTITY_LOOKUP_FAILS_GENERAL => if CauseOf(t, who, c).None? then Some(Undiagnosed) else None
    case NSS_NOT_USING_SSSD => if Is(t, NssSwitch, FAIL) then None else Some(Undiagnosed)
    case RUNTIME_DENIED_HBAC_ALLOWS => Some(Contradicting)
    case RUNTIME_ACCOUNT_UNAVAILABLE => if CauseOf(t, who, c).None? then Some(Undiagnosed) else None
    case RUNTIME_ACCOUNT_FAILED => Some(Undiagnosed)
    case _ => None
  }

  function Shape(t: Trace, who: Inputs, c: Code): Diagnosis {
    Base(t, who, c, true).(relatedTo := CauseOf(t, who, c), kind := KindOf(t, who, c))
  }

  function One(t: Trace, who: Inputs, c: Code): seq<Diagnosis> { if When(t, who, c) then [Shape(t, who, c)] else [] }

  /** What the rules add, in order. */
  function Listed(t: Trace, who: Inputs, codes: seq<Code>): seq<Diagnosis> {
    if codes == [] then [] else One(t, who, codes[0]) + Listed(t, who, codes[1..])
  }

  function Added(t: Trace, who: Inputs): seq<Diagnosis> {
    if NotEnrolled(t) then [Cause(CLIENT_NOT_ENROLLED, ENROLLMENT, true, true)] else Listed(t, who, RULES)
  }

  // ------------------------------------------------------------------ causes are sound

  /** A cause of its own: it fails, is not itself explained, and does not contradict other evidence. */
  predicate IsRoot(d: Diagnosis) { d.fails && d.relatedTo.None? && d.kind != Some(Contradicting) }

  lemma {:induction false} UpstreamFails(t: Trace, who: Inputs, codes: seq<Code>)
    ensures
      var up := Upstream(t, who, codes);
      && (up.Some? ==> up.value in codes && IsUpstreamFailure(t, who, up.value))
      && (up.None? ==> forall c :: c in codes ==> !IsUpstreamFailure(t, who, c))
  {
    hide IsUpstreamFailure;
    if codes != [] {
      UpstreamFails(t, who, codes[1..]);
      assert codes == [codes[0]] + codes[1..];
    }
  }

  lemma {:induction false} UpstreamJoin(t: Trace, who: Inputs, a: seq<Code>, b: seq<Code>)
    ensures Upstream(t, who, a + b) == if Upstream(t, who, a).Some? then Upstream(t, who, a) else Upstream(t, who, b)
  {
    hide IsUpstreamFailure;
    if a == [] {
      assert a + b == b;
    } else {
      UpstreamJoin(t, who, a[1..], b);
      assert (a + b)[1..] == a[1..] + b;
    }
  }

  /** The failures of DNS and of the server are upstream causes, and so is an SRV failure that hid the KDC. */
  lemma NamedFailures(t: Trace, who: Inputs, c: Code)
    requires Some(c) in {DnsFailure(t, who), ServerFailure(t, who), SrvBehindKdc(t, who)}
    ensures c in BEFORE_KRB && IsUpstreamFailure(t, who, c)
    ensures CauseOf(t, who, c) == None && KindOf(t, who, c) == None && CodeOf(c) == c
  {
    hide When;
    assert c in DNS_RULES || c in NET_RULES;
  }

  /** Only Kerberos failures, and SSSD not running, are blamed on something before SSSD's state is looked at. */
  lemma EarlyCauses(t: Trace, who: Inputs, c: Code)
    requires c in BEFORE_OFFLINE && CauseOf(t, who, c).Some?
    ensures c !in BEFORE_KRB && c in {KDC_NOT_RESOLVABLE, KDC_UNREACHABLE, KERBEROS_FAILED, SSSD_NOT_RUNNING}
  {
    hide When, Is, DnsFailure, ServerFailure, SrvBehindKdc, UpstreamOf;
  }

  /** The first failure upstream of SSSD is never itself explained by another one. */
  lemma UpstreamIsRoot(t: Trace, who: Inputs)
    ensures UpstreamOf(t, who).Some? ==>
              var up := UpstreamOf(t, who).value;
              && up in BEFORE_OFFLINE && When(t, who, up) && IsRoot(Shape(t, who, up)) && CodeOf(up) == up
  {
    hide When, Base, KindOf, CauseOf, DnsFailure, ServerFailure, SrvBehindKdc;
    var up := UpstreamOf(t, who);
    UpstreamFails(t, who, BEFORE_OFFLINE);
    if up.Some? {
      UpstreamUnexplained(t, who, up.value);
    }
  }

  lemma UpstreamUnexplained(t: Trace, who: Inputs, up: Code)
    requires UpstreamOf(t, who) == Some(up) && up in BEFORE_OFFLINE
    ensures CauseOf(t, who, up) == None && KindOf(t, who, up) != Some(Contradicting) && CodeOf(up) == up
  {
    hide When, DnsFailure, ServerFailure, SrvBehindKdc, UpstreamOf;
    KindOfEarly(t, who, up);
    if CauseOf(t, who, up).Some? {
      EarlyCauses(t, who, up);
      assert CauseOf(t, who, up) in {DnsFailure(t, who), ServerFailure(t, who), SrvBehindKdc(t, who)} by {
        NotRunningIsNoUpstream(t, who, up);
      }
      NamedFailures(t, who, CauseOf(t, who, up).value);
      EarlierFailure(t, who, CauseOf(t, who, up).value, up);
    }
  }

  lemma KindOfEarly(t: Trace, who: Inputs, c: Code)
    requires c in BEFORE_OFFLINE
    ensures KindOf(t, who, c) != Some(Contradicting) && CodeOf(c) == c
  {
    hide When, DnsFailure, ServerFailure, UpstreamOf, CauseOf;
  }

  lemma NotRunningIsNoUpstream(t: Trace, who: Inputs, up: Code)
    requires UpstreamOf(t, who) == Some(up)
    ensures up != SSSD_NOT_RUNNING
  {
    hide When;
    UpstreamFails(t, who, BEFORE_OFFLINE);
  }

  /** A failure before the Kerberos rules comes first. */
  lemma EarlierFailure(t: Trace, who: Inputs, early: Code, up: Code)
    requires early in BEFORE_KRB && IsUpstreamFailure(t, who, early) && UpstreamOf(t, who) == Some(up)
    ensures up in BEFORE_KRB
  {
    hide IsUpstreamFailure;
    UpstreamFails(t, who, BEFORE_KRB);
    UpstreamJoin(t, who, BEFORE_KRB, KRB_RULES + SSSD_RULES);
    assert BEFORE_OFFLINE == BEFORE_KRB + (KRB_RULES + SSSD_RULES);
  }

  /** What a diagnosis is blamed on was diagnosed too, fails, and is a cause of its own; only SSSD being offline may in
      turn be blamed on something upstream. */
  lemma CausesAreDiagnosed(t: Trace, who: Inputs, c: Code)
    requires When(t, who, c) && CauseOf(t, who, c).Some?
    ensures
      var e := CauseOf(t, who, c).value;
      && e in RULES && When(t, who, e) && CodeOf(e) == e && Base(t, who, c, true).fails
      && Base(t, who, e, true).fails && KindOf(t, who, e) != Some(Contradicting)
      && (e != SSSD_OFFLINE ==> CauseOf(t, who, e) == None)
      && (e == SSSD_OFFLINE ==> CauseOf(t, who, e) == UpstreamOf(t, who))
  {
    hide UpstreamOf, DnsFailure, ServerFailure, SrvBehindKdc, When, Base, CauseOf, KindOf;
    var e := CauseOf(t, who, c).value;
    BlamesFail(t, who, c);
    if Some(e) in {DnsFailure(t, who), ServerFailure(t, who), SrvBehindKdc(t, who)} {
      NamedFailures(t, who, e);
    } else if UpstreamOf(t, who) == Some(e) {
      UpstreamIsRoot(t, who);
      assert Shape(t, who, e).fails;
      OfflineIsLater();
    } else {
      SssdCauses(t, who, e);
    }
  }

  lemma OfflineIsLater()
    ensures SSSD_OFFLINE !in BEFORE_OFFLINE
  {
  }

  /** The sources of blame. */
  lemma BlamesFail(t: Trace, who: Inputs, c: Code)
    requires CauseOf(t, who, c).Some?
    ensures Base(t, who, c, true).fails
    ensures
      var e := CauseOf(t, who, c);
      || e in {DnsFailure(t, who), ServerFailure(t, who), SrvBehindKdc(t, who), UpstreamOf(t, who)}
      || (e == Some(SSSD_CONFIG_INVALID) && Is(t, SssdConfig, FAIL))
      || (e == Some(SSSD_CACHE_DB_ERROR) && When(t, who, SSSD_CACHE_DB_ERROR))
      || (e == Some(SSSD_OFFLINE) && Is(t, SssdDomain, FAIL))
  {
    hide UpstreamOf, DnsFailure, ServerFailure, SrvBehindKdc, When;
  }

  lemma SssdCauses(t: Trace, who: Inputs, e: Code)
    requires e in {SSSD_CONFIG_INVALID, SSSD_CACHE_DB_ERROR, SSSD_OFFLINE}
    requires e == SSSD_CONFIG_INVALID ==> Is(t, SssdConfig, FAIL)
    requires e == SSSD_CACHE_DB_ERROR ==> When(t, who, e)
    requires e == SSSD_OFFLINE ==> Is(t, SssdDomain, FAIL)
    ensures e in RULES && When(t, who, e) && CodeOf(e) == e && Base(t, who, e, true).fails
    ensures KindOf(t, who, e) != Some(Contradicting)
    ensures CauseOf(t, who, e) == if e == SSSD_OFFLINE then UpstreamOf(t, who) else None
  {
    hide UpstreamOf, DnsFailure, ServerFailure, SrvBehindKdc;
  }
}
