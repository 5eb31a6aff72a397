/** Client mode: the rules as they run, adding diagnoses one after another and changing earlier ones, against the table. */
module ClientRules {
  import opened Common
  import opened Client
  import opened ClientReport

  // ------------------------------------------------------------------ lists of rules

  lemma {:induction false} ListedJoin(t: Trace, who: Inputs, a: seq<Code>, b: seq<Code>)
    ensures Listed(t, who, a + b) == Listed(t, who, a) + Listed(t, who, b)
  {
    hide One;
    if a == [] {
      assert a + b == b;
    } else {
      ListedJoin(t, who, a[1..], b);
      assert (a + b)[1..] == a[1..] + b;
    }
  }

  lemma ListedOne(t: Trace, who: Inputs, a: Code)
    ensures Listed(t, who, [a]) == One(t, who, a)
  {
    hide One;
    assert [a][1..] == [];
  }

  lemma ListedThree(t: Trace, who: Inputs, a: Code, b: Code, c: Code)
    ensures Listed(t, who, [a, b, c]) == One(t, who, a) + One(t, who, b) + One(t, who, c)
  {
    hide One;
    ListedOne(t, who, a);
    ListedOne(t, who, b);
    ListedOne(t, who, c);
    ListedJoin(t, who, [a], [b]);
    ListedJoin(t, who, [a, b], [c]);
    assert [a] + [b] == [a, b] && [a, b] + [c] == [a, b, c];
  }

  lemma ListedFour(t: Trace, who: Inputs, a: Code, b: Code, c: Code, d: Code)
    ensures Listed(t, who, [a, b, c, d]) == One(t, who, a) + One(t, who, b) + One(t, who, c) + One(t, who, d)
  {
    hide One;
    ListedThree(t, who, a, b, c);
    ListedOne(t, who, d);
    ListedJoin(t, who, [a, b, c], [d]);
    assert [a, b, c] + [d] == [a, b, c, d];
  }

  lemma ListedFive(t: Trace, who: Inputs, a: Code, b: Code, c: Code, d: Code, e: Code)
    ensures Listed(t, who, [a, b, c, d, e])
         == One(t, who, a) + One(t, who, b) + One(t, who, c) + One(t, who, d) + One(t, who, e)
  {
    hide One;
    ListedFour(t, who, a, b, c, d);
    ListedOne(t, who, e);
    ListedJoin(t, who, [a, b, c, d], [e]);
    assert [a, b, c, d] + [e] == [a, b, c, d, e];
  }

  /** Whether a code was added is whether its rule applies. */
  lemma HasIsWhen(t: Trace, who: Inputs, codes: seq<Code>, c: Code)
    requires c in codes && c != SSSD_CACHE_DB_ERROR && c != SSSD_CACHE_DB_LATER
    ensures Has(Listed(t, who, codes), c) <==> When(t, who, c)
  {
    hide When, Base, CauseOf, KindOf;
    if i :| 0 <= i < |Listed(t, who, codes)| && Listed(t, who, codes)[i].code == c {
      ListedMembers(t, who, codes, Listed(t, who, codes)[i]);
    }
    if When(t, who, c) {
      ListedMembers(t, who, codes, Shape(t, who, c));
      var i :| 0 <= i < |Listed(t, who, codes)| && Listed(t, who, codes)[i] == Shape(t, who, c);
    }
  }

  // ------------------------------------------------------------------ single rules

  predicate UserUnresolved(t: Trace, who: Inputs) { who.user && Is(t, IdUser, FAIL) }

  predicate OnlyCached(t: Trace) { Is(t, SssdDomain, FAIL) || Is(t, SssdDomain, UNKNOWN) }

  lemma LookupRule(t: Trace, who: Inputs)
    ensures
      var d := Cause(IDENTITY_LOOKUP_FAILS, IDENTITY, true, false);
      var up, offline, known := UpstreamOf(t, who), Is(t, SssdDomain, FAIL), Facts(t, IpaUser).known;
      One(t, who, IDENTITY_LOOKUP_FAILS) ==
        if !UserUnresolved(t, who) then []
        else if OnlyCached(t) then [d.(relatedTo := if offline then Some(SSSD_OFFLINE) else None, kind := KindUnless(offline))]
        else if known == Some(false) then []
        else if !KnownButUnresolved(t, who) then [d.(relatedTo := up, kind := KindUnless(up.Some?))]
        else if ExpectsQualified(t) || CacheDbBad(t) || CacheEntryHeld(t) then []
        else [d.(kind := Some(Undiagnosed))]
  {
    hide UpstreamOf, ExpectsQualified, CacheDbBad, CacheEntryHeld;
  }

  lemma UnknownUserRule(t: Trace, who: Inputs)
    ensures One(t, who, USER_NOT_IN_IPA) ==
              if UserUnresolved(t, who) && !OnlyCached(t) && Facts(t, IpaUser).known == Some(false) then
                [Cause(USER_NOT_IN_IPA, IDENTITY, true, false)]
              else []
  {
    hide Is, Facts;
  }

  lemma QualifiedRule(t: Trace, who: Inputs)
    ensures One(t, who, NAME_NOT_QUALIFIED) ==
              if KnownButUnresolved(t, who) && ExpectsQualified(t) then [Cause(NAME_NOT_QUALIFIED, IDENTITY, true, false)]
              else []
  {
    hide KnownButUnresolved, ExpectsQualified;
  }

  lemma CacheDbRule(t: Trace, who: Inputs)
    ensures One(t, who, SSSD_CACHE_DB_LATER) ==
              if KnownButUnresolved(t, who) && !ExpectsQualified(t) && CacheDbBad(t) then
                [Cause(SSSD_CACHE_DB_ERROR, CACHE, true, false)]
              else []
  {
    hide KnownButUnresolved, ExpectsQualified, CacheDbBad;
  }

  lemma CacheEntryRule(t: Trace, who: Inputs)
    ensures One(t, who, SSSD_CACHE_INCONSISTENT) ==
              if KnownButUnresolved(t, who) && !ExpectsQualified(t) && !CacheDbBad(t) && CacheEntryHeld(t) then
                [Cause(SSSD_CACHE_INCONSISTENT, CACHE, true, false)]
              else []
  {
    hide KnownButUnresolved, ExpectsQualified, CacheDbBad, CacheEntryHeld;
  }

  lemma GeneralRule(t: Trace, who: Inputs)
    ensures
      var up := UpstreamOf(t, who);
      One(t, who, IDENTITY_LOOKUP_FAILS_GENERAL) ==
        if Is(t, IdGroup, FAIL) && !Is(t, SssdDomain, FAIL) && !Is(t, SssdService, FAIL) then
          [Cause(IDENTITY_LOOKUP_FAILS_GENERAL, IDENTITY, true, false).(relatedTo := up, kind := KindUnless(up.Some?))]
        else []
  {
    hide UpstreamOf, Is;
  }

  lemma SssdRules(t: Trace, who: Inputs)
    ensures One(t, who, SSSD_CONFIG_INVALID) ==
              if Is(t, SssdConfig, FAIL) then [Cause(SSSD_CONFIG_INVALID, SSSD_CONFIG, Is(t, SssdService, FAIL), false)] else []
    ensures One(t, who, SSSD_CACHE_DB_ERROR) ==
              if Is(t, SssdService, FAIL) && Signals(t, CacheDb) && !Is(t, SssdConfig, FAIL) then
                [Cause(SSSD_CACHE_DB_ERROR, CACHE, true, false)]
              else []
  {
    hide Is, Facts, Signals;
  }

  lemma NotRunningRule(t: Trace, who: Inputs)
    ensures One(t, who, SSSD_NOT_RUNNING) ==
              if Is(t, SssdService, FAIL) then
                [Cause(SSSD_NOT_RUNNING, SSSD_SERVICE, true, true).(relatedTo :=
                   if Is(t, SssdConfig, FAIL) then Some(SSSD_CONFIG_INVALID)
                   else if Signals(t, CacheDb) then Some(SSSD_CACHE_DB_ERROR) else None)]
              else []
  {
    hide Is, Facts, Signals;
  }

  lemma SkewRules(t: Trace, who: Inputs)
    ensures
      var skew := Is(t, TimeServer, FAIL) || KrbError(t) == ClockSkew;
      && One(t, who, CLOCK_SKEW) == (if skew then [Cause(CLOCK_SKEW, TIME, true, true)] else [])
      && One(t, who, NTP_NOT_SYNCHRONIZED) ==
           if Is(t, TimeLocal, WARN) && !skew then [Warns(NTP_NOT_SYNCHRONIZED, TIME)] else []
  {
    hide Is, Facts, KrbError;
  }

  lemma DriftRule(t: Trace, who: Inputs)
    ensures One(t, who, CLOCK_DRIFT) ==
              if Is(t, TimeServer, WARN) && KrbError(t) != ClockSkew then [Warns(CLOCK_DRIFT, TIME)] else []
  {
    hide Is, Facts, KrbError;
  }

  lemma KeytabRules(t: Trace, who: Inputs)
    ensures
      var fails, state := Is(t, HostKeytab, FAIL), Facts(t, HostKeytab).state;
      && One(t, who, HOST_KEYTAB_MISSING) ==
           (if fails && state == Some(Missing) then [Cause(HOST_KEYTAB_MISSING, KEYTAB, true, true)] else [])
      && One(t, who, HOST_KEYTAB_WRONG_PRINCIPAL) ==
           if fails && state == Some(PrincipalMissing) then [Cause(HOST_KEYTAB_WRONG_PRINCIPAL, KEYTAB, true, true)] else []
  {
    hide Is, Facts;
  }

  lemma KeytabFileRules(t: Trace, who: Inputs)
    ensures
      var fails, state := Is(t, HostKeytab, FAIL), Facts(t, HostKeytab).state;
      && One(t, who, HOST_KEYTAB_UNREADABLE) ==
           (if fails && state !in {Some(Missing), Some(PrincipalMissing)} then
              [Cause(HOST_KEYTAB_UNREADABLE, KEYTAB, true, false)]
            else [])
      && One(t, who, HOST_KEYTAB_PERMISSIONS) ==
           if Is(t, HostKeytab, WARN) && state == Some(Permissions) then [Warns(HOST_KEYTAB_PERMISSIONS, KEYTAB)] else []
  {
    hide Is, Facts;
  }

  lemma PamRules(t: Trace, who: Inputs)
    ensures
      var fails, auth := Is(t, PamStack, FAIL), Facts(t, PamStack).authSss == Some(true);
      && One(t, who, PAM_ACCOUNT_WITHOUT_SSSD) == (if fails && auth then [Warns(PAM_ACCOUNT_WITHOUT_SSSD, PAM)] else [])
      && One(t, who, PAM_SERVICE_WITHOUT_SSSD) ==
           if fails && !auth then [Cause(PAM_SERVICE_WITHOUT_SSSD, PAM, false, false)] else []
  {
    hide Is, Facts;
  }

  lemma PamAuthRule(t: Trace, who: Inputs)
    ensures One(t, who, PAM_AUTH_WITHOUT_SSSD) ==
              if Is(t, PamStack, WARN) then [Cause(PAM_AUTH_WITHOUT_SSSD, PAM, false, false)] else []
  {
    hide Is, Facts;
  }

  lemma KdcNameRule(t: Trace, who: Inputs)
    ensures
      var dns := DnsFailure(t, who);
      One(t, who, KDC_NOT_RESOLVABLE) ==
        if KrbError(t) == KdcUnresolvable then
          [Cause(KDC_NOT_RESOLVABLE, KERBEROS, true, true).(
             relatedTo := if dns.Some? then dns else SrvBehindKdc(t, who),
             kind := KindUnless(dns.Some? || KrbSrvKind(t).Some?))]
        else []
  {
    hide Is, Facts, DnsFailure, ServerFailure, SrvBehindKdc, UpstreamOf, KrbError;
  }

  lemma KdcRules(t: Trace, who: Inputs)
    ensures
      var up := ServerFailure(t, who);
      && One(t, who, KDC_UNREACHABLE) ==
           (if KrbError(t) == KdcUnreachable then [Cause(KDC_UNREACHABLE, KERBEROS, true, true).(relatedTo := up)] else [])
      && One(t, who, KERBEROS_FAILED) ==
           if KrbError(t) in {Empty, ClockSkew, KdcUnresolvable, KdcUnreachable, PrincipalUnknown, KeyRejected, KeytabNoEntry}
           then []
           else [Cause(KERBEROS_FAILED, KERBEROS, true, false).(relatedTo := up, kind := KindUnless(up.Some?))]
  {
    hide Is, Facts, DnsFailure, ServerFailure, SrvBehindKdc, UpstreamOf, KrbError;
  }

  lemma KeyRules(t: Trace, who: Inputs)
    ensures One(t, who, HOST_PRINCIPAL_UNKNOWN) ==
              if KrbError(t) == PrincipalUnknown then [Cause(HOST_PRINCIPAL_UNKNOWN, ENROLLMENT, true, true)] else []
    ensures One(t, who, HOST_KEY_REJECTED) ==
              if KrbError(t) in {KeyRejected, KeytabNoEntry} then [Cause(HOST_KEY_REJECTED, KEYTAB, true, true)] else []
  {
    hide Is, Facts, DnsFailure, ServerFailure, SrvBehindKdc, UpstreamOf, KrbError;
  }

  lemma DeniedRules(t: Trace, who: Inputs)
    ensures
      var up := UpstreamOf(t, who);
      && One(t, who, RUNTIME_ACCOUNT_DENIED_LOCAL) ==
           (if AccountDenied(t) && AccountWithoutSssd(t) then [Cause(RUNTIME_ACCOUNT_DENIED_LOCAL, PAM, true, false)] else [])
      && One(t, who, RUNTIME_ACCOUNT_DENIED) ==
           if AccountDenied(t) && !AccountWithoutSssd(t) && !who.hbacAllows then
             [Cause(RUNTIME_ACCOUNT_DENIED, PAM, true, false).(
                relatedTo := if Is(t, SssdDomain, FAIL) then Some(SSSD_OFFLINE) else up)]
           else []
  {
    hide UpstreamOf, Is, AccountDenied, AccountWithoutSssd;
  }

  lemma AllowedRule(t: Trace, who: Inputs)
    ensures One(t, who, RUNTIME_DENIED_HBAC_ALLOWS) ==
              if AccountDenied(t) && !AccountWithoutSssd(t) && who.hbacAllows then
                [Cause(RUNTIME_DENIED_HBAC_ALLOWS, PAM, true, false).(kind := Some(Contradicting))]
              else []
  {
    hide AccountDenied, AccountWithoutSssd;
  }

  lemma UnavailableRule(t: Trace, who: Inputs)
    ensures
      var offline := Is(t, SssdDomain, FAIL);
      One(t, who, RUNTIME_ACCOUNT_UNAVAILABLE) ==
        if Is(t, PamAcct, FAIL) && Facts(t, PamAcct).result == Some(AuthinfoUnavail) then
          [Cause(RUNTIME_ACCOUNT_UNAVAILABLE, PAM, true, false).(
             relatedTo := if offline then Some(SSSD_OFFLINE) else None, kind := KindUnless(offline))]
        else []
  {
    hide Is, Facts;
  }

  lemma AccountFailedRule(t: Trace, who: Inputs)
    ensures One(t, who, RUNTIME_ACCOUNT_FAILED) ==
              if Is(t, PamAcct, FAIL) && Facts(t, PamAcct).result !in {Some(PermissionDenied), Some(AuthinfoUnavail)} then
                [Cause(RUNTIME_ACCOUNT_FAILED, PAM, true, false).(kind := Some(Undiagnosed))]
              else []
  {
    hide Is, Facts;
  }

  // ------------------------------------------------------------------ searching the list

  /** The first diagnosis with the code. */
  method Find(out: seq<Diagnosis>, code: Code) returns (i: nat)
    ensures i <= |out| && (i < |out| <==> Has(out, code))
    ensures i < |out| ==> out[i].code == code
    ensures forall j :: 0 <= j < i ==> out[j].code != code
  {
    i := 0;
    while i < |out| && out[i].code != code
      invariant i <= |out| && forall j :: 0 <= j < i ==> out[j].code != code
    {
      i := i + 1;
    }
  }

  function FirstUpstream(out: seq<Diagnosis>): Option<Code> {
    if out == [] then None
    else if out[0].fails && IsUpstream(out[0].capability) then Some(out[0].code)
    else FirstUpstream(out[1..])
  }

  method FindUpstream(out: seq<Diagnosis>) returns (up: Option<Code>)
    ensures up == FirstUpstream(out)
  {
    var i := 0;
    while i < |out|
      invariant i <= |out| && FirstUpstream(out) == FirstUpstream(out[i..])
    {
      assert out[i..][1..] == out[i + 1..];
      if out[i].fails && IsUpstream(out[i].capability) { return Some(out[i].code); }
      i := i + 1;
    }
    up := None;
  }

  lemma {:induction false} FirstUpstreamListed(t: Trace, who: Inputs, codes: seq<Code>)
    requires SSSD_CACHE_DB_LATER !in codes
    ensures FirstUpstream(Listed(t, who, codes)) == Upstream(t, who, codes)
  {
    hide When, Base, CauseOf, KindOf;
    if codes != [] {
      assert codes == [codes[0]] + codes[1..];
      FirstUpstreamListed(t, who, codes[1..]);
      var rest := Listed(t, who, codes[1..]);
      if When(t, who, codes[0]) {
        assert Listed(t, who, codes)[1..] == rest;
      } else {
        assert Listed(t, who, codes) == rest;
      }
    }
  }

  // ------------------------------------------------------------------ enrollment, DNS, network, TLS

  method AddFirst(t: Trace, who: Inputs) returns (more: seq<Diagnosis>)
    ensures more == Listed(t, who, FIRST)
  {
    more := [];
    if Is(t, Enroll, FAIL) { more := more + [Cause(CLIENT_CONFIG_INCOMPLETE, ENROLLMENT, false, false)]; }
    if Is(t, Sssd, FAIL) {
      more := more + [Cause(SSSD_NOT_CONFIGURED, SSSD_CONFIG, true, true)];
    } else if Is(t, Sssd, WARN) && Facts(t, Sssd).mismatch == Some(true) {
      more := more + [Warns(HOSTNAME_MISMATCH, SSSD_CONFIG)];
    }
    ListedThree(t, who, CLIENT_CONFIG_INCOMPLETE, SSSD_NOT_CONFIGURED, HOSTNAME_MISMATCH);
  }

  /** The DNS rules, `hard` being the SRV diagnosis that is more than a warning because the KDC was not found. */
  function DnsWith(t: Trace, who: Inputs, hard: Option<Code>): seq<Diagnosis> {
    if DnsFailure(t, who).Some? then [Cause(DnsFailure(t, who).value, DNS, true, true)]
    else SrvOne(t, who, DNS_SRV_QUERY_FAILED, hard) + SrvOne(t, who, DNS_SRV_MISSING, hard)
  }

  function SrvOne(t: Trace, who: Inputs, c: Code, hard: Option<Code>): seq<Diagnosis> {
    if !When(t, who, c) then []
    else if HasFixedServer(t) && hard != Some(c) then [Warns(c, DNS)]
    else [Cause(c, DNS, true, false)]
  }

  lemma DnsIsListed(t: Trace, who: Inputs)
    ensures Listed(t, who, DNS_RULES) == DnsWith(t, who, SrvBehindKdc(t, who))
  {
    hide When, Shape, SrvOne, Listed, DnsFailure;
    ListedFive(t, who, DNS_NO_RESOLVER, DNS_RESOLVER_NOT_ANSWERING, DNS_SERVER_UNRESOLVABLE, DNS_SRV_QUERY_FAILED,
               DNS_SRV_MISSING);
    DnsCauses(t, who);
    SrvRule(t, who, DNS_SRV_QUERY_FAILED);
    SrvRule(t, who, DNS_SRV_MISSING);
  }

  lemma DnsCauses(t: Trace, who: Inputs)
    ensures
      var three := One(t, who, DNS_NO_RESOLVER) + One(t, who, DNS_RESOLVER_NOT_ANSWERING) + One(t, who, DNS_SERVER_UNRESOLVABLE);
      three == if DnsFailure(t, who).Some? then [Cause(DnsFailure(t, who).value, DNS, true, true)] else []
    ensures DnsFailure(t, who).Some? ==> !When(t, who, DNS_SRV_QUERY_FAILED) && !When(t, who, DNS_SRV_MISSING)
  {
    DnsExclusive(t, who);
    hide When, Is, Facts;
  }

  lemma DnsExclusive(t: Trace, who: Inputs)
    ensures When(t, who, DNS_NO_RESOLVER) ==>
              !When(t, who, DNS_RESOLVER_NOT_ANSWERING) && !When(t, who, DNS_SERVER_UNRESOLVABLE)
    ensures When(t, who, DNS_RESOLVER_NOT_ANSWERING) ==> !When(t, who, DNS_SERVER_UNRESOLVABLE)
    ensures DnsFailure(t, who).Some? ==> !When(t, who, DNS_SRV_QUERY_FAILED) && !When(t, who, DNS_SRV_MISSING)
  {
    hide Is, AnySrvKind, AnySrvFails;
  }

  lemma SrvRule(t: Trace, who: Inputs, c: Code)
    requires c in {DNS_SRV_QUERY_FAILED, DNS_SRV_MISSING}
    ensures One(t, who, c) == SrvOne(t, who, c, SrvBehindKdc(t, who))
  {
    hide When, SrvBehindKdc, HasFixedServer, Is, Facts;
  }

  method AddDns(t: Trace, who: Inputs) returns (more: seq<Diagnosis>, dnsFail: Option<Code>)
    ensures more == DnsWith(t, who, None) && dnsFail == DnsFailure(t, who)
  {
    more, dnsFail := [], None;
    if Is(t, DnsServer, FAIL) {
      var code;
      if Is(t, DnsResolvers, FAIL) { code := DNS_NO_RESOLVER; }
      else if AnySrvKind(t, {ResolverTimeout, NoResolver}) { code := DNS_RESOLVER_NOT_ANSWERING; }
      else { code := DNS_SERVER_UNRESOLVABLE; }
      dnsFail := Some(code);
      more := [Cause(code, DNS, true, true)];
    } else {
      var fixed := HasFixedServer(t);
      if AnySrvFails(t, false) {
        more := more + [if fixed then Warns(DNS_SRV_QUERY_FAILED, DNS) else Cause(DNS_SRV_QUERY_FAILED, DNS, true, false)];
      }
      if AnySrvFails(t, true) {
        more := more + [if fixed then Warns(DNS_SRV_MISSING, DNS) else Cause(DNS_SRV_MISSING, DNS, true, false)];
      }
    }
  }

  method AddNetwork(t: Trace, who: Inputs) returns (more: seq<Diagnosis>)
    ensures more == Listed(t, who, NET_RULES)
  {
    hide AnySrvFails, AnySrvKind, HasFixedServer, DnsFailure, ServerFailure, SrvBehindKdc, UpstreamOf, ExplainedByLog;
    hide KnownButUnresolved, CacheDbBad, CacheEntryHeld, ExpectsQualified, AccountDenied, AccountWithoutSssd, Signals;
    more := [];
    if Is(t, DnsServer, PASS) && Is(t, NetHttps, FAIL) && Is(t, NetLdap, FAIL) {
      more := more + [Cause(SERVER_UNREACHABLE, NETWORK, true, true)];
    } else if Is(t, NetLdap, FAIL) && Is(t, NetHttps, PASS) {
      more := more + [Cause(LDAP_UNREACHABLE, NETWORK, true, false)];
    } else if Is(t, NetHttps, FAIL) && Is(t, NetLdap, PASS) {
      more := more + [Warns(HTTPS_UNREACHABLE, NETWORK)];
    }
    if Is(t, TlsTrust, FAIL) { more := more + [Cause(CA_TRUST_FAILED, TLS, true, false)]; }
    ListedFour(t, who, SERVER_UNREACHABLE, LDAP_UNREACHABLE, HTTPS_UNREACHABLE, CA_TRUST_FAILED);
  }

  // ------------------------------------------------------------------ time and keytab

  method AddTime(t: Trace, who: Inputs) returns (more: seq<Diagnosis>)
    ensures more == Listed(t, who, TIME_RULES)
  {
    hide One, Listed;
    SkewRules(t, who);
    DriftRule(t, who);
    more := [];
    if Is(t, TimeServer, FAIL) {
      more := more + [Cause(CLOCK_SKEW, TIME, true, true)];
    } else if KrbError(t) == ClockSkew {
      more := more + [Cause(CLOCK_SKEW, TIME, true, true)];
    } else if Is(t, TimeServer, WARN) {
      more := more + [Warns(CLOCK_DRIFT, TIME)];
    }
    var skew := Find(more, CLOCK_SKEW);
    assert |more| == 1 ==> (more[0].code == CLOCK_SKEW <==> Has(more, CLOCK_SKEW));
    if Is(t, TimeLocal, WARN) && skew == |more| { more := more + [Warns(NTP_NOT_SYNCHRONIZED, TIME)]; }
    ListedThree(t, who, CLOCK_SKEW, CLOCK_DRIFT, NTP_NOT_SYNCHRONIZED);
  }

  method AddKeytab(t: Trace, who: Inputs) returns (more: seq<Diagnosis>)
    ensures more == Listed(t, who, KEYTAB_RULES)
  {
    hide One, Listed;
    KeytabRules(t, who);
    KeytabFileRules(t, who);
    more := [];
    var state := Facts(t, HostKeytab).state;
    if Is(t, HostKeytab, FAIL) {
      if state == Some(Missing) {
        more := more + [Cause(HOST_KEYTAB_MISSING, KEYTAB, true, true)];
      } else if state == Some(PrincipalMissing) {
        more := more + [Cause(HOST_KEYTAB_WRONG_PRINCIPAL, KEYTAB, true, true)];
      } else {
        more := more + [Cause(HOST_KEYTAB_UNREADABLE, KEYTAB, true, false)];
      }
    } else if Is(t, HostKeytab, WARN) && state == Some(Permissions) {
      more := more + [Warns(HOST_KEYTAB_PERMISSIONS, KEYTAB)];
    }
    ListedFour(t, who, HOST_KEYTAB_MISSING, HOST_KEYTAB_WRONG_PRINCIPAL, HOST_KEYTAB_UNREADABLE, HOST_KEYTAB_PERMISSIONS);
  }

  // ------------------------------------------------------------------ Kerberos

  lemma NotListed(t: Trace, who: Inputs, codes: seq<Code>, c: Code)
    requires c !in codes && c != SSSD_CACHE_DB_ERROR
    ensures !Has(Listed(t, who, codes), c)
  {
    hide When, Base, CauseOf, KindOf;
    if i :| 0 <= i < |Listed(t, who, codes)| && Listed(t, who, codes)[i].code == c {
      ListedMembers(t, who, codes, Listed(t, who, codes)[i]);
    }
  }

  const AFTER_DNS: seq<Code> := NET_RULES + TIME_RULES + KEYTAB_RULES

  /** Kerberos needs the SRV records, so a warning about them becomes a failure, in place. */
  method Harden(t: Trace, who: Inputs, out: seq<Diagnosis>, code: Code) returns (more: seq<Diagnosis>, related: Option<Code>)
    requires code in {DNS_SRV_QUERY_FAILED, DNS_SRV_MISSING} && DnsFailure(t, who).None?
    requires out == Listed(t, who, FIRST) + DnsWith(t, who, None) + Listed(t, who, AFTER_DNS)
    ensures related == if When(t, who, code) then Some(code) else None
    ensures more == Listed(t, who, FIRST) + DnsWith(t, who, related) + Listed(t, who, AFTER_DNS)
  {
    hide When, HasFixedServer, DnsFailure, Listed;
    more, related := out, None;
    var i := Find(out, code);
    SrvPlace(t, who, out, code, i);
    if i < |out| {
      if !out[i].fails { more := out[i := out[i].(fails := true, blocksRuntime := true)]; }
      related := Some(code);
    }
  }

  /** Where the SRV diagnosis stands. */
  lemma SrvPlace(t: Trace, who: Inputs, out: seq<Diagnosis>, code: Code, i: nat)
    requires code in {DNS_SRV_QUERY_FAILED, DNS_SRV_MISSING} && DnsFailure(t, who).None?
    requires out == Listed(t, who, FIRST) + DnsWith(t, who, None) + Listed(t, who, AFTER_DNS)
    requires i <= |out| && (i < |out| ==> out[i].code == code) && forall j :: 0 <= j < i ==> out[j].code != code
    ensures
      var a := |Listed(t, who, FIRST)|;
      var k := if code == DNS_SRV_MISSING then |SrvOne(t, who, DNS_SRV_QUERY_FAILED, None)| else 0;
      i == if When(t, who, code) then a + k else |out|
  {
    hide When, HasFixedServer, DnsFailure, Listed;
    var a, d, r := Listed(t, who, FIRST), DnsWith(t, who, None), Listed(t, who, AFTER_DNS);
    NotListed(t, who, FIRST, code);
    NotListed(t, who, AFTER_DNS, code);
    assert forall j :: 0 <= j < |a| ==> out[j] == a[j];
    assert forall j :: 0 <= j < |d| ==> out[|a| + j] == d[j];
    assert forall j :: 0 <= j < |r| ==> out[|a| + |d| + j] == r[j];
    var k := if code == DNS_SRV_MISSING then |SrvOne(t, who, DNS_SRV_QUERY_FAILED, None)| else 0;
    if When(t, who, code) {
      assert out[|a| + k].code == code;
    }
  }

  /** The KDC's error class decides between name, KDC, principal and key. */
  method AddKerberos(t: Trace, who: Inputs, out: seq<Diagnosis>, dnsFail: Option<Code>) returns (more: seq<Diagnosis>)
    requires out == Listed(t, who, FIRST) + DnsWith(t, who, None) + Listed(t, who, AFTER_DNS)
    requires dnsFail == DnsFailure(t, who)
    ensures more == Listed(t, who, FIRST) + Listed(t, who, DNS_RULES) + Listed(t, who, AFTER_DNS) + Listed(t, who, KRB_RULES)
  {
    hide When, One, Listed, Is, Facts, DnsWith, DnsFailure;
    var error := KrbError(t);
    KdcNameRule(t, who);
    KdcRules(t, who);
    KeyRules(t, who);
    ListedFive(t, who, KDC_NOT_RESOLVABLE, KDC_UNREACHABLE, HOST_PRINCIPAL_UNKNOWN, HOST_KEY_REJECTED, KERBEROS_FAILED);
    DnsIsListed(t, who);
    more := out;
    if error == KdcUnresolvable {
      more := AddKdcName(t, who, out, dnsFail);
    } else if error != Empty && error != ClockSkew {
      var upstream := FindServerFailure(t, who, out, dnsFail);
      if error == KdcUnreachable {
        more := more + [Cause(KDC_UNREACHABLE, KERBEROS, true, true).(relatedTo := upstream)];
      } else if error == PrincipalUnknown {
        more := more + [Cause(HOST_PRINCIPAL_UNKNOWN, ENROLLMENT, true, true)];
      } else if error == KeyRejected || error == KeytabNoEntry {
        more := more + [Cause(HOST_KEY_REJECTED, KEYTAB, true, true)];
      } else {
        more := more + [Cause(KERBEROS_FAILED, KERBEROS, true, false).(relatedTo := upstream, kind := KindUnless(upstream.Some?))];
      }
    }
  }

  method AddKdcName(t: Trace, who: Inputs, out: seq<Diagnosis>, dnsFail: Option<Code>) returns (more: seq<Diagnosis>)
    requires out == Listed(t, who, FIRST) + DnsWith(t, who, None) + Listed(t, who, AFTER_DNS)
    requires dnsFail == DnsFailure(t, who) && KrbError(t) == KdcUnresolvable
    ensures more == Listed(t, who, FIRST) + DnsWith(t, who, SrvBehindKdc(t, who)) + Listed(t, who, AFTER_DNS)
                    + One(t, who, KDC_NOT_RESOLVABLE)
  {
    hide When, One, Listed, Is, Facts, DnsFailure;
    KdcNameRule(t, who);
    var srvKind := KrbSrvKind(t);
    var related: Option<Code>;
    more := out;
    if dnsFail.Some? {
      related := dnsFail;
    } else if srvKind == Some(Missing) {
      more, related := Harden(t, who, out, DNS_SRV_MISSING);
    } else if srvKind.Some? {
      more, related := Harden(t, who, out, DNS_SRV_QUERY_FAILED);
    } else {
      related := None;
    }
    more := more + [Cause(KDC_NOT_RESOLVABLE, KERBEROS, true, true).(
                      relatedTo := related, kind := KindUnless(dnsFail.Some? || srvKind.Some?))];
  }

  method FindServerFailure(t: Trace, who: Inputs, out: seq<Diagnosis>, dnsFail: Option<Code>) returns (up: Option<Code>)
    requires out == Listed(t, who, FIRST) + DnsWith(t, who, None) + Listed(t, who, AFTER_DNS)
    requires dnsFail == DnsFailure(t, who)
    ensures up == ServerFailure(t, who)
  {
    hide When, Listed, Is, Facts, DnsFailure;
    if dnsFail.Some? { return dnsFail; }
    NotListed(t, who, FIRST, SERVER_UNREACHABLE);
    HasIsWhen(t, who, AFTER_DNS, SERVER_UNREACHABLE);
    HasInParts(Listed(t, who, FIRST), DnsWith(t, who, None), Listed(t, who, AFTER_DNS), SERVER_UNREACHABLE);
    var i := Find(out, SERVER_UNREACHABLE);
    up := if i < |out| then Some(SERVER_UNREACHABLE) else None;
  }

  lemma HasInParts(a: seq<Diagnosis>, b: seq<Diagnosis>, c: seq<Diagnosis>, code: Code)
    ensures Has(a + b + c, code) <==> Has(a, code) || Has(b, code) || Has(c, code)
  {
    var all := a + b + c;
    if i :| 0 <= i < |a| && a[i].code == code { assert all[i].code == code; }
    if i :| 0 <= i < |b| && b[i].code == code { assert all[|a| + i].code == code; }
    if i :| 0 <= i < |c| && c[i].code == code { assert all[|a| + |b| + i].code == code; }
  }

  // ------------------------------------------------------------------ SSSD

  method AddSssd(t: Trace, who: Inputs) returns (more: seq<Diagnosis>)
    ensures more == Listed(t, who, SSSD_RULES)
  {
    hide One, Listed, Is, Signals;
    SssdRules(t, who);
    NotRunningRule(t, who);
    more := [];
    var badConfig := Is(t, SssdConfig, FAIL);
    if badConfig { more := more + [Cause(SSSD_CONFIG_INVALID, SSSD_CONFIG, Is(t, SssdService, FAIL), false)]; }
    var dbAtStart := Is(t, SssdService, FAIL) && Signals(t, CacheDb) && !badConfig;
    if dbAtStart { more := more + [Cause(SSSD_CACHE_DB_ERROR, CACHE, true, false)]; }
    if Is(t, SssdService, FAIL) {
      more := more + [Cause(SSSD_NOT_RUNNING, SSSD_SERVICE, true, true).(relatedTo :=
        if badConfig then Some(SSSD_CONFIG_INVALID) else if dbAtStart then Some(SSSD_CACHE_DB_ERROR) else None)];
    }
    ListedThree(t, who, SSSD_CONFIG_INVALID, SSSD_CACHE_DB_ERROR, SSSD_NOT_RUNNING);
  }

  function KindUnless(explained: bool): Option<Kind> { if explained then None else Some(Undiagnosed) }

  method AddOffline(t: Trace, who: Inputs, up: Option<Code>) returns (more: seq<Diagnosis>)
    requires up == UpstreamOf(t, who)
    ensures more == Listed(t, who, [SSSD_OFFLINE])
  {
    hide UpstreamOf;
    more := [];
    if Is(t, SssdDomain, FAIL) {
      more := [Cause(SSSD_OFFLINE, SSSD_BACKEND, true, false).(relatedTo := up,
                 kind := KindUnless(up.Some? || ExplainedByLog(t)))];
    }
    ListedOne(t, who, SSSD_OFFLINE);
  }

  // ------------------------------------------------------------------ identity

  method AddIdentity(t: Trace, who: Inputs, up: Option<Code>, out: seq<Diagnosis>) returns (more: seq<Diagnosis>)
    requires up == UpstreamOf(t, who) && out == Listed(t, who, BEFORE_OFFLINE + [SSSD_OFFLINE])
    ensures more == Listed(t, who, IDENTITY_RULES)
  {
    hide UpstreamOf, RULES, BEFORE_OFFLINE, One, Listed;
    GeneralRule(t, who);
    var first := AddUser(t, who, up);
    var general: seq<Diagnosis> := [];
    var offline := Find(out, SSSD_OFFLINE);
    var stopped := Find(out, SSSD_NOT_RUNNING);
    SssdFound(t, who);
    if Is(t, IdGroup, FAIL) && offline == |out| && stopped == |out| {
      general := [Cause(IDENTITY_LOOKUP_FAILS_GENERAL, IDENTITY, true, false).(relatedTo := up, kind := KindUnless(up.Some?))];
    }
    ListedOne(t, who, IDENTITY_LOOKUP_FAILS_GENERAL);
    ListedJoin(t, who, IDENTITY_RULES[..5], [IDENTITY_LOOKUP_FAILS_GENERAL]);
    assert IDENTITY_RULES == IDENTITY_RULES[..5] + [IDENTITY_LOOKUP_FAILS_GENERAL];
    more := first + general;
  }

  lemma SssdFound(t: Trace, who: Inputs)
    ensures
      var out := Listed(t, who, BEFORE_OFFLINE + [SSSD_OFFLINE]);
      && (Has(out, SSSD_OFFLINE) <==> Is(t, SssdDomain, FAIL))
      && (Has(out, SSSD_NOT_RUNNING) <==> Is(t, SssdService, FAIL))
  {
    hide Listed, Is;
    HasIsWhen(t, who, BEFORE_OFFLINE + [SSSD_OFFLINE], SSSD_OFFLINE);
    HasIsWhen(t, who, BEFORE_OFFLINE + [SSSD_OFFLINE], SSSD_NOT_RUNNING);
  }

  method AddUser(t: Trace, who: Inputs, up: Option<Code>) returns (more: seq<Diagnosis>)
    requires up == UpstreamOf(t, who)
    ensures more == Listed(t, who, IDENTITY_RULES[..5])
  {
    hide UpstreamOf, One, Listed, ExpectsQualified, CacheDbBad, CacheEntryHeld;
    LookupRule(t, who);
    UnknownUserRule(t, who);
    QualifiedRule(t, who);
    CacheDbRule(t, who);
    CacheEntryRule(t, who);
    more := [];
    var known := Facts(t, IpaUser).known;
    var offline := Is(t, SssdDomain, FAIL);
    if who.user && Is(t, IdUser, FAIL) {
      var lookup := Cause(IDENTITY_LOOKUP_FAILS, IDENTITY, true, false);
      if offline || Is(t, SssdDomain, UNKNOWN) {
        more := [lookup.(relatedTo := if offline then Some(SSSD_OFFLINE) else None, kind := KindUnless(offline))];
      } else if known == Some(false) {
        more := [Cause(USER_NOT_IN_IPA, IDENTITY, true, false)];
      } else if known == Some(true) && Is(t, SssdDomain, PASS) {
        if ExpectsQualified(t) { more := [Cause(NAME_NOT_QUALIFIED, IDENTITY, true, false)]; }
        else if CacheDbBad(t) { more := [Cause(SSSD_CACHE_DB_ERROR, CACHE, true, false)]; }
        else if CacheEntryHeld(t) { more := [Cause(SSSD_CACHE_INCONSISTENT, CACHE, true, false)]; }
        else { more := [lookup.(kind := Some(Undiagnosed))]; }
      } else {
        more := [lookup.(relatedTo := up, kind := KindUnless(up.Some?))];
      }
    }
    ListedFive(t, who, IDENTITY_LOOKUP_FAILS, USER_NOT_IN_IPA, NAME_NOT_QUALIFIED, SSSD_CACHE_DB_LATER,
               SSSD_CACHE_INCONSISTENT);
    assert IDENTITY_RULES[..5]
        == [IDENTITY_LOOKUP_FAILS, USER_NOT_IN_IPA, NAME_NOT_QUALIFIED, SSSD_CACHE_DB_LATER, SSSD_CACHE_INCONSISTENT];
  }

  // ------------------------------------------------------------------ NSS and PAM

  method AddNss(t: Trace, who: Inputs) returns (more: seq<Diagnosis>)
    ensures more == Listed(t, who, [NSS_NOT_USING_SSSD])
  {
    more := [];
    if Is(t, NssSystem, FAIL) {
      more := [Cause(NSS_NOT_USING_SSSD, NSS, true, false).(kind := KindUnless(Is(t, NssSwitch, FAIL)))];
    }
    ListedOne(t, who, NSS_NOT_USING_SSSD);
  }

  method AddPam(t: Trace, who: Inputs) returns (more: seq<Diagnosis>)
    ensures more == Listed(t, who, [PAM_ACCOUNT_WITHOUT_SSSD, PAM_SERVICE_WITHOUT_SSSD, PAM_AUTH_WITHOUT_SSSD])
  {
    hide One, Listed;
    PamRules(t, who);
    PamAuthRule(t, who);
    more := [];
    if Is(t, PamStack, FAIL) && Facts(t, PamStack).authSss == Some(true) {
      more := [Warns(PAM_ACCOUNT_WITHOUT_SSSD, PAM)];
    } else if Is(t, PamStack, FAIL) {
      more := [Cause(PAM_SERVICE_WITHOUT_SSSD, PAM, false, false)];
    } else if Is(t, PamStack, WARN) {
      more := [Cause(PAM_AUTH_WITHOUT_SSSD, PAM, false, false)];
    }
    ListedThree(t, who, PAM_ACCOUNT_WITHOUT_SSSD, PAM_SERVICE_WITHOUT_SSSD, PAM_AUTH_WITHOUT_SSSD);
  }

  method AddLogin(t: Trace, who: Inputs) returns (more: seq<Diagnosis>)
    ensures more == Listed(t, who, LOGIN_RULES)
  {
    hide Listed;
    var nss := AddNss(t, who);
    var pam := AddPam(t, who);
    more := nss + pam;
    ListedJoin(t, who, [NSS_NOT_USING_SSSD], [PAM_ACCOUNT_WITHOUT_SSSD, PAM_SERVICE_WITHOUT_SSSD, PAM_AUTH_WITHOUT_SSSD]);
    assert LOGIN_RULES
        == [NSS_NOT_USING_SSSD] + [PAM_ACCOUNT_WITHOUT_SSSD, PAM_SERVICE_WITHOUT_SSSD, PAM_AUTH_WITHOUT_SSSD];
  }

  method AddAccount(t: Trace, who: Inputs, up: Option<Code>, offline: bool) returns (more: seq<Diagnosis>)
    requires up == UpstreamOf(t, who) && (offline <==> Is(t, SssdDomain, FAIL))
    ensures more == Listed(t, who, ACCOUNT_RULES)
  {
    hide UpstreamOf, One, Listed;
    DeniedRules(t, who);
    AllowedRule(t, who);
    UnavailableRule(t, who);
    AccountFailedRule(t, who);
    more := [];
    if Is(t, PamAcct, FAIL) {
      var result := Facts(t, PamAcct).result;
      if result == Some(PermissionDenied) {
        if AccountWithoutSssd(t) {
          more := [Cause(RUNTIME_ACCOUNT_DENIED_LOCAL, PAM, true, false)];
        } else if who.hbacAllows {
          more := [Cause(RUNTIME_DENIED_HBAC_ALLOWS, PAM, true, false).(kind := Some(Contradicting))];
        } else {
          more := [Cause(RUNTIME_ACCOUNT_DENIED, PAM, true, false).(relatedTo := if offline then Some(SSSD_OFFLINE) else up)];
        }
      } else if result == Some(AuthinfoUnavail) {
        more := [Cause(RUNTIME_ACCOUNT_UNAVAILABLE, PAM, true, false).(
                   relatedTo := if offline then Some(SSSD_OFFLINE) else None, kind := KindUnless(offline))];
      } else {
        more := [Cause(RUNTIME_ACCOUNT_FAILED, PAM, true, false).(kind := Some(Undiagnosed))];
      }
    }
    ListedFive(t, who, RUNTIME_ACCOUNT_DENIED_LOCAL, RUNTIME_DENIED_HBAC_ALLOWS, RUNTIME_ACCOUNT_DENIED,
               RUNTIME_ACCOUNT_UNAVAILABLE, RUNTIME_ACCOUNT_FAILED);
  }

  // ------------------------------------------------------------------ everything

  lemma AllJoined(t: Trace, who: Inputs)
    ensures Listed(t, who, AFTER_DNS) == Listed(t, who, NET_RULES) + Listed(t, who, TIME_RULES) + Listed(t, who, KEYTAB_RULES)
    ensures Listed(t, who, BEFORE_OFFLINE)
         == Listed(t, who, FIRST) + Listed(t, who, DNS_RULES) + Listed(t, who, AFTER_DNS) + Listed(t, who, KRB_RULES)
            + Listed(t, who, SSSD_RULES)
    ensures Listed(t, who, BEFORE_OFFLINE + [SSSD_OFFLINE]) == Listed(t, who, BEFORE_OFFLINE) + Listed(t, who, [SSSD_OFFLINE])
    ensures Listed(t, who, RULES)
         == Listed(t, who, BEFORE_OFFLINE + [SSSD_OFFLINE]) + Listed(t, who, IDENTITY_RULES) + Listed(t, who, LOGIN_RULES)
            + Listed(t, who, ACCOUNT_RULES)
  {
    hide Listed;
    ListedJoin(t, who, NET_RULES, TIME_RULES);
    ListedJoin(t, who, NET_RULES + TIME_RULES, KEYTAB_RULES);
    ListedJoin(t, who, FIRST, DNS_RULES);
    ListedJoin(t, who, FIRST + DNS_RULES, AFTER_DNS);
    ListedJoin(t, who, FIRST + DNS_RULES + AFTER_DNS, KRB_RULES);
    ListedJoin(t, who, FIRST + DNS_RULES + AFTER_DNS + KRB_RULES, SSSD_RULES);
    assert BEFORE_OFFLINE == FIRST + DNS_RULES + AFTER_DNS + KRB_RULES + SSSD_RULES;
    ListedJoin(t, who, BEFORE_OFFLINE, [SSSD_OFFLINE]);
    ListedJoin(t, who, BEFORE_OFFLINE + [SSSD_OFFLINE], IDENTITY_RULES);
    ListedJoin(t, who, BEFORE_OFFLINE + [SSSD_OFFLINE] + IDENTITY_RULES, LOGIN_RULES);
    ListedJoin(t, who, BEFORE_OFFLINE + [SSSD_OFFLINE] + IDENTITY_RULES + LOGIN_RULES, ACCOUNT_RULES);
  }

  lemma LaterIsLater()
    ensures SSSD_CACHE_DB_LATER !in BEFORE_OFFLINE
  {
  }

  /** The rules, one section after another, and then the roles: exactly the report of the table. */
  method Diagnose(t: Trace, who: Inputs) returns (report: seq<Diagnosis>)
    ensures report == Report(t, who)
  {
    hide Listed, One, DnsWith, DnsFailure, UpstreamOf, Labelled, BEFORE_OFFLINE, RULES, AFTER_DNS, FIRST, SortBy;
    if NotEnrolled(t) {
      report := Finish([Cause(CLIENT_NOT_ENROLLED, ENROLLMENT, true, true)]);
      return;
    }
    AllJoined(t, who);
    var out := AddFirst(t, who);
    var dns, dnsFail := AddDns(t, who);
    var net := AddNetwork(t, who);
    var time := AddTime(t, who);
    var keytab := AddKeytab(t, who);
    out := out + dns + (net + time + keytab);
    out := AddKerberos(t, who, out, dnsFail);
    var sssd := AddSssd(t, who);
    out := out + sssd;
    var up := FindUpstream(out);
    LaterIsLater();
    FirstUpstreamListed(t, who, BEFORE_OFFLINE);
    UpstreamIs(t, who);
    var offline := AddOffline(t, who, up);
    out := out + offline;
    var found := Find(out, SSSD_OFFLINE);
    SssdFound(t, who);
    var identity := AddIdentity(t, who, up, out);
    var login := AddLogin(t, who);
    var account := AddAccount(t, who, up, found < |out|);
    report := Finish(out + identity + login + account);
  }

  lemma UpstreamIs(t: Trace, who: Inputs)
    ensures UpstreamOf(t, who) == Upstream(t, who, BEFORE_OFFLINE)
  {
  }

  /** Drops links to diagnoses that are not listed, assigns the roles, and sorts. */
  method Finish(added: seq<Diagnosis>) returns (report: seq<Diagnosis>)
    ensures report == Finished(added)
  {
    hide Labelled;
    var ds := added;
    for i := 0 to |added|
      invariant |ds| == |added| && forall j :: 0 <= j < i ==> ds[j] == Cleared(added)[j]
      invariant forall j :: i <= j < |added| ==> ds[j] == added[j]
    {
      if added[i].relatedTo.Some? && !Has(added, added[i].relatedTo.value) {
        ds := ds[i := added[i].(relatedTo := None)];
      }
    }
    assert ds == Cleared(added);
    var labelled := AssignRoles(ds);
    report := SortBy(labelled, BY_ROLE);
  }
}
