/** FreeIPA decides, the index explains: the explanation of one HBAC rule, and the authorization verdict of a run. */
module Access {
  import opened Common
  import opened Relations
  import opened AccessChains

  const MAX_SIDE_EXPLANATIONS: nat := 20
  const MAX_RULES: nat := 10

  datatype RuleSide = RuleSide(categoryAll: bool, names: seq<string>, groups: seq<string>)

  datatype HbacRule = HbacRule(name: string, enabled: Option<bool>, user: RuleSide, host: RuleSide, service: RuleSide)

  datatype How = AllCategory | ByName | ByGroup | ByNestedGroup | FurtherGroups | NoReason | GroupsUnread

  datatype SideExplanation = SideExplanation(how: How, via: string, chain: seq<string>, chainComplete: bool, count: nat) {
    predicate Covers() { how != NoReason && how != GroupsUnread }
    predicate NamesGroup() { how == ByGroup || how == ByNestedGroup }
  }

  function Plain(how: How): SideExplanation { SideExplanation(how, "", [], true, 0) }

  // ------------------------------------------------------------------ one side of a rule

  /** FreeIPA's own rule for one side: the category is all, the object is listed by name, or one of its direct or
      nested groups is listed. */
  ghost predicate SideMatches(rs: RuleSide, groups: set<string>, objectName: string) {
    || rs.categoryAll
    || (exists n :: n in rs.names && Lower(n) == Lower(objectName))
    || (exists g :: g in rs.groups && Lower(g) in groups)
  }

  /** The lower-cased names of an object's groups. */
  datatype Known = Known(direct: set<string>, all: set<string>)

  function KnownOf(member: Option<Membership>): Option<Known> {
    if member.Some? then Some(Known(DirectNames(member.value), member.value.AllGroups())) else None
  }

  function GroupsOf(member: Option<Membership>): set<string> {
    if member.Some? then member.value.AllGroups() else {}
  }

  const BY_NAME: (string, string) -> bool := (a: string, b: string) => TextLess(Lower(a), Lower(b))

  function SortedByName(names: seq<string>): seq<string> { SortBy(names, BY_NAME) }

  /** The entry explains the listed group truthfully: a direct group as such; a nested one by the names along a shortest
      stored chain, or by a chain that is marked incomplete, and then no chain is stored within the depth bound. */
  ghost predicate ExplainsGroup(edges: EdgeMap, m: Membership, groupKind: NodeKind, full: bool, x: SideExplanation, g: string) {
    && x.via == g
    && (x.how == ByGroup <==> Lower(g) in DirectNames(m))
    && (x.how == ByGroup ==> x.chain == [m.node.name, g] && x.chainComplete)
    && (x.how != ByGroup ==> x.how == ByNestedGroup)
    && (x.how == ByNestedGroup && !x.chainComplete ==> x.chain == [m.node.name, "...", g])
    && (x.how == ByNestedGroup && x.chainComplete ==> NamesShortestChain(edges, m, Key(groupKind, Lower(g)), x.chain))
    && (x.how == ByNestedGroup && !x.chainComplete && !full ==>
          forall c :: IsChain(edges, m.node.Id(), c, Key(groupKind, Lower(g))) ==> |c| > MAX_DEPTH)
  }

  function DstNames(path: seq<Edge>): seq<string> { seq(|path|, i requires 0 <= i < |path| => path[i].dst.name) }

  ghost predicate NamesShortestChain(edges: EdgeMap, m: Membership, t: Key, chain: seq<string>) {
    exists path ::
      && IsChain(edges, m.node.Id(), path, t) && chain == [m.node.name] + DstNames(path)
      && forall c :: IsChain(edges, m.node.Id(), c, t) ==> |path| <= |c|
  }

  predicate CoversSide(out: seq<SideExplanation>) { exists x :: x in out && x.Covers() }

  ghost predicate SaysUnread(out: seq<SideExplanation>) { exists x :: x in out && x.how == GroupsUnread }

  /** Every group the entries name is one of the object's groups the rule lists, and is explained truthfully. */
  ghost predicate Truthful(edges: EdgeMap, m: Membership, groups: seq<string>, groupKind: NodeKind, full: bool,
                           out: seq<SideExplanation>)
  {
    forall x {:trigger x in out} :: x in out && x.NamesGroup() ==>
      x.via in groups && Lower(x.via) in m.AllGroups() && ExplainsGroup(edges, m, groupKind, full, x, x.via)
  }

  ghost predicate Entries(edges: EdgeMap, m: Membership, groups: seq<string>, groupKind: NodeKind, full: bool,
                          out: seq<SideExplanation>)
  {
    && Truthful(edges, m, groups, groupKind, full, out)
    && forall x {:trigger x in out} :: x in out ==> x.NamesGroup() || x.how == FurtherGroups
  }

  /** The groups a rule lists that the object belongs to, in order of their names. */
  function ListedGroups(groups: seq<string>, all: set<string>): seq<string> { Allowed(SortedByName(groups), all) }

  lemma ListedAre(groups: seq<string>, all: set<string>)
    ensures forall g {:trigger g in ListedGroups(groups, all)} :: g in ListedGroups(groups, all) <==> g in groups && Lower(g) in all
    ensures ListedGroups(groups, all) == [] <==> forall g :: g in groups ==> Lower(g) !in all
  {
    hide Lower;
    SortByElements(groups, BY_NAME);
    assert forall x :: x in SortedByName(groups) <==> x in groups;
    var listed := ListedGroups(groups, all);
    assert forall g :: g in listed <==> g in groups && Lower(g) in all;
    if listed != [] { assert listed[0] in listed; }
  }

  /** ... each as often as the rule lists it, and sorted by name without case. */
  lemma ListedInOrder(groups: seq<string>, all: set<string>)
    ensures SortedBy(ListedGroups(groups, all), BY_NAME)
    ensures forall g :: multiset(ListedGroups(groups, all))[g] == if Lower(g) in all then multiset(groups)[g] else 0
  {
    NamesAreOrdered();
    SortBySorted(groups, BY_NAME);
    forall g ensures multiset(ListedGroups(groups, all))[g] == if Lower(g) in all then multiset(groups)[g] else 0 {
      AllowedKeeps(SortedByName(groups), all, g);
    }
    AllowedSorted(SortedByName(groups), all);
  }

  lemma NamesAreOrdered()
    ensures IsOrder(BY_NAME)
  {
    hide Lower;
    forall a, b ensures TextOrder(a, b) { TextIsOrder(a, b); }
    forall a, b, c ensures TextLess(a, b) && TextLess(b, c) ==> TextLess(a, c) { TextLessJoin(a, b, c); }
    forall x: string, y: string, z: string
      ensures BY_NAME(x, y) ==> !BY_NAME(y, x)
      ensures !BY_NAME(y, x) && !BY_NAME(z, y) ==> !BY_NAME(z, x)
    {
      assert TextOrder(Lower(x), Lower(y)) && TextOrder(Lower(y), Lower(z)) && TextOrder(Lower(x), Lower(z));
    }
  }

  lemma {:induction false} AllowedKeeps(names: seq<string>, all: set<string>, g: string)
    ensures multiset(Allowed(names, all))[g] == if Lower(g) in all then multiset(names)[g] else 0
  {
    hide Lower;
    if names != [] {
      AllowedKeeps(names[1..], all, g);
      assert names == [names[0]] + names[1..];
    }
  }

  lemma {:induction false} AllowedSorted(names: seq<string>, all: set<string>)
    requires SortedBy(names, BY_NAME)
    ensures SortedBy(Allowed(names, all), BY_NAME)
  {
    hide Lower;
    if names != [] {
      AllowedSorted(names[1..], all);
      forall g | g in Allowed(names[1..], all) ensures !BY_NAME(g, names[0]) {
        var i :| 0 <= i < |names[1..]| && names[1..][i] == g;
        assert names[i + 1] == g;
      }
    }
  }

  // ------------------------------------------------------------------ the reasons a side has

  /** Why a side covers the object, or fails to. */
  datatype Reason = Reason(how: How, via: string, count: nat)

  function GroupReason(direct: set<string>, g: string): Reason {
    Reason(if Lower(g) in direct then ByGroup else ByNestedGroup, g, 0)
  }

  /** One reason for each of the first MAX_SIDE_EXPLANATIONS listed groups; the others are counted. */
  function GroupReasons(direct: set<string>, listed: seq<string>): seq<Reason> {
    var n := |listed|;
    var shown := if n > MAX_SIDE_EXPLANATIONS then MAX_SIDE_EXPLANATIONS else n;
    seq(shown, i requires 0 <= i < shown => GroupReason(direct, listed[i]))
    + (if n > shown then [Reason(FurtherGroups, "", n - shown)] else [])
  }

  /** Every reason why one side of a rule covers the object. */
  function SideReasons(rs: RuleSide, known: Option<Known>, objectName: string, groupsKnown: bool): seq<Reason> {
    if rs.categoryAll then [Reason(AllCategory, "", 0)]
    else
      var found := (if ListsName(rs.names, objectName) then [Reason(ByName, "", 0)] else [])
                   + if known.None? then [] else GroupReasons(known.value.direct, ListedGroups(rs.groups, known.value.all));
      if found != [] then found
      else [Reason(if known.None? && !groupsKnown && rs.groups != [] then GroupsUnread else NoReason, "", 0)]
  }

  /** The entry gives this reason, and says nothing else unless it names a group. */
  predicate Gives(x: SideExplanation, r: Reason) {
    x.how == r.how && x.via == r.via && x.count == r.count && (!x.NamesGroup() ==> x.chain == [] && x.chainComplete)
  }

  /** The entries give these reasons, one each, in this order. */
  predicate Outlines(out: seq<SideExplanation>, reasons: seq<Reason>) {
    |out| == |reasons| && forall i :: 0 <= i < |out| ==> Gives(out[i], reasons[i])
  }

  lemma OutlinesJoin(a: seq<SideExplanation>, b: seq<SideExplanation>, ra: seq<Reason>, rb: seq<Reason>)
    requires Outlines(a, ra) && Outlines(b, rb)
    ensures Outlines(a + b, ra + rb)
  {
    hide Gives;
  }

  /** Up to the bound, every listed group the object belongs to is given as a reason, as the direct or nested group it is. */
  lemma ReasonForEveryGroup(rs: RuleSide, known: Known, objectName: string, groupsKnown: bool, out: seq<SideExplanation>, g: string)
    requires Outlines(out, SideReasons(rs, Some(known), objectName, groupsKnown)) && !rs.categoryAll
    requires g in rs.groups && Lower(g) in known.all && |ListedGroups(rs.groups, known.all)| <= MAX_SIDE_EXPLANATIONS
    ensures exists x :: x in out && x.via == g && x.how == (if Lower(g) in known.direct then ByGroup else ByNestedGroup)
  {
    hide Lower, ListedGroups, ListsName;
    ListedAre(rs.groups, known.all);
    var listed := ListedGroups(rs.groups, known.all);
    assert g in listed;
    var i :| 0 <= i < |listed| && listed[i] == g;
    var reasons := GroupReasons(known.direct, listed);
    assert reasons[i] == GroupReason(known.direct, g);
    var k := if ListsName(rs.names, objectName) then i + 1 else i;
    assert SideReasons(rs, Some(known), objectName, groupsKnown)[k] == reasons[i];
    assert out[k] in out && Gives(out[k], reasons[i]);
  }

  /** The listed groups the object belongs to, the first MAX_SIDE_EXPLANATIONS of them one by one, the rest counted. */
  method ExplainGroups(index: RelationshipIndex, m: Membership, groups: seq<string>, groupKind: NodeKind)
    returns (out: seq<SideExplanation>)
    requires index.Valid() && IsObject(m.node.kind) && !IsObject(groupKind)
    modifies index`nodes, index`truncated
    ensures index.Valid() && (old(index.truncated) ==> index.truncated)
    ensures old(index.nodes).Keys <= index.nodes.Keys <= old(index.nodes).Keys + GroupKeys(groupKind, m.AllGroups())
    ensures Entries(index.edges, m, groups, groupKind, index.truncated, out)
    ensures Outlines(out, GroupReasons(DirectNames(m), ListedGroups(groups, m.AllGroups())))
  {
    hide Lower, ExplainsGroup, Entries, Truthful, ListedGroups, Grouped, GroupReasons, Gives, GroupKeys, RelationshipIndex.Valid;
    var listed := ListedGroups(groups, m.AllGroups());
    ListedAre(groups, m.AllGroups());
    ghost var reasons := GroupReasons(DirectNames(m), listed);
    ReasonsAt(DirectNames(m), listed);
    var extra := if |listed| > MAX_SIDE_EXPLANATIONS then |listed| - MAX_SIDE_EXPLANATIONS else 0;
    out := [];
    NoEntries(index.edges, m, groups, groupKind, index.truncated);
    var i := 0;
    while i < |listed| - extra
      invariant 0 <= i <= |listed| - extra && |out| == i
      invariant index.Valid() && (old(index.truncated) ==> index.truncated)
      invariant old(index.nodes).Keys <= index.nodes.Keys <= old(index.nodes).Keys + GroupKeys(groupKind, m.AllGroups())
      invariant Entries(index.edges, m, groups, groupKind, index.truncated, out)
      invariant forall j :: 0 <= j < i ==> Gives(out[j], reasons[j])
    {
      ghost var full := index.truncated;
      assert listed[i] in listed;
      var x := ExplainGroup(index, m, listed[i], groupKind);
      OneMoreEntry(index.edges, m, groups, groupKind, full, index.truncated, out, x);
      AmongKeys(groupKind, m.AllGroups(), Lower(listed[i]));
      GroupGives(index.edges, m, groupKind, index.truncated, x, listed[i]);
      out := out + [x];
      i := i + 1;
    }
    if extra > 0 {
      var x := SideExplanation(FurtherGroups, "", [], true, extra);
      OneMoreEntry(index.edges, m, groups, groupKind, index.truncated, index.truncated, out, x);
      FurtherGives(extra);
      out := out + [x];
    }
  }

  lemma AmongKeys(kind: NodeKind, names: set<string>, n: string)
    requires n in names
    ensures Key(kind, n) in GroupKeys(kind, names)
  {
  }

  lemma ReasonsAt(direct: set<string>, listed: seq<string>)
    ensures var extra := if |listed| > MAX_SIDE_EXPLANATIONS then |listed| - MAX_SIDE_EXPLANATIONS else 0;
            var reasons := GroupReasons(direct, listed);
            && (forall i :: 0 <= i < |listed| - extra ==> reasons[i] == GroupReason(direct, listed[i]))
            && if extra == 0 then |reasons| == |listed|
               else |reasons| == MAX_SIDE_EXPLANATIONS + 1 && reasons[MAX_SIDE_EXPLANATIONS] == Reason(FurtherGroups, "", extra)
  {
    hide Lower;
  }

  lemma GroupGives(edges: EdgeMap, m: Membership, groupKind: NodeKind, full: bool, x: SideExplanation, g: string)
    requires ExplainsGroup(edges, m, groupKind, full, x, g) && x.count == 0
    ensures Gives(x, GroupReason(DirectNames(m), g))
  {
    hide Lower, NamesShortestChain;
  }

  lemma FurtherGives(n: nat)
    ensures Gives(SideExplanation(FurtherGroups, "", [], true, n), Reason(FurtherGroups, "", n))
  {
  }

  lemma NoEntries(edges: EdgeMap, m: Membership, groups: seq<string>, groupKind: NodeKind, full: bool)
    ensures Entries(edges, m, groups, groupKind, full, [])
  {
  }

  lemma OneMoreEntry(edges: EdgeMap, m: Membership, groups: seq<string>, groupKind: NodeKind, full: bool, full': bool,
                     out: seq<SideExplanation>, x: SideExplanation)
    requires Entries(edges, m, groups, groupKind, full, out) && (full ==> full')
    requires || x.how == FurtherGroups
             || (x.NamesGroup() && x.via in groups && Lower(x.via) in m.AllGroups()
                 && ExplainsGroup(edges, m, groupKind, full', x, x.via))
    ensures Entries(edges, m, groups, groupKind, full', out + [x])
  {
    hide Lower, DstNames;
  }

  /** Every reason why one side of a rule covers the object, one entry each. */
  method ExplainSide(index: RelationshipIndex, rs: RuleSide, member: Option<Membership>, objectName: string,
                     groupKind: NodeKind, groupsKnown: bool) returns (out: seq<SideExplanation>)
    requires index.Valid() && (member.Some? ==> IsObject(member.value.node.kind)) && !IsObject(groupKind)
    modifies index`nodes, index`truncated
    ensures index.Valid() && (old(index.truncated) ==> index.truncated)
    ensures old(index.nodes).Keys <= index.nodes.Keys <= old(index.nodes).Keys + GroupKeys(groupKind, GroupsOf(member))
    // the reasons there are, and the chains of the groups among them
    ensures Outlines(out, SideReasons(rs, KnownOf(member), objectName, groupsKnown))
    ensures member.Some? ==> Truthful(index.edges, member.value, rs.groups, groupKind, index.truncated, out)
    // it covers the object exactly when FreeIPA's rule for one side does
    ensures CoversSide(out) <==> SideMatches(rs, GroupsOf(member), objectName)
    // "unknown" says that only unread groups could have matched
    ensures SaysUnread(out) <==> member.None? && !groupsKnown && rs.groups != [] && !SideMatches(rs, {}, objectName)
  {
    hide Lower, ExplainsGroup, Grouped, Truthful, Entries, ListedGroups, SideMatches, CoversSide, SaysUnread, ListsName,
         SideReasons, GroupReasons, Outlines, GroupKeys;
    var named := ListsName(rs.names, objectName);
    var entries := [];
    if member.Some? { NoEntries(index.edges, member.value, rs.groups, groupKind, index.truncated); }
    if rs.categoryAll {
      out := [Plain(AllCategory)];
      AllOutlined(rs, KnownOf(member), objectName, groupsKnown);
      if member.Some? {
        SideTruthful(index.edges, member.value, rs.groups, groupKind, index.truncated, AllCategory, entries, out);
      }
    } else {
      if member.Some? {
        entries := ExplainGroups(index, member.value, rs.groups, groupKind);
      }
      out := (if named then [Plain(ByName)] else []) + entries;
      var other := if member.None? && !groupsKnown && rs.groups != [] then GroupsUnread else NoReason;
      ghost var first := if named then ByName else other;
      if out == [] {
        out := [Plain(other)];
      }
      SideOutlined(rs, member, objectName, groupsKnown, entries, out);
      if member.Some? {
        SideTruthful(index.edges, member.value, rs.groups, groupKind, index.truncated, first, entries, out);
      }
    }
    ReasonsCover(rs, KnownOf(member), objectName, groupsKnown, out);
  }

  lemma AllOutlined(rs: RuleSide, known: Option<Known>, objectName: string, groupsKnown: bool)
    requires rs.categoryAll
    ensures Outlines([Plain(AllCategory)], SideReasons(rs, known, objectName, groupsKnown))
  {
  }

  predicate ListsName(names: seq<string>, objectName: string) { exists n :: n in names && Lower(n) == Lower(objectName) }

  /** The two parts of an explanation give the reasons of the side. */
  lemma SideOutlined(rs: RuleSide, member: Option<Membership>, objectName: string, groupsKnown: bool,
                     entries: seq<SideExplanation>, out: seq<SideExplanation>)
    requires !rs.categoryAll
    requires if member.None? then entries == []
             else Outlines(entries, GroupReasons(DirectNames(member.value), ListedGroups(rs.groups, member.value.AllGroups())))
    requires var found := (if ListsName(rs.names, objectName) then [Plain(ByName)] else []) + entries;
             out == if found != [] then found
                    else [Plain(if member.None? && !groupsKnown && rs.groups != [] then GroupsUnread else NoReason)]
    ensures Outlines(out, SideReasons(rs, KnownOf(member), objectName, groupsKnown))
  {
    hide Lower, ListedGroups, GroupReasons, ListsName, DirectNames;
    var rest := if member.None? then []
                else GroupReasons(DirectNames(member.value), ListedGroups(rs.groups, member.value.AllGroups()));
    var named := ListsName(rs.names, objectName);
    OutlinesJoin(if named then [Plain(ByName)] else [], entries, if named then [Reason(ByName, "", 0)] else [], rest);
  }

  /** The reasons cover the object exactly when FreeIPA's rule for one side does. */
  lemma ReasonsCover(rs: RuleSide, known: Option<Known>, objectName: string, groupsKnown: bool, out: seq<SideExplanation>)
    requires Outlines(out, SideReasons(rs, known, objectName, groupsKnown))
    ensures CoversSide(out) <==> SideMatches(rs, if known.Some? then known.value.all else {}, objectName)
    ensures SaysUnread(out) <==> known.None? && !groupsKnown && rs.groups != [] && !SideMatches(rs, {}, objectName)
  {
    hide Lower, ListedGroups;
    var reasons := SideReasons(rs, known, objectName, groupsKnown);
    if known.Some? {
      ListedAre(rs.groups, known.value.all);
      ReasonsAt(known.value.direct, ListedGroups(rs.groups, known.value.all));
    }
    assert |out| > 0 && out[0] in out && Gives(out[0], reasons[0]);
    forall x | x in out ensures x.Covers() == (reasons[0].how != NoReason && reasons[0].how != GroupsUnread) {
      var i :| 0 <= i < |out| && out[i] == x;
      assert Gives(out[i], reasons[i]);
    }
  }

  lemma SideTruthful(edges: EdgeMap, m: Membership, groups: seq<string>, groupKind: NodeKind, full: bool, first: How,
                     entries: seq<SideExplanation>, out: seq<SideExplanation>)
    requires Entries(edges, m, groups, groupKind, full, entries) && first != ByGroup && first != ByNestedGroup
    requires out == entries || out == [Plain(first)] + entries
    ensures Truthful(edges, m, groups, groupKind, full, out)
  {
    hide Lower, ExplainsGroup;
  }

  method ExplainGroup(index: RelationshipIndex, m: Membership, g: string, groupKind: NodeKind) returns (x: SideExplanation)
    requires index.Valid() && IsObject(m.node.kind) && !IsObject(groupKind)
    modifies index`nodes, index`truncated
    ensures index.Valid() && (old(index.truncated) ==> index.truncated)
    ensures old(index.nodes).Keys <= index.nodes.Keys <= old(index.nodes).Keys + {Key(groupKind, Lower(g))}
    ensures x.via == g && x.NamesGroup() && x.count == 0 && ExplainsGroup(index.edges, m, groupKind, index.truncated, x, g)
  {
    hide Grouped, Lower;
    if Lower(g) in DirectNames(m) {
      return SideExplanation(ByGroup, g, [m.node.name, g], true, 0);
    }
    var target := index.GetNode(groupKind, g);
    var path := None;
    if target.Some? {
      path := index.MembershipPath(m.node, target.value);
    }
    if path.Some? && path.value != [] {
      return SideExplanation(ByNestedGroup, g, [m.node.name] + DstNames(path.value), true, 0);
    }
    return SideExplanation(ByNestedGroup, g, [m.node.name, "...", g], false, 0);
  }

  // ------------------------------------------------------------------ one rule

  datatype Service = Service(present: Option<bool>, canonical: Option<string>, groups: set<string>)

  datatype Status = COMPLETE | INCOMPLETE | CONTRADICTING

  datatype RuleExplanation = RuleExplanation(rule: string, enabled: Option<bool>, matched: bool, status: Status,
                                             user: seq<SideExplanation>, host: seq<SideExplanation>, service: seq<SideExplanation>)

  function StatusOf(matched: bool, enabled: Option<bool>, covered: bool, chainsKnown: bool, dataComplete: bool): Status {
    if matched then
      if covered && enabled == Some(true) then (if chainsKnown then COMPLETE else INCOMPLETE)
      else if !dataComplete || enabled == None then INCOMPLETE
      else CONTRADICTING
    else if covered && enabled == Some(true) then CONTRADICTING
    else if dataComplete then COMPLETE else INCOMPLETE
  }

  /** The object's service groups, as far as they are known to FreeIPA. */
  function ServiceGroups(st: Service): set<string> {
    if st.present == Some(true) && st.canonical.Some? && st.canonical.value != "" then set g | g in st.groups :: Lower(g) else {}
  }

  /** FreeIPA's own rule: an enabled rule matches when all three of its sides do. */
  ghost predicate RuleMatches(rule: HbacRule, userGroups: set<string>, hostGroups: set<string>, serviceGroups: set<string>,
                              user: string, host: string, service: string)
  {
    && SideMatches(rule.user, userGroups, user)
    && SideMatches(rule.host, hostGroups, host)
    && SideMatches(rule.service, serviceGroups, service)
  }

  /** The service's own groups, unless the service is not in the index. */
  function ServiceKnown(st: Service, fits: bool): Option<Known> {
    if fits && IsKnownService(st) then Some(Known(ServiceGroups(st), ServiceGroups(st))) else None
  }

  function ServiceKeys(st: Service): set<Key> {
    if IsKnownService(st) then {Node(HBAC_SERVICE, st.canonical.value).Id()} + GroupKeys(HBAC_SERVICE_GROUP, ServiceGroups(st))
    else {}
  }

  /** The nodes an explanation may add. */
  function ExplainKeys(userM: Option<Membership>, hostM: Option<Membership>, st: Service): set<Key> {
    GroupKeys(GROUP, GroupsOf(userM)) + GroupKeys(HOSTGROUP, GroupsOf(hostM)) + ServiceKeys(st)
  }

  /** Each side is explained by its reasons. */
  predicate SidesOutlined(rule: HbacRule, u: Option<Known>, h: Option<Known>, s: Option<Known>, user: string, host: string,
                          service: string, present: Option<bool>, userOut: seq<SideExplanation>,
                          hostOut: seq<SideExplanation>, serviceOut: seq<SideExplanation>)
  {
    && Outlines(userOut, SideReasons(rule.user, u, user, true))
    && Outlines(hostOut, SideReasons(rule.host, h, host, true))
    && Outlines(serviceOut, SideReasons(rule.service, s, service, present.Some?))
  }

  function DataComplete(userM: Option<Membership>, hostM: Option<Membership>, st: Service): bool {
    userM.Some? && hostM.Some? && st.present.Some?
  }

  /** The service is in the index already, or there is room for it: what a caller can see before asking for an explanation. */
  ghost predicate ServiceFits(index: RelationshipIndex, st: Service)
    reads index
  {
    IsKnownService(st) ==> Node(HBAC_SERVICE, st.canonical.value).Id() in index.nodes || |index.nodes| < index.maxNodes
  }

  predicate IsKnownService(st: Service) { st.present == Some(true) && st.canonical.Some? && st.canonical.value != "" }

  /** The data contradict FreeIPA's answer on a rule that they say grants, or does not grant, the access. */
  predicate Contradicts(enabled: Option<bool>, grants: bool, matched: bool, complete: bool) {
    if matched then complete && enabled.Some? && !grants else grants
  }

  /** Contradicting, if the data contradict FreeIPA's answer; complete, if they agree with it and nothing is unknown: a rule
      that matched has all its chains, and for one that did not, the user, the host and the service were read. */
  ghost predicate StatusFits(e: RuleExplanation, grants: bool, complete: bool) {
    && (e.status == CONTRADICTING <==> Contradicts(e.enabled, grants, e.matched, complete))
    && (e.status == COMPLETE <==>
          if e.matched then grants && forall x :: x in e.user + e.host + e.service ==> x.chainComplete
          else !grants && complete)
  }

  /** The service side of the rule matches only through a group of the service, and the two other sides match. */
  ghost predicate HangsOnServiceGroup(rule: HbacRule, userGroups: set<string>, hostGroups: set<string>, st: Service,
                                      user: string, host: string, service: string)
  {
    && rule.enabled == Some(true)
    && SideMatches(rule.user, userGroups, user) && SideMatches(rule.host, hostGroups, host)
    && SideMatches(rule.service, ServiceGroups(st), service) && !SideMatches(rule.service, {}, service)
  }

  /** Explains one rule. What contradicts FreeIPA is decided by the groups known of user and host and, if the index has
      room for the service, by the service's groups. So with complete data and a known enabled flag, the explanation
      contradicts FreeIPA exactly when "enabled and matches all three sides" differs from FreeIPA's own answer; unless the
      service does not fit and an enabled rule, whose other sides match, hangs on a group of the service. */
  method Explain(index: RelationshipIndex, rule: HbacRule, userM: Option<Membership>, hostM: Option<Membership>,
                 user: string, host: string, service: string, st: Service, matched: bool) returns (e: RuleExplanation)
    requires index.Valid()
    requires (userM.Some? ==> IsObject(userM.value.node.kind)) && (hostM.Some? ==> IsObject(hostM.value.node.kind))
    modifies index`nodes, index`truncated
    ensures index.Valid() && (old(index.truncated) ==> index.truncated)
    ensures !index.truncated ==> old(ServiceFits(index, st))
    ensures old(index.nodes).Keys <= index.nodes.Keys <= old(index.nodes).Keys + ExplainKeys(userM, hostM, st)
    ensures e.rule == rule.name && e.enabled == rule.enabled && e.matched == matched
    // each side is explained by its reasons
    ensures SidesOutlined(rule, KnownOf(userM), KnownOf(hostM), ServiceKnown(st, old(ServiceFits(index, st))),
                          user, host, service, st.present, e.user, e.host, e.service)
    ensures var groups := if old(ServiceFits(index, st)) then ServiceGroups(st) else {};
            var used := RuleMatches(rule, GroupsOf(userM), GroupsOf(hostM), groups, user, host, service);
            StatusFits(e, used && rule.enabled == Some(true), userM.Some? && hostM.Some? && st.present.Some?)
    ensures var covers := RuleMatches(rule, GroupsOf(userM), GroupsOf(hostM), ServiceGroups(st), user, host, service);
            DataComplete(userM, hostM, st) && rule.enabled.Some? ==>
              ((e.status == CONTRADICTING <==> (covers && rule.enabled.value) != matched) <==>
                !(!old(ServiceFits(index, st))
                  && HangsOnServiceGroup(rule, GroupsOf(userM), GroupsOf(hostM), st, user, host, service)))
    // and truthfully
    ensures userM.Some? ==> Truthful(index.edges, userM.value, rule.user.groups, GROUP, index.truncated, e.user)
    ensures hostM.Some? ==> Truthful(index.edges, hostM.value, rule.host.groups, HOSTGROUP, index.truncated, e.host)
  {
    hide Truthful, CoversSide, Grouped, GroupsOf, StatusOf, Contradicts, HangsOnServiceGroup, RuleMatches, ServiceFits,
         ServiceGroups, SidesOutlined, ExplainKeys, ServiceKnown, KnownOf, StatusFits;
    ghost var fits := ServiceFits(index, st);
    var u, h, s := ExplainSides(index, rule, userM, hostM, user, host, service, st);
    var covered := CoversSide(u) && CoversSide(h) && CoversSide(s);
    var chainsKnown := Chains(u) && Chains(h) && Chains(s);
    WrongExactly(rule, GroupsOf(userM), GroupsOf(hostM), st, user, host, service, fits, matched);
    e := RuleExplanation(rule.name, rule.enabled, matched,
                         StatusOf(matched, rule.enabled, covered, chainsKnown, DataComplete(userM, hostM, st)), u, h, s);
    StatusIsExact(e, covered, userM, hostM, st);
  }

  method ExplainSides(index: RelationshipIndex, rule: HbacRule, userM: Option<Membership>, hostM: Option<Membership>,
                      user: string, host: string, service: string, st: Service)
    returns (u: seq<SideExplanation>, h: seq<SideExplanation>, s: seq<SideExplanation>)
    requires index.Valid()
    requires (userM.Some? ==> IsObject(userM.value.node.kind)) && (hostM.Some? ==> IsObject(hostM.value.node.kind))
    modifies index`nodes, index`truncated
    ensures index.Valid() && (old(index.truncated) ==> index.truncated)
    ensures !index.truncated ==> old(ServiceFits(index, st))
    ensures old(index.nodes).Keys <= index.nodes.Keys <= old(index.nodes).Keys + ExplainKeys(userM, hostM, st)
    ensures SidesOutlined(rule, KnownOf(userM), KnownOf(hostM), ServiceKnown(st, old(ServiceFits(index, st))),
                          user, host, service, st.present, u, h, s)
    ensures var groups := if old(ServiceFits(index, st)) then ServiceGroups(st) else {};
            CoversSide(u) && CoversSide(h) && CoversSide(s)
            <==> RuleMatches(rule, GroupsOf(userM), GroupsOf(hostM), groups, user, host, service)
    ensures userM.Some? ==> Truthful(index.edges, userM.value, rule.user.groups, GROUP, index.truncated, u)
    ensures hostM.Some? ==> Truthful(index.edges, hostM.value, rule.host.groups, HOSTGROUP, index.truncated, h)
  {
    hide Lower, Truthful, SideMatches, CoversSide, SaysUnread, Grouped, GroupsOf, ServiceFits, ServiceGroups, ServiceKnown,
         KnownOf, SideReasons, Outlines, GroupKeys, ServiceKeys, RelationshipIndex.Valid;
    var svcMember := ServiceMember(index, st);
    u := ExplainSide(index, rule.user, userM, user, GROUP, true);
    ghost var full := index.truncated;
    h := ExplainSide(index, rule.host, hostM, host, HOSTGROUP, true);
    ghost var full' := index.truncated;
    s := ExplainSide(index, rule.service, svcMember, service, HBAC_SERVICE_GROUP, st.present.Some?);
    if userM.Some? { TruthfulStill(index.edges, userM.value, rule.user.groups, GROUP, full, index.truncated, u); }
    if hostM.Some? { TruthfulStill(index.edges, hostM.value, rule.host.groups, HOSTGROUP, full', index.truncated, h); }
  }

  /** The service as an object with its groups, if it is known to FreeIPA and fits into the index. */
  method ServiceMember(index: RelationshipIndex, st: Service) returns (m: Option<Membership>)
    requires index.Valid()
    modifies index`nodes, index`truncated
    ensures index.Valid() && (old(index.truncated) ==> index.truncated)
    ensures !index.truncated ==> old(ServiceFits(index, st))
    ensures old(index.nodes).Keys <= index.nodes.Keys
    ensures index.nodes.Keys + GroupKeys(HBAC_SERVICE_GROUP, GroupsOf(m)) <= old(index.nodes).Keys + ServiceKeys(st)
    ensures m.Some? ==> IsObject(m.value.node.kind)
    ensures GroupsOf(m) == if old(ServiceFits(index, st)) then ServiceGroups(st) else {}
    ensures KnownOf(m) == ServiceKnown(st, old(ServiceFits(index, st)))
  {
    hide Grouped, Lower, GroupsOf, ServiceGroups, KnownOf, ServiceKnown, GroupKeys;
    m := None;
    ghost var fits := ServiceFits(index, st);
    if st.present == Some(true) && st.canonical.Some? && st.canonical.value != "" {
      var node := index.GetNode(HBAC_SERVICE, st.canonical.value);
      if node.Some? { m := Some(Membership(node.value, st.groups, {})); }
    }
    ServiceMemberGroups(m, st, fits);
  }

  lemma StatusIsExact(e: RuleExplanation, covered: bool, userM: Option<Membership>, hostM: Option<Membership>, st: Service)
    requires e.status == StatusOf(e.matched, e.enabled, covered, Chains(e.user) && Chains(e.host) && Chains(e.service),
                                  DataComplete(userM, hostM, st))
    ensures StatusFits(e, covered && e.enabled == Some(true), userM.Some? && hostM.Some? && st.present.Some?)
  {
    assert forall x :: x in e.user + e.host + e.service <==> x in e.user || x in e.host || x in e.service;
  }

  /** With complete data the answer is wrong exactly when the groups of the service are lost and the rule hangs on one. */
  lemma WrongExactly(rule: HbacRule, userGroups: set<string>, hostGroups: set<string>, st: Service,
                     user: string, host: string, service: string, fits: bool, matched: bool)
    ensures
      var used := RuleMatches(rule, userGroups, hostGroups, if fits then ServiceGroups(st) else {}, user, host, service);
      var covers := RuleMatches(rule, userGroups, hostGroups, ServiceGroups(st), user, host, service);
      rule.enabled.Some? ==>
        ((Contradicts(rule.enabled, used && rule.enabled == Some(true), matched, true) <==> (covers && rule.enabled.value) != matched) <==>
          !(!fits && HangsOnServiceGroup(rule, userGroups, hostGroups, st, user, host, service)))
  {
    hide Lower, ServiceGroups;
    if SideMatches(rule.service, {}, service) { assert SideMatches(rule.service, ServiceGroups(st), service); }
  }

  lemma TruthfulStill(edges: EdgeMap, m: Membership, groups: seq<string>, groupKind: NodeKind, full: bool, full': bool,
                      out: seq<SideExplanation>)
    requires Truthful(edges, m, groups, groupKind, full, out) && (full ==> full')
    ensures Truthful(edges, m, groups, groupKind, full', out)
  {
    hide Lower, NamesShortestChain;
  }

  predicate Chains(out: seq<SideExplanation>) { forall x :: x in out ==> x.chainComplete }

  lemma ServiceMemberGroups(m: Option<Membership>, st: Service, fits: bool)
    requires m.Some? <==> fits && IsKnownService(st)
    requires m.Some? ==> m.value.direct == st.groups && m.value.indirect == {}
    requires !IsKnownService(st) ==> fits
    ensures GroupsOf(m) == if fits then ServiceGroups(st) else {}
    ensures KnownOf(m) == ServiceKnown(st, fits)
    ensures m.None? ==> GroupKeys(HBAC_SERVICE_GROUP, GroupsOf(m)) == {}
  {
    hide Lower;
    if m.Some? {
      assert m.value.direct + m.value.indirect == st.groups;
    }
  }

  const REMOTE_LOGIN := HbacRule("remote-login", Some(true), RuleSide(true, [], []), RuleSide(true, [], []),
                                 RuleSide(false, [], ["remote"]))

  const SSHD := Service(Some(true), Some("sshd"), {"remote"})

  /** A full index loses the service's own groups, and a rule FreeIPA matched through one of them is reported as
      contradicting: here a user's own groups fill an index of any size, and the data are complete. */
  method FullIndexContradicts(maxNodes: nat, maxEdges: nat)
    returns (index: RelationshipIndex, user: Membership, host: Membership, e: RuleExplanation)
    requires 2 <= maxNodes <= maxEdges
    ensures index.Valid() && |index.nodes| == index.maxNodes == maxNodes && !ServiceFits(index, SSHD)
    ensures IsEntry(user, USER, ObjectEntry("alice", Longer(maxNodes - 2), []))
    ensures AllLinked(index.edges, user.node.Id(), GROUP, user.direct)
    ensures IsEntry(host, HOST, ObjectEntry("ws1", [], []))
    ensures SidesOutlined(REMOTE_LOGIN, KnownOf(Some(user)), KnownOf(Some(host)), None, "alice", "ws1", "sshd", Some(true),
                          e.user, e.host, e.service)
    ensures e.matched && e.status == CONTRADICTING
    ensures RuleMatches(REMOTE_LOGIN, user.AllGroups(), host.AllGroups(), ServiceGroups(SSHD), "alice", "ws1", "sshd")
  {
    hide Grouped, RuleMatches, SideMatches, Truthful, ServiceGroups, HangsOnServiceGroup, ServiceFits, GroupsOf,
         RelationshipIndex.Valid, SidesOutlined, Linked, AllLinked, IsEntry, ExplainKeys, KnownOf;
    index, user, host := FullIndex(maxNodes, maxEdges);
    RemoteLogin();
    DoesNotFit(index);
    ghost var nodes := index.nodes.Keys;
    e := Explain(index, REMOTE_LOGIN, Some(user), Some(host), "alice", "ws1", "sshd", SSHD, true);
    FullStays(index, nodes);
    DoesNotFit(index);
  }

  /** A user with as many groups as leave room for one more node, and a host that takes it. */
  method FullIndex(maxNodes: nat, maxEdges: nat) returns (index: RelationshipIndex, user: Membership, host: Membership)
    requires 2 <= maxNodes <= maxEdges
    ensures fresh(index) && index.Valid() && |index.nodes| == index.maxNodes == maxNodes
    ensures IsEntry(user, USER, ObjectEntry("alice", Longer(maxNodes - 2), [])) && IsObject(user.node.kind)
    ensures AllLinked(index.edges, user.node.Id(), GROUP, user.direct)
    ensures IsEntry(host, HOST, ObjectEntry("ws1", [], [])) && IsObject(host.node.kind)
    ensures forall k :: k in index.nodes ==> k.kind != HBAC_SERVICE
  {
    hide Grouped, Lower, Linked, NameKeys;
    var groups := Longer(maxNodes - 2);
    var u: Node;
    index, u := UserWithGroups(maxNodes, maxEdges, groups);
    var h := index.GetNode(HOST, "ws1");
    user, host := Membership(u, ToSet(groups), {}), Membership(h.value, {}, {});
  }

  method UserWithGroups(maxNodes: nat, maxEdges: nat, groups: seq<string>) returns (index: RelationshipIndex, user: Node)
    requires |groups| + 1 < maxNodes <= maxEdges && groups == Longer(|groups|)
    ensures fresh(index) && index.Valid() && index.maxNodes == maxNodes && |index.nodes| == |groups| + 1
    ensures forall k :: k in index.nodes ==> k.kind == USER || k.kind == GROUP
    ensures user.Id() == Node(USER, "alice").Id() && IsObject(user.kind)
    ensures AllLinked(index.edges, user.Id(), GROUP, ToSet(groups))
  {
    hide Lower, HoldsNamed, AddedMemberships, NameKeys, Grouped, AllLinked, RelationshipIndex.Valid;
    index := new RelationshipIndex(maxNodes, maxEdges);
    var u := index.GetNode(USER, "alice");
    user := u.value;
    LongerKeys(|groups|);
    index.AddMemberships(u, GROUP, groups, [], "alice");
    var keys := NameKeys(GROUP, groups) + {user.Id()};
    StillFits(index, keys);
    assert index.nodes.Keys == keys;
    IndexIsKeyed(index);
    ObjectLinked(index.edges, user, GROUP, groups);
  }

  lemma IndexIsKeyed(index: RelationshipIndex)
    requires index.Valid()
    ensures forall k :: k in index.edges ==> index.edges[k].Id() == k
  {
  }

  /** Group names, each longer than the ones before. */
  function Longer(n: nat): (r: seq<string>)
    ensures |r| == n
  {
    if n == 0 then [] else Longer(n - 1) + [seq(n, i => 'g')]
  }

  lemma {:induction false} LongerKeys(n: nat)
    ensures |NameKeys(GROUP, Longer(n))| == n
    ensures forall k {:trigger k in NameKeys(GROUP, Longer(n))} :: k in NameKeys(GROUP, Longer(n)) ==> k.kind == GROUP && |k.name| <= n
    ensures NameKeys(GROUP, []) == {}
  {
    if n > 0 {
      LongerKeys(n - 1);
      var last := seq(n, i => 'g');
      assert NameKeys(GROUP, Longer(n)) == NameKeys(GROUP, Longer(n - 1)) + {Key(GROUP, Lower(last))};
    }
  }

  lemma RemoteLogin()
    ensures forall u, h :: RuleMatches(REMOTE_LOGIN, u, h, ServiceGroups(SSHD), "alice", "ws1", "sshd")
    ensures forall u, h :: !RuleMatches(REMOTE_LOGIN, u, h, {}, "alice", "ws1", "sshd")
    ensures IsKnownService(SSHD)
  {
    assert "remote" in REMOTE_LOGIN.service.groups && Lower("remote") in ServiceGroups(SSHD);
  }

  lemma DoesNotFit(index: RelationshipIndex)
    requires |index.nodes| == index.maxNodes && forall k :: k in index.nodes ==> k.kind != HBAC_SERVICE
    ensures !ServiceFits(index, SSHD) && ServiceKnown(SSHD, false) == None
  {
    hide Lower;
    assert SSHD.canonical.value != "";
  }

  /** A full index stays as it is. */
  lemma FullStays(index: RelationshipIndex, nodes: set<Key>)
    requires index.Valid() && nodes <= index.nodes.Keys && |nodes| == index.maxNodes
    ensures index.nodes.Keys == nodes && |index.nodes| == index.maxNodes
  {
    hide Grouped;
    SubsetSize(nodes, index.nodes.Keys);
    assert |index.nodes.Keys - nodes| == |index.nodes.Keys| - |nodes|;
  }

  // ------------------------------------------------------------------ from the directory to the explanation

  function Targets(side: Side, kind: NodeKind, names: seq<string>): seq<RuleTarget> {
    seq(|names|, i requires 0 <= i < |names| => RuleTarget(side, kind, names[i]))
  }

  /** What a rule lists, side by side. */
  function RuleEntryOf(rule: HbacRule): RuleEntry {
    RuleEntry(rule.name,
              Targets(UserSide, USER, rule.user.names) + Targets(UserSide, GROUP, rule.user.groups)
              + Targets(HostSide, HOST, rule.host.names) + Targets(HostSide, HOSTGROUP, rule.host.groups)
              + Targets(ServiceSide, HBAC_SERVICE, rule.service.names)
              + Targets(ServiceSide, HBAC_SERVICE_GROUP, rule.service.groups))
  }

  /** Every object and every group that a side of the rule lists is a target of that side, and nothing else is. */
  lemma TargetsAreListed(rule: HbacRule, t: RuleTarget)
    ensures t in RuleEntryOf(rule).targets <==>
              match t.side
              case UserSide => (t.kind == USER && t.name in rule.user.names) || (t.kind == GROUP && t.name in rule.user.groups)
              case HostSide => (t.kind == HOST && t.name in rule.host.names) || (t.kind == HOSTGROUP && t.name in rule.host.groups)
              case ServiceSide =>
                || (t.kind == HBAC_SERVICE && t.name in rule.service.names)
                || (t.kind == HBAC_SERVICE_GROUP && t.name in rule.service.groups)
  {
    hide Targets;
    TargetsAre(UserSide, USER, rule.user.names, t);
    TargetsAre(UserSide, GROUP, rule.user.groups, t);
    TargetsAre(HostSide, HOST, rule.host.names, t);
    TargetsAre(HostSide, HOSTGROUP, rule.host.groups, t);
    TargetsAre(ServiceSide, HBAC_SERVICE, rule.service.names, t);
    TargetsAre(ServiceSide, HBAC_SERVICE_GROUP, rule.service.groups, t);
  }

  lemma TargetsAre(side: Side, kind: NodeKind, names: seq<string>, t: RuleTarget)
    ensures t in Targets(side, kind, names) <==> t.side == side && t.kind == kind && t.name in names
  {
    if t.side == side && t.kind == kind && t.name in names {
      var i :| 0 <= i < |names| && names[i] == t.name;
      assert Targets(side, kind, names)[i] == t;
    }
  }

  /** The nested groups of an object that one side of a rule lists: those whose chain is looked for. */
  function Wanted(sides: seq<RuleSide>, indirect: seq<string>): set<string> {
    set i, g | 0 <= i < |sides| && !sides[i].categoryAll && g in sides[i].groups
               && Lower(g) in (set x | x in indirect :: Lower(x)) :: g
  }

  /** Every group explained as nested, to which the directory holds a nesting of readable groups, has a complete chain. */
  ghost predicate NestingExplained(dir: Directory, kind: NodeKind, m: Membership, out: seq<SideExplanation>) {
    forall x, names :: x in out && x.how == ByNestedGroup && Nests(dir, kind, DirectNames(m), m.AllGroups(), names, Lower(x.via))
      ==> x.chainComplete
  }

  lemma NestingIsExplained(dir: Directory, kind: NodeKind, m: Membership, sides: seq<RuleSide>, i: nat, indirect: seq<string>,
                           edges: EdgeMap, read: set<Key>, objectName: string, out: seq<SideExplanation>)
    requires i < |sides| && m.indirect == ToSet(indirect)
    requires FindsEveryNesting(dir, kind, m, Wanted(sides, indirect), edges)
    requires ReadShaped(edges, read) && |read| <= MAX_GROUP_FETCHES
    requires Truthful(edges, m, sides[i].groups, kind, false, out)
    requires Outlines(out, SideReasons(sides[i], KnownOf(Some(m)), objectName, true))
    ensures NestingExplained(dir, kind, m, out)
  {
    hide Lower, Linked, ReadShaped, NamesShortestChain, Nests;
    forall x, names | x in out && x.how == ByNestedGroup
                      && Nests(dir, kind, DirectNames(m), m.AllGroups(), names, Lower(x.via))
      ensures x.chainComplete
    {
      assert x.NamesGroup() && x.via in sides[i].groups && ExplainsGroup(edges, m, kind, false, x, x.via);
      WantedNested(m, sides, i, indirect, x.via);
      var t := Key(kind, Lower(x.via));
      assert Linked(edges, m.node.Id(), t);
      DepthBoundHidesNothing(edges, read, m.node.Id(), t);
    }
  }

  function LowerEach(names: seq<string>): seq<string> { seq(|names|, i requires 0 <= i < |names| => Lower(names[i])) }

  /** A chain called complete spells out, from the object on, a nesting that FreeIPA holds. */
  ghost predicate ChainsTrue(dir: Directory, kind: NodeKind, m: Membership, out: seq<SideExplanation>) {
    forall x {:trigger x in out} :: x in out && x.NamesGroup() && x.chainComplete ==> ShowsNesting(dir, kind, m, x)
  }

  ghost predicate ShowsNesting(dir: Directory, kind: NodeKind, m: Membership, x: SideExplanation) {
    && x.chain != [] && x.chain[0] == m.node.name
    && Nests(dir, kind, DirectNames(m), m.AllGroups(), LowerEach(x.chain[1..]), Lower(x.via))
  }

  lemma ChainsAreTrue(dir: Directory, edges: EdgeMap, kind: NodeKind, groupKind: NodeKind, m: Membership, e: ObjectEntry,
                      groups: seq<string>, full: bool, out: seq<SideExplanation>)
    requires forall k :: k in edges && k.kind == MEMBER_OF && (k.src.kind == kind || k.src.kind == groupKind) ==>
               StatedOf(dir, kind, groupKind, e, k)
    requires IsObject(kind) && !IsObject(groupKind) && IsEntry(m, kind, e)
    requires Truthful(edges, m, groups, groupKind, full, out)
    ensures ChainsTrue(dir, groupKind, m, out)
  {
    hide Lower, StatedOf, Nests, DirectNames;
    forall x | x in out && x.NamesGroup() && x.chainComplete ensures ShowsNesting(dir, groupKind, m, x) {
      assert ExplainsGroup(edges, m, groupKind, full, x, x.via);
      if x.how == ByGroup {
        NestsStart(dir, groupKind, DirectNames(m), m.AllGroups(), Lower(x.via));
        assert LowerEach(x.chain[1..]) == [Lower(x.via)];
      } else {
        var t := Key(groupKind, Lower(x.via));
        var path :| IsChain(edges, m.node.Id(), path, t) && x.chain == [m.node.name] + DstNames(path);
        ChainIsNesting(dir, edges, kind, groupKind, m, e, path, t);
        assert x.chain[1..] == DstNames(path) && LowerEach(DstNames(path)) == Along(path);
      }
    }
  }

  lemma WantedNested(m: Membership, sides: seq<RuleSide>, i: nat, indirect: seq<string>, g: string)
    requires i < |sides| && !sides[i].categoryAll && g in sides[i].groups && m.indirect == ToSet(indirect)
    requires Lower(g) in m.AllGroups() && Lower(g) !in DirectNames(m)
    ensures g in Wanted(sides, indirect)
  {
    hide Lower;
  }

  function UserSides(rules: seq<HbacRule>): seq<RuleSide> { seq(|rules|, i requires 0 <= i < |rules| => rules[i].user) }

  function HostSides(rules: seq<HbacRule>): seq<RuleSide> { seq(|rules|, i requires 0 <= i < |rules| => rules[i].host) }

  /** What is known of the service: its entry, or that there is none of this name, or nothing. */
  function ServiceOf(service: Option<ObjectEntry>, absent: bool): Service {
    match service
    case Some(e) => Service(Some(true), Some(e.name), ToSet(e.direct))
    case None => Service(if absent then Some(false) else None, None, {})
  }

  /** A service whose entry was read is known with its groups; otherwise it is known, if at all, to be absent. */
  lemma ServiceIsKnown(service: Option<ObjectEntry>, absent: bool)
    ensures var st := ServiceOf(service, absent);
            if service.Some? then
              && st.present == Some(true) && st.canonical == Some(service.value.name)
              && (service.value.name != "" ==> ServiceGroups(st) == Lowered(ToSet(service.value.direct)))
            else ServiceGroups(st) == {} && (st.present == Some(false) <==> absent) && (st.present == None <==> !absent)
  {
    hide Lower;
  }

  function ServiceName(service: Option<ObjectEntry>, asked: string): string { if service.Some? then service.value.name else asked }

  function QuestionOf(user: ObjectEntry, host: ObjectEntry, service: Option<ObjectEntry>, rules: seq<HbacRule>,
                      relevant: Side -> set<string>): Question
  {
    Question(user, host, service, seq(|rules|, i requires 0 <= i < |rules| => RuleEntryOf(rules[i])), relevant)
  }

  /** The explanation is of this rule, gives every reason on the user's and the host's side, and the chains of the groups
      among them are shortest stored ones, or marked incomplete. */
  ghost predicate Explained(rule: HbacRule, edges: EdgeMap, full: bool, u: Option<Membership>, h: Option<Membership>,
                            user: string, host: string, matched: bool, e: RuleExplanation)
  {
    && e.rule == rule.name && e.enabled == rule.enabled && e.matched == matched
    && Outlines(e.user, SideReasons(rule.user, KnownOf(u), user, true))
    && Outlines(e.host, SideReasons(rule.host, KnownOf(h), host, true))
    && (u.Some? ==> Truthful(edges, u.value, rule.user.groups, GROUP, full, e.user))
    && (h.Some? ==> Truthful(edges, h.value, rule.host.groups, HOSTGROUP, full, e.host))
  }

  /** Nothing is left open: every reason of the service's side is given too; the status follows from whether an enabled rule
      matches all three sides, and if the enabled flag of the rule is known and the service was read, the explanation
      contradicts FreeIPA exactly when that differs from its answer; and each nesting the directory holds has a complete
      chain. */
  ghost predicate FullyExplained(rule: HbacRule, dir: Directory, u: Membership, h: Membership, st: Service, user: string,
                                 host: string, service: string, e: RuleExplanation)
  {
    var grants := RuleMatches(rule, u.AllGroups(), h.AllGroups(), ServiceGroups(st), user, host, service)
                  && rule.enabled == Some(true);
    && Outlines(e.service, SideReasons(rule.service, ServiceKnown(st, true), service, st.present.Some?))
    && StatusFits(e, grants, st.present.Some?)
    && (st.present.Some? && rule.enabled.Some? ==> (e.status == CONTRADICTING <==> grants != e.matched))
    && NestingExplained(dir, GROUP, u, e.user) && NestingExplained(dir, HOSTGROUP, h, e.host)
  }

  /** Reads and explains the rules of one question: every reason is given on the sides of user and host, and in a new index
      every complete chain is a nesting that FreeIPA holds. If no bound was hit, nothing is left open; and with enough room
      for the question no bound is hit. */
  method ExplainQuestion(run: Run, user: ObjectEntry, host: ObjectEntry, service: Option<ObjectEntry>, absent: bool,
                         asked: string, relevant: Side -> set<string>, rules: seq<HbacRule>, matched: set<string>)
    returns (u: Option<Membership>, h: Option<Membership>, es: seq<RuleExplanation>)
    requires run.Valid() && run.checks == [] && run.chainReads == 0 && run.limitNotes == 0
    modifies run`checks, run`chainReads, run`read, run`limitNotes, run`names, run`before
    modifies run.index`nodes, run.index`edges, run.index`out, run.index`truncated
    ensures run.Valid() && run.chainReads == |run.checks| <= MAX_GROUP_FETCHES
    ensures ReadsOfBoth(run.dir, run.checks, EntryNames(user, Wanted(UserSides(rules), user.indirect)),
                        EntryNames(host, Wanted(HostSides(rules), host.indirect)))
    ensures run.limitNotes > 0 ==> run.chainReads == MAX_GROUP_FETCHES
    ensures run.index.nodes.Keys <= old(run.index.nodes).Keys
              + AllKeys(QuestionOf(user, host, service, rules, relevant),
                        Wanted(UserSides(rules), user.indirect), Wanted(HostSides(rules), host.indirect))
    ensures (u.Some? ==> IsEntry(u.value, USER, user)) && (h.Some? ==> IsEntry(h.value, HOST, host))
    ensures |es| == |rules|
    ensures forall i :: 0 <= i < |rules| ==>
              Explained(rules[i], run.index.edges, run.index.truncated, u, h, user.name, host.name,
                        Lower(rules[i].name) in matched, es[i])
    ensures old(run.index.edges) == map[] ==> forall i :: 0 <= i < |rules| ==>
              && (u.Some? ==> ChainsTrue(run.dir, GROUP, u.value, es[i].user))
              && (h.Some? ==> ChainsTrue(run.dir, HOSTGROUP, h.value, es[i].host))
    ensures !run.index.truncated && run.limitNotes == 0 ==>
              && u.Some? && h.Some?
              && forall i :: 0 <= i < |rules| ==>
                   FullyExplained(rules[i], run.dir, u.value, h.value, ServiceOf(service, absent), user.name, host.name,
                                  ServiceName(service, asked), es[i])
    ensures old(run.HasRoomFor(QuestionOf(user, host, service, rules, relevant),
                               Wanted(UserSides(rules), user.indirect), Wanted(HostSides(rules), host.indirect))) ==>
              !run.index.truncated && run.limitNotes == 0
  {
    hide Lower, Grouped, FindsEveryNesting, Wanted, Explained, FullyExplained, AllKeys, RelationshipIndex.Valid, ReadShaped,
         QuestionEdges, Run.HasRoomFor, QuestionOf, EntryGroups, EntryNames, IsEntry, ExplainKeys, Stated, ChainsTrue,
         ReadsOfBoth;
    var q := QuestionOf(user, host, service, rules, relevant);
    var wantedOfUser, wantedOfHost := Wanted(UserSides(rules), user.indirect), Wanted(HostSides(rules), host.indirect);
    ghost var room := run.HasRoomFor(q, wantedOfUser, wantedOfHost);
    ghost var nodes := run.index.nodes.Keys;
    if run.index.edges == map[] { NothingStored(run.dir, q); }
    if room { run.RoomFacts(q, wantedOfUser, wantedOfHost); }
    u, h := run.ExpandBothSides(q, wantedOfUser, wantedOfHost);
    QuestionIs(user, host, service, rules, relevant);
    es := ExplainEach(run.index, run.dir, run.read, run.limitNotes == 0, u, h, user, host, rules, ServiceName(service, asked),
                      ServiceOf(service, absent), matched);
    if old(run.index.edges) == map[] {
      forall i | 0 <= i < |rules|
        ensures u.Some? ==> ChainsTrue(run.dir, GROUP, u.value, es[i].user)
        ensures h.Some? ==> ChainsTrue(run.dir, HOSTGROUP, h.value, es[i].host)
      {
        ExplainedIsTrue(run.dir, q, rules[i], run.index.edges, run.index.truncated, u, h, Lower(rules[i].name) in matched, es[i]);
      }
    }
    ExplainedAmong(u, h, user, host, service, absent, rules, relevant, wantedOfUser, wantedOfHost);
    if room { StillFits(run.index, nodes + AllKeys(q, wantedOfUser, wantedOfHost)); }
  }

  lemma NothingStored(dir: Directory, q: Question)
    ensures Stated(dir, q, map[])
  {
  }

  lemma ExplainedIsTrue(dir: Directory, q: Question, rule: HbacRule, edges: EdgeMap, full: bool, u: Option<Membership>,
                        h: Option<Membership>, matched: bool, e: RuleExplanation)
    requires Stated(dir, q, edges) && Explained(rule, edges, full, u, h, q.user.name, q.host.name, matched, e)
    requires (u.Some? ==> IsEntry(u.value, USER, q.user)) && (h.Some? ==> IsEntry(h.value, HOST, q.host))
    ensures u.Some? ==> ChainsTrue(dir, GROUP, u.value, e.user)
    ensures h.Some? ==> ChainsTrue(dir, HOSTGROUP, h.value, e.host)
  {
    hide Lower, Truthful, StatedOf, Stated, ChainsTrue, IsEntry, Outlines, SideReasons;
    StatedSides(dir, q, edges);
    if u.Some? { ChainsAreTrue(dir, edges, USER, GROUP, u.value, q.user, rule.user.groups, full, e.user); }
    if h.Some? { ChainsAreTrue(dir, edges, HOST, HOSTGROUP, h.value, q.host, rule.host.groups, full, e.host); }
  }

  lemma QuestionIs(user: ObjectEntry, host: ObjectEntry, service: Option<ObjectEntry>, rules: seq<HbacRule>,
                   relevant: Side -> set<string>)
    ensures var q := QuestionOf(user, host, service, rules, relevant); q.user == user && q.host == host && q.service == service
  {
  }

  lemma StillFits(index: RelationshipIndex, keys: set<Key>)
    requires index.Valid() && index.nodes.Keys <= keys && |keys| < index.maxNodes && |index.edges| < index.maxEdges
    ensures !index.truncated
  {
    hide Grouped;
    SubsetSize(index.nodes.Keys, keys);
  }

  /** An explanation adds no node that the question did not ask room for. */
  lemma ExplainedAmong(u: Option<Membership>, h: Option<Membership>, user: ObjectEntry, host: ObjectEntry,
                       service: Option<ObjectEntry>, absent: bool, rules: seq<HbacRule>, relevant: Side -> set<string>,
                       wantedOfUser: set<string>, wantedOfHost: set<string>)
    requires (u.Some? ==> IsEntry(u.value, USER, user)) && (h.Some? ==> IsEntry(h.value, HOST, host))
    ensures ExplainKeys(u, h, ServiceOf(service, absent))
         <= AllKeys(QuestionOf(user, host, service, rules, relevant), wantedOfUser, wantedOfHost)
  {
    hide Lower, RulesKeys, RuleEntryOf;
    if u.Some? { EntryIs(u.value, USER, user, wantedOfUser); }
    if h.Some? { EntryIs(h.value, HOST, host, wantedOfHost); }
  }

  /** Both sides were expanded without a bound hit. */
  ghost predicate Expanded(dir: Directory, u: Option<Membership>, h: Option<Membership>, user: ObjectEntry, host: ObjectEntry,
                           rules: seq<HbacRule>, edges: EdgeMap)
  {
    && u.Some? && FindsEveryNesting(dir, GROUP, u.value, Wanted(UserSides(rules), user.indirect), edges)
    && h.Some? && FindsEveryNesting(dir, HOSTGROUP, h.value, Wanted(HostSides(rules), host.indirect), edges)
  }

  /** Explains the rules one after another. */
  method ExplainEach(index: RelationshipIndex, ghost dir: Directory, ghost read: set<Key>, ghost expanded: bool,
                     u: Option<Membership>, h: Option<Membership>, user: ObjectEntry, host: ObjectEntry, rules: seq<HbacRule>,
                     service: string, st: Service, matched: set<string>) returns (es: seq<RuleExplanation>)
    requires index.Valid() && ReadShaped(index.edges, read) && |read| <= MAX_GROUP_FETCHES
    requires (u.Some? ==> IsEntry(u.value, USER, user)) && (h.Some? ==> IsEntry(h.value, HOST, host))
    requires expanded && !index.truncated ==> Expanded(dir, u, h, user, host, rules, index.edges)
    modifies index`nodes, index`truncated
    ensures index.Valid() && (old(index.truncated) ==> index.truncated)
    ensures index.nodes.Keys <= old(index.nodes).Keys + ExplainKeys(u, h, st)
    ensures |es| == |rules|
    ensures forall i :: 0 <= i < |rules| ==>
              Explained(rules[i], index.edges, index.truncated, u, h, user.name, host.name, Lower(rules[i].name) in matched, es[i])
    ensures expanded && !index.truncated ==>
              && u.Some? && h.Some?
              && forall i :: 0 <= i < |rules| ==>
                   FullyExplained(rules[i], dir, u.value, h.value, st, user.name, host.name, service, es[i])
  {
    hide Lower, Grouped, Truthful, ReadShaped, RuleMatches, Contradicts, HangsOnServiceGroup, ServiceFits, ServiceGroups,
         FindsEveryNesting, Wanted, DataComplete, GroupsOf, RelationshipIndex.Valid, Explained,
         FullyExplained, SidesOutlined, ExplainKeys, IsEntry;
    es := [];
    for i := 0 to |rules|
      invariant |es| == i && index.Valid() && (old(index.truncated) ==> index.truncated)
      invariant index.nodes.Keys <= old(index.nodes).Keys + ExplainKeys(u, h, st)
      invariant forall j :: 0 <= j < i ==>
        Explained(rules[j], index.edges, index.truncated, u, h, user.name, host.name, Lower(rules[j].name) in matched, es[j])
      invariant expanded && !index.truncated ==> u.Some? && h.Some? && forall j :: 0 <= j < i ==>
        FullyExplained(rules[j], dir, u.value, h.value, st, user.name, host.name, service, es[j])
    {
      ghost var full := index.truncated;
      var e := ExplainOne(index, dir, read, expanded, u, h, user, host, rules, i, service, st, Lower(rules[i].name) in matched);
      forall j | 0 <= j < i
        ensures Explained(rules[j], index.edges, index.truncated, u, h, user.name, host.name, Lower(rules[j].name) in matched, es[j])
      {
        StillExplained(rules[j], index.edges, full, index.truncated, u, h, user.name, host.name,
                       Lower(rules[j].name) in matched, es[j]);
      }
      es := es + [e];
    }
  }

  lemma StillExplained(rule: HbacRule, edges: EdgeMap, full: bool, full': bool, u: Option<Membership>, h: Option<Membership>,
                       user: string, host: string, matched: bool, e: RuleExplanation)
    requires Explained(rule, edges, full, u, h, user, host, matched, e) && (full ==> full')
    ensures Explained(rule, edges, full', u, h, user, host, matched, e)
  {
    hide Truthful, Outlines, SideReasons, KnownOf;
    if u.Some? { TruthfulStill(edges, u.value, rule.user.groups, GROUP, full, full', e.user); }
    if h.Some? { TruthfulStill(edges, h.value, rule.host.groups, HOSTGROUP, full, full', e.host); }
  }

  method ExplainOne(index: RelationshipIndex, ghost dir: Directory, ghost read: set<Key>, ghost expanded: bool,
                    u: Option<Membership>, h: Option<Membership>, user: ObjectEntry, host: ObjectEntry, rules: seq<HbacRule>,
                    i: nat, service: string, st: Service, matched: bool) returns (e: RuleExplanation)
    requires index.Valid() && ReadShaped(index.edges, read) && |read| <= MAX_GROUP_FETCHES && i < |rules|
    requires (u.Some? ==> IsEntry(u.value, USER, user)) && (h.Some? ==> IsEntry(h.value, HOST, host))
    requires expanded && !index.truncated ==> Expanded(dir, u, h, user, host, rules, index.edges)
    modifies index`nodes, index`truncated
    ensures index.Valid() && (old(index.truncated) ==> index.truncated)
    ensures index.nodes.Keys <= old(index.nodes).Keys + ExplainKeys(u, h, st)
    ensures Explained(rules[i], index.edges, index.truncated, u, h, user.name, host.name, matched, e)
    ensures expanded && !index.truncated ==>
              u.Some? && h.Some? && FullyExplained(rules[i], dir, u.value, h.value, st, user.name, host.name, service, e)
  {
    hide Lower, Grouped, Truthful, ReadShaped, RuleMatches, Contradicts, HangsOnServiceGroup, ServiceFits, ServiceGroups,
         FindsEveryNesting, Wanted, RelationshipIndex.Valid, NestingExplained, Outlines, SideReasons,
         KnownOf, ServiceKnown, ExplainKeys, ReadShaped;
    e := Explain(index, rules[i], u, h, user.name, host.name, service, st, matched);
    if expanded && !index.truncated {
      NestingIsExplained(dir, GROUP, u.value, UserSides(rules), i, user.indirect, index.edges, read, user.name, e.user);
      NestingIsExplained(dir, HOSTGROUP, h.value, HostSides(rules), i, host.indirect, index.edges, read, host.name, e.host);
    }
  }

  // ------------------------------------------------------------------ the verdict

  datatype ApiError = NotFound | AuthRefused | OtherError

  datatype Response<+T> = Answer(value: T) | Failed(error: ApiError)

  datatype UserEntry = UserEntry(uid: string, preserved: bool)

  /** FreeIPA's own evaluation, as received. */
  datatype Evaluated = Evaluated(granted: Option<bool>, matched: seq<string>, errorRules: seq<string>, truncated: bool)

  datatype State = PASS | FAIL | UNKNOWN

  datatype ExplanationStatus = NONE | ALL_COMPLETE | SOME_INCOMPLETE | SOME_CONTRADICTING

  datatype Code = EVALUATOR_UNAVAILABLE | TRUSTED_IDENTITY_UNSUPPORTED | EVALUATOR_FAILED | EVALUATOR_TRUNCATED
    | EVALUATOR_RULE_ERRORS | EXPLANATION_CONTRADICTS | RELATIONSHIP_INCOMPLETE | HBAC_DENIED

  /** What the four calls that precede the decision answer. */
  datatype Decisive = Decisive(user: Response<UserEntry>, host: Response<string>, service: Response<string>,
                               evaluation: Response<Evaluated>)

  /** The requirement on the verdict, stated over the decisive answers alone: FreeIPA evaluated this request, for an
      existing user that is not preserved and an existing host, and its answer is complete and consistent. */
  predicate Decided(unavailable: bool, trustedDomain: bool, d: Decisive) {
    && !unavailable && !trustedDomain
    && d.user.Answer? && d.user.value.uid != "" && !d.user.value.preserved
    && d.host.Answer? && d.host.value != ""
    && d.service != Failed(AuthRefused)
    && d.evaluation.Answer? && d.evaluation.value.granted.Some?
    && (d.evaluation.value.granted.value <==> d.evaluation.value.matched != [])
    && d.evaluation.value.errorRules == [] && !d.evaluation.value.truncated
  }

  function Verdict(unavailable: bool, trustedDomain: bool, d: Decisive): State {
    if !Decided(unavailable, trustedDomain, d) then UNKNOWN
    else if d.evaluation.value.granted.value then PASS else FAIL
  }

  /** The rule is read with this result: no rule before it met a refusal of the ticket. */
  ghost predicate ReadsAs(rules: seq<Response<Status>>, i: nat, s: Status) {
    i < |rules| && rules[i] == Answer(s) && forall j :: 0 <= j < i ==> rules[j] != Failed(AuthRefused)
  }

  ghost predicate AnyReadAs(rules: seq<Response<Status>>, n: nat, s: Status) { exists i: nat :: i < n && ReadsAs(rules, i, s) }

  lemma MoreRead(rules: seq<Response<Status>>, i: nat)
    requires i < |rules|
    ensures forall s :: AnyReadAs(rules, i + 1, s) <==> AnyReadAs(rules, i, s) || ReadsAs(rules, i, s)
  {
  }

  lemma FirstRead(rules: seq<Response<Status>>, first: seq<Response<Status>>)
    requires first == if |rules| > MAX_RULES then rules[..MAX_RULES] else rules
    ensures forall s :: AnyReadAs(first, |first|, s) <==> AnyReadAs(rules, MAX_RULES, s)
  {
    forall i: nat, s | i < |first| ensures ReadsAs(first, i, s) <==> ReadsAs(rules, i, s) {
      assert forall j :: 0 <= j < i ==> first[j] == rules[j];
    }
  }

  /** Every rule is read, and explained completely. */
  ghost predicate AllComplete(rules: seq<Response<Status>>) { forall i :: 0 <= i < |rules| ==> rules[i] == Answer(COMPLETE) }

  lemma AllCompleteIs(rules: seq<Response<Status>>)
    ensures AllComplete(rules) <==>
              (forall i :: 0 <= i < |rules| ==> rules[i].Answer?) && forall s :: AnyReadAs(rules, |rules|, s) ==> s == COMPLETE
  {
    if forall i :: 0 <= i < |rules| ==> rules[i].Answer? {
      forall i | 0 <= i < |rules| ensures AnyReadAs(rules, |rules|, rules[i].value) { assert ReadsAs(rules, i, rules[i].value); }
    }
  }

  class Inquiry {
    var unavailable: bool
    var findings: seq<Code>
    var rulesUnread: nat
    var rulesCut: bool

    constructor (unavailable: bool)
      ensures this.unavailable == unavailable && findings == [] && rulesUnread == 0 && !rulesCut
    {
      this.unavailable, findings, rulesUnread, rulesCut := unavailable, [], 0, false;
    }

    /** One API call. Once the server refused the operator's ticket, nothing more is asked. */
    method Call<T>(answer: Response<T>) returns (r: Response<T>)
      modifies this`unavailable
      ensures r == if old(unavailable) then Failed(OtherError) else answer
      ensures unavailable == (old(unavailable) || answer == Failed(AuthRefused))
    {
      if unavailable {
        return Failed(OtherError);
      }
      if answer == Failed(AuthRefused) {
        unavailable := true;
      }
      return answer;
    }

    method Find(code: Code)
      modifies this`findings
      ensures findings == old(findings) + [code]
    {
      findings := findings + [code];
    }

    /** Reads and explains the rules to be explained. Any of these calls may fail or be refused. */
    method ExplainRules(rules: seq<Response<Status>>) returns (explained: seq<Status>)
      modifies this`unavailable, this`rulesUnread
      ensures |explained| + (rulesUnread - old(rulesUnread)) == |rules|
      ensures !old(unavailable) ==> forall s :: s in explained <==> AnyReadAs(rules, |rules|, s)
      ensures !old(unavailable) ==> (unavailable <==> exists j :: 0 <= j < |rules| && rules[j] == Failed(AuthRefused))
      ensures !old(unavailable) ==>
                ((rulesUnread == old(rulesUnread) && forall s :: s in explained ==> s == COMPLETE) <==> AllComplete(rules))
    {
      explained := [];
      var i := 0;
      while i < |rules|
        invariant 0 <= i <= |rules| && |explained| + (rulesUnread - old(rulesUnread)) == i && rulesUnread >= old(rulesUnread)
        invariant !old(unavailable) ==> (unavailable <==> exists j :: 0 <= j < i && rules[j] == Failed(AuthRefused))
        invariant !old(unavailable) ==> forall s :: s in explained <==> AnyReadAs(rules, i, s)
        invariant !old(unavailable) ==> (rulesUnread == old(rulesUnread) <==> forall j :: 0 <= j < i ==> rules[j].Answer?)
      {
        MoreRead(rules, i);
        ghost var refused := unavailable;
        assert !old(unavailable) ==> forall s :: ReadsAs(rules, i, s) <==> !refused && rules[i] == Answer(s);
        ghost var before := explained;
        var r := Call(rules[i]);
        match r {
          case Answer(status) => explained := explained + [status];
          case Failed(_) => rulesUnread := rulesUnread + 1;
        }
        assert forall s :: s in explained <==> s in before || r == Answer(s);
        i := i + 1;
      }
      if !old(unavailable) { AllCompleteIs(rules); }
    }

    /** The whole sequence of one question. The state depends on the decisive answers alone: no rule, group or
        explanation read afterwards can change it, not even a refusal of the ticket in between. */
    method Diagnose(trustedDomain: bool, d: Decisive, rules: seq<Response<Status>>, groupReadRefused: bool)
      returns (state: State, status: ExplanationStatus)
      requires findings == [] && rulesUnread == 0 && !rulesCut
      modifies this
      ensures state == Verdict(old(unavailable), trustedDomain, d)
      ensures HBAC_DENIED in findings <==> state == FAIL
      ensures state == UNKNOWN ==> status == NONE
      // a decided state is explained by the first MAX_RULES rules, as far as they can be read
      ensures status == SOME_CONTRADICTING <==> state != UNKNOWN && AnyReadAs(rules, MAX_RULES, CONTRADICTING)
      ensures status == ALL_COMPLETE <==>
                && state != UNKNOWN && |rules| <= MAX_RULES && !groupReadRefused && (state == PASS ==> rules != [])
                && AllComplete(rules)
      ensures EXPLANATION_CONTRADICTS in findings <==> status == SOME_CONTRADICTING
      ensures EVALUATOR_UNAVAILABLE in findings ==> state == UNKNOWN
    {
      var present, preserved, hostExists, missing := false, false, false, false;
      var ran, error, granted: Option<bool>, errorRules, truncated := false, false, None, false, false;
      var decided := false;
      var explained: seq<Status> := [];
      if unavailable {
        Find(EVALUATOR_UNAVAILABLE);
      } else if trustedDomain {
        Find(TRUSTED_IDENTITY_UNSUPPORTED);
        var _ := Call(d.host);
        var _ := Call(d.service);
      } else {
        var u := Call(d.user);
        present := u.Answer? && u.value.uid != "";
        preserved := present && u.value.preserved;
        var h := Call(d.host);
        hostExists := h.Answer? && h.value != "";
        missing := u == Failed(NotFound) || h == Failed(NotFound);
        var _ := Call(d.service);
        if present && !preserved && hostExists {
          ran := true;
          var e := Call(d.evaluation);
          if e.Failed? || e.value.granted.None? || (e.value.granted.value <==> e.value.matched == []) {
            error := true;
          } else {
            granted, errorRules, truncated := e.value.granted, e.value.errorRules != [], e.value.truncated;
          }
          decided := !error && granted.Some? && !unavailable;
        }
        if ran && !error {
          if |rules| > MAX_RULES {
            rulesCut := true;
          }
          explained := ExplainRules(if |rules| > MAX_RULES then rules[..MAX_RULES] else rules);
          FirstRead(rules, if |rules| > MAX_RULES then rules[..MAX_RULES] else rules);
          unavailable := unavailable || groupReadRefused;
        }
      }
      if decided && unavailable {
        unavailable := false;
        rulesCut := true;
      }
      if unavailable && EVALUATOR_UNAVAILABLE !in findings {
        Find(EVALUATOR_UNAVAILABLE);
      }
      state, status := Authorization(trustedDomain, preserved, missing, ran, error, granted, errorRules, truncated, explained);
    }

    method Authorization(trustedDomain: bool, preserved: bool, missing: bool, ran: bool, error: bool, granted: Option<bool>,
                         errorRules: bool, truncated: bool, explained: seq<Status>)
      returns (state: State, status: ExplanationStatus)
      requires HBAC_DENIED !in findings && EXPLANATION_CONTRADICTS !in findings
      modifies this`findings
      ensures state == if unavailable || trustedDomain || preserved || missing || !ran || error || truncated || errorRules
                       then UNKNOWN else if granted == Some(true) then PASS else FAIL
      ensures state == UNKNOWN <==> status == NONE
      ensures status == SOME_CONTRADICTING <==> state != UNKNOWN && CONTRADICTING in explained
      ensures status == ALL_COMPLETE <==>
                && state != UNKNOWN && rulesUnread == 0 && !rulesCut && (state == PASS ==> explained != [])
                && forall s :: s in explained ==> s == COMPLETE
      ensures HBAC_DENIED in findings <==> state == FAIL
      ensures EXPLANATION_CONTRADICTS in findings <==> status == SOME_CONTRADICTING
      ensures EVALUATOR_UNAVAILABLE in findings <==> EVALUATOR_UNAVAILABLE in old(findings)
    {
      if unavailable || trustedDomain || preserved || missing || !ran {
        return UNKNOWN, NONE;
      }
      if error {
        Find(EVALUATOR_FAILED);
        return UNKNOWN, NONE;
      }
      if truncated {
        Find(EVALUATOR_TRUNCATED);
        return UNKNOWN, NONE;
      }
      if errorRules {
        Find(EVALUATOR_RULE_ERRORS);
        return UNKNOWN, NONE;
      }
      if CONTRADICTING in explained {
        status := SOME_CONTRADICTING;
        Find(EXPLANATION_CONTRADICTS);
      } else if INCOMPLETE in explained || (granted == Some(true) && explained == []) || rulesUnread > 0 || rulesCut {
        status := SOME_INCOMPLETE;
        Find(RELATIONSHIP_INCOMPLETE);
      } else {
        status := ALL_COMPLETE;
      }
      if granted == Some(true) {
        return PASS, status;
      }
      Find(HBAC_DENIED);
      return FAIL, status;
    }
  }
}
