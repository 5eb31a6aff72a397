/** The environment graph: a bounded store of entities, facts and relations, filled by any sequence of calls. */
module EnvGraph {
  import opened Common

  const MAX_ENTITIES: nat := 400
  const MAX_FACTS: nat := 3000
  const MAX_RELATIONS: nat := 1500

  datatype Kind = Server | Replica | Client | Suffix | Agreement | TopologySegment | ServerRole
    | DirectoryServerInstance | Kdc | Principal | Keytab

  datatype Rel = Hosts | HasRole | ParticipatesIn | SupplierOf | ConsumerOf | Replicates | Connects | SegmentOf
    | PrincipalOf | Contains | Selects

  datatype State = ESTABLISHED | UNKNOWN | CONTRADICTED

  datatype Status = COMPLETE | PARTIAL | NOT_ASKED | FAILED

  datatype Entity = Entity(
    kind: Kind, key: string, owner: Option<string>, scope: Option<string>, evidence: set<string>)

  datatype FactKey = FactKey(subject: string, name: string, observedFrom: Option<string>)

  datatype Fact<V> = Fact(
    value: Option<V>, state: State, evidence: set<string>, collectedAt: Option<string>, source: string,
    context: map<string, string>, conflicting: seq<V>)

  datatype Edge = Edge(kind: Rel, src: string, dst: string)

  datatype Listing = Listing(status: Status, kind: Option<Kind>, members: set<string>, scope: Option<string>)

  datatype Graph<V> = Graph(
    entities: map<string, Entity>, facts: map<FactKey, Fact<V>>, relations: map<Edge, set<string>>,
    listings: map<string, Listing>, lostEntities: nat, lostFacts: nat, lostRelations: nat)

  // ------------------------------------------------------------------ references

  function KindName(kind: Kind): (s: string)
    ensures ':' !in s
  {
    match kind
    case Server => "SERVER"
    case Replica => "REPLICA"
    case Client => "CLIENT"
    case Suffix => "SUFFIX"
    case Agreement => "AGREEMENT"
    case TopologySegment => "TOPOLOGY_SEGMENT"
    case ServerRole => "SERVER_ROLE"
    case DirectoryServerInstance => "DIRECTORY_SERVER_INSTANCE"
    case Kdc => "KDC"
    case Principal => "PRINCIPAL"
    case Keytab => "KEYTAB"
  }

  const KINDS: seq<Kind> :=
    [Server, Replica, Client, Suffix, Agreement, TopologySegment, ServerRole, DirectoryServerInstance, Kdc, Principal, Keytab]

  function Ref(kind: Kind, key: string): string { KindName(kind) + ":" + key }

  /** The text before the first colon, or all of it. */
  function BeforeColon(r: string): (s: string)
    ensures s <= r && ':' !in s
  {
    if r == "" || r[0] == ':' then "" else [r[0]] + BeforeColon(r[1..])
  }

  function NamedKind(name: string, kinds: seq<Kind>): Option<Kind> {
    if kinds == [] then None else if KindName(kinds[0]) == name then Some(kinds[0]) else NamedKind(name, kinds[1..])
  }

  function KindOf(r: string): Option<Kind> { NamedKind(BeforeColon(r), KINDS) }

  lemma {:induction false} BeforeFirstColon(head: string, tail: string)
    requires ':' !in head
    ensures BeforeColon(head + ":" + tail) == head
  {
    if head == "" {
      assert head + ":" + tail == ":" + tail;
    } else {
      BeforeFirstColon(head[1..], tail);
      assert (head + ":" + tail)[1..] == head[1..] + ":" + tail;
    }
  }

  lemma {:induction false} NamedKindFinds(kind: Kind, kinds: seq<Kind>)
    requires kind in kinds
    ensures NamedKind(KindName(kind), kinds) == Some(kind)
  {
    if KindName(kinds[0]) == KindName(kind) {
      NamesDiffer(kinds[0], kind);
    } else {
      NamedKindFinds(kind, kinds[1..]);
    }
  }

  /** The length of a kind's name and one of its letters tell the kinds apart. */
  lemma NamesDiffer(j: Kind, k: Kind)
    requires KindName(j) == KindName(k)
    ensures j == k
  {
    assert KindName(Suffix)[0] == 'S' && KindName(Client)[0] == 'C' && KindName(Keytab)[0] == 'K';
    assert KindName(Server)[3] == 'V' && KindName(Replica)[0] == 'R';
    assert KindName(Suffix)[3] == 'F' && KindName(Agreement)[0] == 'A' && KindName(Principal)[0] == 'P';
  }

  /** The kind that a reference shows is the kind it was made with. */
  lemma KindOfRef(kind: Kind, key: string)
    ensures KindOf(Ref(kind, key)) == Some(kind)
  {
    BeforeFirstColon(KindName(kind), key);
    NamedKindFinds(kind, KINDS);
  }

  function Endpoints(kind: Rel): (set<Kind>, set<Kind>) {
    match kind
    case Hosts => ({Server}, {DirectoryServerInstance, Kdc})
    case HasRole => ({Server}, {ServerRole})
    case ParticipatesIn => ({Server}, {Suffix})
    case SupplierOf => ({Server}, {Agreement})
    case ConsumerOf => ({Server}, {Agreement})
    case Replicates => ({Agreement}, {Suffix})
    case Connects => ({TopologySegment}, {Server})
    case SegmentOf => ({TopologySegment}, {Suffix})
    case PrincipalOf => ({Principal}, {Server})
    case Contains => ({Keytab}, {Principal})
    case Selects => ({Client}, {Server})
  }

  // ------------------------------------------------------------------ the calls

  datatype Op<V> =
    | AddEntity(kind: Kind, key: string, owner: Option<string>, entityScope: Option<string>, evidence: set<string>)
    | AddFact(subject: Option<string>, name: string, report: Fact<V>, observedFrom: Option<string>)
    | AddRelation(rel: Rel, src: Option<string>, dst: Option<string>, support: set<string>)
    | SetEnumeration(listing: string, content: Listing)

  function Empty<V>(): Graph<V> { Graph(map[], map[], map[], map[], 0, 0, 0) }

  /** The call raises an error and changes nothing. */
  predicate Refused<V>(g: Graph<V>, op: Op<V>) {
    match op
    case AddEntity(_, key, _, _, _) => key == ""
    case AddFact(subject, _, report, _) =>
      subject.Some? && (subject.value !in g.entities || (report.source != "LIVE" && report.source != "REPLAY"))
    case AddRelation(rel, src, dst, _) =>
      && src.Some? && dst.Some?
      && (src.value !in g.entities || dst.value !in g.entities || !MayConnect(rel, src.value, dst.value))
    case SetEnumeration(_, _) => false
  }

  predicate MayConnect(rel: Rel, src: string, dst: string) {
    && KindOf(src).Some? && KindOf(src).value in Endpoints(rel).0
    && KindOf(dst).Some? && KindOf(dst).value in Endpoints(rel).1
  }

  function WithEntity<V>(g: Graph<V>, e: Entity): Graph<V> {
    var r := Ref(e.kind, e.key);
    if r in g.entities then g.(entities := g.entities[r := g.entities[r].(evidence := g.entities[r].evidence + e.evidence)])
    else if |g.entities| >= MAX_ENTITIES then g.(lostEntities := g.lostEntities + 1)
    else g.(entities := g.entities[r := e])
  }

  /** An established fact has a value. */
  function Normal<V>(report: Fact<V>): Fact<V> {
    report.(state := if report.value.None? && report.state == ESTABLISHED then UNKNOWN else report.state, conflicting := [])
  }

  /** What a further report makes of a fact. */
  function Merged<V(==)>(known: Fact<V>, report: Fact<V>): Fact<V> {
    if known.state == ESTABLISHED && report.state == ESTABLISHED && known.value != report.value && report.value.Some? then
      known.(state := CONTRADICTED, conflicting := known.conflicting + [report.value.value],
           evidence := known.evidence + report.evidence)
    else if known.state == UNKNOWN && report.state == ESTABLISHED then report
    else known
  }

  function WithFact<V(==)>(g: Graph<V>, k: FactKey, report: Fact<V>): Graph<V> {
    if k in g.facts then g.(facts := g.facts[k := Merged(g.facts[k], Normal(report))])
    else if |g.facts| >= MAX_FACTS then g.(lostFacts := g.lostFacts + 1)
    else g.(facts := g.facts[k := Normal(report)])
  }

  function WithRelation<V>(g: Graph<V>, edge: Edge, support: set<string>): Graph<V> {
    if edge in g.relations then g
    else if |g.relations| >= MAX_RELATIONS then g.(lostRelations := g.lostRelations + 1)
    else g.(relations := g.relations[edge := support])
  }

  function Step<V(==)>(g: Graph<V>, op: Op<V>): Graph<V> {
    if Refused(g, op) then g
    else
      match op
      case AddEntity(kind, key, owner, scope, evidence) => WithEntity(g, Entity(kind, key, owner, scope, evidence))
      case AddFact(subject, name, report, observedFrom) =>
        if subject.None? then g else WithFact(g, FactKey(subject.value, name, observedFrom), report)
      case AddRelation(rel, src, dst, support) =>
        if src.None? || dst.None? then g else WithRelation(g, Edge(rel, src.value, dst.value), support)
      case SetEnumeration(listing, content) => g.(listings := g.listings[listing := content])
  }

  function Steps<V(==)>(g: Graph<V>, ops: seq<Op<V>>): Graph<V> {
    if ops == [] then g else Step(Steps(g, ops[..|ops| - 1]), ops[|ops| - 1])
  }

  // ------------------------------------------------------------------ what every run keeps

  ghost predicate EntitiesValid(entities: map<string, Entity>) {
    && |entities| <= MAX_ENTITIES
    && forall r :: r in entities ==> r == Ref(entities[r].kind, entities[r].key) && entities[r].key != ""
  }

  /** An established value, or nothing; at most one value against it. */
  ghost predicate FactValid<V>(f: Fact<V>) {
    && (f.state == ESTABLISHED ==> f.value.Some?)
    && (f.state != CONTRADICTED ==> f.conflicting == [])
    && |f.conflicting| <= 1
    && (f.conflicting != [] ==> f.value.Some? && f.value.value != f.conflicting[0])
    && (f.source == "LIVE" || f.source == "REPLAY")
  }

  ghost predicate FactsValid<V>(entities: map<string, Entity>, facts: map<FactKey, Fact<V>>) {
    && |facts| <= MAX_FACTS
    && forall k :: k in facts ==> k.subject in entities && FactValid(facts[k])
  }

  /** The edge joins entities of the kinds that its relation may connect. */
  predicate EdgeValid(entities: map<string, Entity>, edge: Edge) {
    && edge.src in entities && edge.dst in entities
    && entities[edge.src].kind in Endpoints(edge.kind).0 && entities[edge.dst].kind in Endpoints(edge.kind).1
  }

  ghost predicate RelationsValid(entities: map<string, Entity>, relations: map<Edge, set<string>>) {
    && |relations| <= MAX_RELATIONS
    && forall edge :: edge in relations ==> EdgeValid(entities, edge)
  }

  ghost predicate Valid<V>(g: Graph<V>) {
    EntitiesValid(g.entities) && FactsValid(g.entities, g.facts) && RelationsValid(g.entities, g.relations)
  }

  /** No entity is withdrawn or changes its kind. */
  ghost predicate KeepsEntities(entities: map<string, Entity>, more: map<string, Entity>) {
    forall r :: r in entities ==> r in more && more[r].kind == entities[r].kind
  }

  lemma StillJoined(entities: map<string, Entity>, more: map<string, Entity>, relations: map<Edge, set<string>>)
    requires KeepsEntities(entities, more) && RelationsValid(entities, relations)
    ensures RelationsValid(more, relations)
  {
    hide Endpoints;
    forall edge | edge in relations ensures EdgeValid(more, edge) { assert EdgeValid(entities, edge); }
  }

  lemma StillAbout<V>(entities: map<string, Entity>, more: map<string, Entity>, facts: map<FactKey, Fact<V>>)
    requires KeepsEntities(entities, more) && FactsValid(entities, facts)
    ensures FactsValid(more, facts)
  {
    hide FactValid;
  }

  lemma WithEntityValid<V>(g: Graph<V>, e: Entity)
    requires Valid(g) && e.key != ""
    ensures Valid(WithEntity(g, e))
  {
    hide EntitiesValid, FactsValid, RelationsValid, Ref;
    var h := WithEntity(g, e);
    assert KeepsEntities(g.entities, h.entities);
    StillAbout(g.entities, h.entities, g.facts);
    StillJoined(g.entities, h.entities, g.relations);
    EntityAdded(g, e);
  }

  lemma EntityAdded<V>(g: Graph<V>, e: Entity)
    requires EntitiesValid(g.entities) && e.key != ""
    ensures EntitiesValid(WithEntity(g, e).entities)
  {
    hide Ref;
  }

  lemma WithFactValid<V>(g: Graph<V>, k: FactKey, report: Fact<V>)
    requires Valid(g) && k.subject in g.entities && (report.source == "LIVE" || report.source == "REPLAY")
    ensures Valid(WithFact(g, k, report))
  {
    hide EntitiesValid, RelationsValid, FactValid, Merged, Normal;
    ReportValid(report);
    if k in g.facts { MergedValid(g.facts[k], Normal(report)); }
  }

  lemma ReportValid<V>(report: Fact<V>)
    requires report.source == "LIVE" || report.source == "REPLAY"
    ensures FactValid(Normal(report))
  {
  }

  lemma MergedValid<V>(f: Fact<V>, report: Fact<V>)
    requires FactValid(f) && FactValid(report)
    ensures FactValid(Merged(f, report))
  {
  }

  lemma WithRelationValid<V>(g: Graph<V>, edge: Edge, support: set<string>)
    requires Valid(g) && edge.src in g.entities && edge.dst in g.entities && MayConnect(edge.kind, edge.src, edge.dst)
    ensures Valid(WithRelation(g, edge, support))
  {
    hide EntitiesValid, FactsValid, EdgeValid, MayConnect;
    MayConnectKinds(g.entities, edge);
  }

  lemma MayConnectKinds(entities: map<string, Entity>, edge: Edge)
    requires EntitiesValid(entities)
    requires edge.src in entities && edge.dst in entities && MayConnect(edge.kind, edge.src, edge.dst)
    ensures EdgeValid(entities, edge)
  {
    hide KindOf, Ref, Endpoints;
    KindOfRef(entities[edge.src].kind, entities[edge.src].key);
    KindOfRef(entities[edge.dst].kind, entities[edge.dst].key);
  }

  lemma StepKeepsValid<V>(g: Graph<V>, op: Op<V>)
    requires Valid(g)
    ensures Valid(Step(g, op))
  {
    hide EntitiesValid, FactsValid, RelationsValid, MayConnect, WithFact, WithEntity, WithRelation;
    if !Refused(g, op) {
      match op
      case AddEntity(kind, key, owner, scope, evidence) => WithEntityValid(g, Entity(kind, key, owner, scope, evidence));
      case AddFact(subject, name, report, observedFrom) =>
        if subject.Some? { WithFactValid(g, FactKey(subject.value, name, observedFrom), report); }
      case AddRelation(rel, src, dst, support) =>
        if src.Some? && dst.Some? { WithRelationValid(g, Edge(rel, src.value, dst.value), support); }
      case SetEnumeration(_, _) =>
    }
  }

  /** After every sequence of calls the bounds hold, facts are about present entities, and relations join present entities
      of the kinds they may connect. */
  lemma {:induction false} EveryRunIsValid<V>(ops: seq<Op<V>>)
    ensures Valid(Steps(Empty<V>(), ops))
  {
    if ops != [] {
      EveryRunIsValid(ops[..|ops| - 1]);
      StepKeepsValid(Steps(Empty<V>(), ops[..|ops| - 1]), ops[|ops| - 1]);
    }
  }

  // ------------------------------------------------------------------ what a call does

  /** In a valid graph a call is refused for these reasons only: an entity without a key, a fact about an unknown entity or
      of an unknown source, and a relation that does not join present entities of the kinds it may connect. */
  lemma RefusedExactly<V>(g: Graph<V>, op: Op<V>)
    requires Valid(g)
    ensures Refused(g, op) <==>
              match op
              case AddEntity(_, key, _, _, _) => key == ""
              case AddFact(subject, _, report, _) =>
                subject.Some? && !(subject.value in g.entities && report.source in {"LIVE", "REPLAY"})
              case AddRelation(rel, src, dst, _) =>
                src.Some? && dst.Some? && !EdgeValid(g.entities, Edge(rel, src.value, dst.value))
              case SetEnumeration(_, _) => false
  {
    hide Endpoints, KindOf, Ref;
    if op.AddRelation? && op.src.Some? && op.dst.Some? && op.src.value in g.entities && op.dst.value in g.entities {
      var src, dst := g.entities[op.src.value], g.entities[op.dst.value];
      KindOfRef(src.kind, src.key);
      KindOfRef(dst.kind, dst.key);
    }
  }

  /** Which kinds a relation joins. */
  const JOINS: set<(Rel, Kind, Kind)> :=
    {(Hosts, Server, DirectoryServerInstance), (Hosts, Server, Kdc), (HasRole, Server, ServerRole),
     (ParticipatesIn, Server, Suffix), (SupplierOf, Server, Agreement), (ConsumerOf, Server, Agreement),
     (Replicates, Agreement, Suffix), (Connects, TopologySegment, Server), (SegmentOf, TopologySegment, Suffix),
     (PrincipalOf, Principal, Server), (Contains, Keytab, Principal), (Selects, Client, Server)}

  /** Between two entities just added a relation is stored exactly if it joins their kinds. */
  lemma JoinedExactly<V>(rel: Rel, j: Kind, k: Kind, a: string, b: string, support: set<string>)
    requires a != "" && b != ""
    ensures
      var g := Step(Step(Empty<V>(), AddEntity(j, a, None, None, {})), AddEntity(k, b, None, None, {}));
      var h := Step(g, AddRelation(rel, Some(Ref(j, a)), Some(Ref(k, b)), support));
      h.relations == if (rel, j, k) in JOINS then map[Edge(rel, Ref(j, a), Ref(k, b)) := support] else map[]
  {
    hide Ref, KindOf, JOINS, Endpoints;
    KindOfRef(j, a);
    KindOfRef(k, b);
    JoinsKinds(rel, j, k);
  }

  lemma JoinsKinds(rel: Rel, j: Kind, k: Kind)
    ensures (rel, j, k) in JOINS <==> j in Endpoints(rel).0 && k in Endpoints(rel).1
  {
  }

  /** What is stored stays: of an entity everything but its evidence, which only grows; of a relation its first evidence. */
  ghost predicate Stays<V>(g: Graph<V>, h: Graph<V>) {
    && (forall r :: r in g.entities ==>
          r in h.entities && h.entities[r] == g.entities[r].(evidence := h.entities[r].evidence)
          && g.entities[r].evidence <= h.entities[r].evidence)
    && (forall e :: e in g.relations ==> e in h.relations && h.relations[e] == g.relations[e])
  }

  lemma {:induction false} StoredStays<V>(g: Graph<V>, ops: seq<Op<V>>)
    ensures Stays(g, Steps(g, ops))
  {
    hide Step;
    if ops != [] {
      StoredStays(g, ops[..|ops| - 1]);
      StepStays(Steps(g, ops[..|ops| - 1]), ops[|ops| - 1]);
    }
  }

  lemma StepStays<V>(g: Graph<V>, op: Op<V>)
    ensures Stays(g, Step(g, op))
  {
    hide MayConnect, Ref, WithFact, WithEntity, WithRelation, Refused, Stays;
    NothingMoves(g);
    match op
    case AddEntity(kind, key, owner, scope, evidence) => EntityStays(g, Entity(kind, key, owner, scope, evidence));
    case AddFact(subject, name, report, observedFrom) =>
      if subject.Some? { FactMovesNothing(g, FactKey(subject.value, name, observedFrom), report); }
    case AddRelation(rel, src, dst, support) =>
      if src.Some? && dst.Some? { RelationStays(g, Edge(rel, src.value, dst.value), support); }
    case SetEnumeration(listing, content) => ListingMovesNothing(g, listing, content);
  }

  lemma NothingMoves<V>(g: Graph<V>)
    ensures Stays(g, g)
  {
  }

  lemma EntityStays<V>(g: Graph<V>, e: Entity)
    ensures Stays(g, WithEntity(g, e))
  {
    hide Ref;
  }

  lemma FactMovesNothing<V>(g: Graph<V>, k: FactKey, report: Fact<V>)
    ensures Stays(g, WithFact(g, k, report))
  {
    hide Merged, Normal;
  }

  lemma RelationStays<V>(g: Graph<V>, edge: Edge, support: set<string>)
    ensures Stays(g, WithRelation(g, edge, support))
  {
  }

  lemma ListingMovesNothing<V>(g: Graph<V>, listing: string, content: Listing)
    ensures Stays(g, g.(listings := g.listings[listing := content]))
  {
  }

  /** A call that is not refused and loses nothing stores what it is given, as far as nothing was stored before. */
  lemma StepStores<V>(g: Graph<V>, op: Op<V>)
    requires !Refused(g, op)
    ensures
      var h := Step(g, op);
      match op
      case AddEntity(kind, key, owner, scope, evidence) =>
        var r := Ref(kind, key);
        r in h.entities ==>
          h.entities[r] == if r in g.entities then g.entities[r].(evidence := g.entities[r].evidence + evidence)
                           else Entity(kind, key, owner, scope, evidence)
      case AddFact(subject, name, report, observedFrom) =>
        (subject.Some? && FactKey(subject.value, name, observedFrom) in h.facts
         && FactKey(subject.value, name, observedFrom) !in g.facts) ==>
          h.facts[FactKey(subject.value, name, observedFrom)]
          == report.(conflicting := [],
                     state := if report.state == ESTABLISHED && report.value.None? then UNKNOWN else report.state)
      case AddRelation(rel, src, dst, support) =>
        (src.Some? && dst.Some? && Edge(rel, src.value, dst.value) in h.relations
         && Edge(rel, src.value, dst.value) !in g.relations) ==> h.relations[Edge(rel, src.value, dst.value)] == support
      case SetEnumeration(listing, content) => h == g.(listings := g.listings[listing := content])
  {
    hide MayConnect, Ref, Merged;
  }

  // ------------------------------------------------------------------ fact states

  function Rank(s: State): nat { match s case UNKNOWN => 0 case ESTABLISHED => 1 case CONTRADICTED => 2 }

  /** A fact is never withdrawn, its state only moves up, and an established value is never replaced. */
  ghost predicate Firmer<V>(g: Graph<V>, h: Graph<V>) {
    forall k :: k in g.facts ==> k in h.facts && Firm(g.facts[k], h.facts[k])
  }

  ghost predicate Firm<V>(f: Fact<V>, h: Fact<V>) {
    && Rank(f.state) <= Rank(h.state)
    && (f.state != UNKNOWN ==> h.value == f.value)
    && (f.state == CONTRADICTED ==> h == f)
  }

  lemma {:induction false} FactsOnlyGetFirmer<V>(g: Graph<V>, ops: seq<Op<V>>)
    ensures Firmer(g, Steps(g, ops))
  {
    if ops != [] {
      var before := Steps(g, ops[..|ops| - 1]);
      FactsOnlyGetFirmer(g, ops[..|ops| - 1]);
      StepFirmer(before, ops[|ops| - 1]);
      forall k | k in g.facts ensures k in Steps(g, ops).facts && Firm(g.facts[k], Steps(g, ops).facts[k]) {
        assert Firm(g.facts[k], before.facts[k]);
      }
    }
  }

  lemma StepFirmer<V>(g: Graph<V>, op: Op<V>)
    ensures Firmer(g, Step(g, op))
  {
    hide MayConnect;
  }

  // ------------------------------------------------------------------ the final state of a fact

  /** The call reports on the fact with key `k` (it is neither refused nor about a dropped entity). */
  predicate Reports<V>(g: Graph<V>, op: Op<V>, k: FactKey) {
    op.AddFact? && !Refused(g, op) && op.subject.Some? && FactKey(op.subject.value, op.name, op.observedFrom) == k
  }

  /** The report is lost because the store is full. */
  predicate Loses<V>(g: Graph<V>, op: Op<V>, k: FactKey) {
    Reports(g, op, k) && k !in g.facts && |g.facts| >= MAX_FACTS
  }

  ghost predicate NeverLost<V>(ops: seq<Op<V>>, k: FactKey) {
    forall i :: 0 <= i < |ops| ==> !Loses(Steps(Empty<V>(), ops[..i]), ops[i], k)
  }

  /** The first report on the fact, and the values reported as established. */
  function First<V(==)>(ops: seq<Op<V>>, k: FactKey): Option<Fact<V>> {
    if ops == [] then None
    else
      FirstOf(First(ops[..|ops| - 1], k), Steps(Empty<V>(), ops[..|ops| - 1]), ops[|ops| - 1], k)
  }

  function FirstOf<V>(first: Option<Fact<V>>, g: Graph<V>, op: Op<V>, k: FactKey): Option<Fact<V>> {
    if first.Some? then first else if Reports(g, op, k) then Some(Normal(op.report)) else None
  }

  /** The first report on the fact is itself a contradiction. */
  predicate OpensContradicted<V(==)>(ops: seq<Op<V>>, k: FactKey) {
    First(ops, k).Some? && First(ops, k).value.state == CONTRADICTED
  }

  function Values<V(==)>(ops: seq<Op<V>>, k: FactKey): set<V> {
    if ops == [] then {}
    else
      var op := ops[|ops| - 1];
      Values(ops[..|ops| - 1], k)
      + if Reports(Steps(Empty<V>(), ops[..|ops| - 1]), op, k) && op.report.state == ESTABLISHED && op.report.value.Some?
        then {op.report.value.value} else {}
  }

  /** What a fact must be, given the values that were reported: no value leaves it unknown, one establishes it, and two
      different ones contradict each other. Of the contradicting values two are kept. */
  ghost predicate Agrees<V(!new)>(f: Fact<V>, values: set<V>) {
    && FactValid(f)
    && (f.state == UNKNOWN <==> values == {})
    && (f.state == ESTABLISHED <==> f.value.Some? && values == {f.value.value})
    && (f.state == CONTRADICTED <==> exists v, w :: v in values && w in values && v != w)
    && (f.state == CONTRADICTED ==> f.value.Some? && f.value.value in values && |f.conflicting| == 1 && f.conflicting[0] in values)
  }

  lemma MergeAgrees<V(!new)>(known: Fact<V>, report: Fact<V>, values: set<V>)
    requires Agrees(known, values) && (report.source == "LIVE" || report.source == "REPLAY")
    ensures
      var more := if report.state == ESTABLISHED && report.value.Some? then {report.value.value} else {};
      Agrees(Merged(known, Normal(report)), values + more)
  {
  }

  lemma FirstAgrees<V(!new)>(report: Fact<V>)
    requires report.state != CONTRADICTED && (report.source == "LIVE" || report.source == "REPLAY")
    ensures
      Agrees(Normal(report), if report.state == ESTABLISHED && report.value.Some? then {report.value.value} else {})
  {
  }

  /** What becomes of a fact: whatever the first report says if it is a contradiction, and otherwise what the values say. */
  ghost predicate FactIs<V(!new)>(g: Graph<V>, k: FactKey, first: Option<Fact<V>>, values: set<V>) {
    && (k in g.facts <==> first.Some?)
    && (first.None? ==> values == {})
    && (first.Some? ==> if first.value.state == CONTRADICTED then g.facts[k] == first.value else Agrees(g.facts[k], values))
  }

  /** A fact that was never dropped is decided by its first report if that is itself a contradiction, and then stays as it
      is; otherwise by the set of different established values that its observer reported: not by their order, nor by how
      often each came, nor by any later report of a contradiction. */
  lemma {:induction false} FinalStateIsByValues<V(!new)>(ops: seq<Op<V>>, k: FactKey)
    requires NeverLost(ops, k)
    ensures FactIs(Steps(Empty<V>(), ops), k, First(ops, k), Values(ops, k))
  {
    hide Agrees, FactIs, FirstOf;
    if ops == [] {
      NothingHeard<V>(k);
    } else {
      var before, op := ops[..|ops| - 1], ops[|ops| - 1];
      assert forall i :: 0 <= i < |before| ==> before[..i] == ops[..i];
      FinalStateIsByValues(before, k);
      FinalStep(Steps(Empty<V>(), before), op, k, First(before, k), Values(before, k));
    }
  }

  lemma NothingHeard<V(!new)>(k: FactKey)
    ensures FactIs(Empty<V>(), k, None, {})
  {
  }

  lemma FinalStep<V(!new)>(g: Graph<V>, op: Op<V>, k: FactKey, first: Option<Fact<V>>, values: set<V>)
    requires !Loses(g, op, k) && FactIs(g, k, first, values)
    ensures
      var more :=
        if Reports(g, op, k) && op.report.state == ESTABLISHED && op.report.value.Some? then {op.report.value.value} else {};
      FactIs(Step(g, op), k, FirstOf(first, g, op, k), values + more)
  {
    hide Agrees, Refused, Merged, Normal;
    if Reports(g, op, k) {
      assert Step(g, op) == WithFact(g, k, op.report);
      ReportedStep(g, op, k, first, values);
    } else {
      OtherFactsStay(g, op, k);
      assert values + {} == values;
    }
  }

  lemma OtherFactsStay<V>(g: Graph<V>, op: Op<V>, k: FactKey)
    requires !Reports(g, op, k)
    ensures k in Step(g, op).facts <==> k in g.facts
    ensures k in g.facts ==> Step(g, op).facts[k] == g.facts[k]
  {
    hide Merged, Normal, Refused;
  }

  lemma ReportedStep<V(!new)>(g: Graph<V>, op: Op<V>, k: FactKey, first: Option<Fact<V>>, values: set<V>)
    requires !Loses(g, op, k) && Reports(g, op, k) && FactIs(g, k, first, values)
    ensures
      var more := if op.report.state == ESTABLISHED && op.report.value.Some? then {op.report.value.value} else {};
      FactIs(WithFact(g, k, op.report), k, FirstOf(first, g, op, k), values + more)
  {
    hide Agrees, MayConnect, Merged, Normal;
    var more := if op.report.state == ESTABLISHED && op.report.value.Some? then {op.report.value.value} else {};
    if k in g.facts {
      if first.value.state == CONTRADICTED {
        ContradictedStays(g.facts[k], Normal(op.report));
      } else {
        MergeAgrees(g.facts[k], op.report, values);
      }
    } else {
      if op.report.state != CONTRADICTED { FirstAgrees(op.report); }
      NormalStates(op.report);
      assert values + more == more;
    }
  }

  lemma ContradictedStays<V>(known: Fact<V>, report: Fact<V>)
    requires known.state == CONTRADICTED
    ensures Merged(known, report) == known
  {
  }

  lemma NormalStates<V>(report: Fact<V>)
    ensures Normal(report).state == CONTRADICTED <==> report.state == CONTRADICTED
  {
  }

  /** Two runs that heard the same values leave the fact in the same state exactly when both or neither of them opened with
      a contradiction, or the values contradict each other anyway: the order of the reports matters in no other way. */
  lemma OrderMattersExactly<V(!new)>(a: seq<Op<V>>, b: seq<Op<V>>, k: FactKey)
    requires NeverLost(a, k) && NeverLost(b, k)
    requires First(a, k).Some? && First(b, k).Some? && Values(a, k) == Values(b, k)
    ensures
      var g, h := Steps(Empty<V>(), a), Steps(Empty<V>(), b);
      && k in g.facts && k in h.facts
      && (g.facts[k].state == h.facts[k].state
          <==> || (OpensContradicted(a, k) <==> OpensContradicted(b, k))
               || exists v, w :: v in Values(a, k) && w in Values(a, k) && v != w)
  {
    hide Steps;
    FinalStateIsByValues(a, k);
    FinalStateIsByValues(b, k);
    if !OpensContradicted(a, k) && !OpensContradicted(b, k) {
      AgreeingStates(Steps(Empty<V>(), a).facts[k], Steps(Empty<V>(), b).facts[k], Values(a, k));
    }
  }

  lemma AgreeingStates<V(!new)>(f: Fact<V>, h: Fact<V>, values: set<V>)
    requires Agrees(f, values) && Agrees(h, values)
    ensures f.state == h.state
  {
  }

  /** A report that is itself a contradiction counts only if it comes before an established value: with such reports the
      order does matter. */
  lemma ContradictedReportsDependOnOrder(k: FactKey)
    requires k.observedFrom == None && k.subject == Ref(Server, "ipa1")
    ensures
      var server := AddEntity(Server, "ipa1", None, None, {});
      var established := AddFact(Some(k.subject), k.name, Fact(Some(1), ESTABLISHED, {}, None, "LIVE", map[], []), None);
      var contradicted := AddFact(Some(k.subject), k.name, Fact(Some(2), CONTRADICTED, {}, None, "LIVE", map[], []), None);
      var g := Step(Step(Step(Empty<int>(), server), established), contradicted);
      var h := Step(Step(Step(Empty<int>(), server), contradicted), established);
      && k in g.facts && g.facts[k].state == ESTABLISHED
      && k in h.facts && h.facts[k].state == CONTRADICTED
  {
  }

  // ------------------------------------------------------------------ nothing is lost silently

  predicate Truncated<V>(g: Graph<V>) { g.lostEntities > 0 || g.lostFacts > 0 || g.lostRelations > 0 }

  /** The call's subject is in the graph. */
  predicate Present<V>(g: Graph<V>, op: Op<V>) {
    match op
    case AddEntity(kind, key, _, _, evidence) => Ref(kind, key) in g.entities && evidence <= g.entities[Ref(kind, key)].evidence
    case AddFact(subject, name, _, observedFrom) => subject.Some? ==> FactKey(subject.value, name, observedFrom) in g.facts
    case AddRelation(rel, src, dst, _) => src.Some? && dst.Some? ==> Edge(rel, src.value, dst.value) in g.relations
    case SetEnumeration(listing, _) => listing in g.listings
  }

  lemma StepKeepsPresent<V>(g: Graph<V>, op: Op<V>, other: Op<V>)
    ensures Present(g, other) ==> Present(Step(g, op), other)
    ensures Truncated(g) ==> Truncated(Step(g, op))
  {
    hide MayConnect, Ref, Merged, Normal;
  }

  lemma StepIsPresent<V>(g: Graph<V>, op: Op<V>)
    requires !Refused(g, op) && !Truncated(Step(g, op))
    ensures Present(Step(g, op), op)
  {
    hide MayConnect, Ref, Merged, Normal;
  }

  /** A graph that does not say it is truncated holds everything that was put in. */
  lemma {:induction false} NothingLostSilently<V>(ops: seq<Op<V>>, i: nat)
    requires i < |ops| && !Truncated(Steps(Empty<V>(), ops)) && !Refused(Steps(Empty<V>(), ops[..i]), ops[i])
    ensures Present(Steps(Empty<V>(), ops), ops[i])
  {
    hide Present, Truncated, Refused, Step;
    var before, last := ops[..|ops| - 1], ops[|ops| - 1];
    StepKeepsPresent(Steps(Empty<V>(), before), last, ops[i]);
    if i == |ops| - 1 {
      StepIsPresent(Steps(Empty<V>(), before), last);
    } else {
      assert before[..i] == ops[..i];
      NothingLostSilently(before, i);
    }
  }

  /** In particular no fact's key is ever dropped in such a run. */
  lemma {:induction false} UntruncatedNeverLoses<V>(ops: seq<Op<V>>, k: FactKey)
    requires !Truncated(Steps(Empty<V>(), ops))
    ensures NeverLost(ops, k)
  {
    hide Truncated, Loses, Step;
    if ops != [] {
      var before, last := ops[..|ops| - 1], ops[|ops| - 1];
      StepKeepsPresent(Steps(Empty<V>(), before), last, last);
      assert !Truncated(Steps(Empty<V>(), before));
      UntruncatedNeverLoses(before, k);
      if Loses(Steps(Empty<V>(), before), last, k) { LosingTruncates(Steps(Empty<V>(), before), last, k); }
      forall i | 0 <= i < |ops| ensures !Loses(Steps(Empty<V>(), ops[..i]), ops[i], k) {
        if i < |before| { assert before[..i] == ops[..i] && before[i] == ops[i]; }
      }
    }
  }

  lemma LosingTruncates<V>(g: Graph<V>, op: Op<V>, k: FactKey)
    requires Loses(g, op, k)
    ensures Truncated(Step(g, op))
  {
    hide MayConnect;
  }

  // ------------------------------------------------------------------ absence

  /** Absence is read only from a complete enumeration of the right kind; presence from any. */
  function Absent<V>(g: Graph<V>, listing: string, kind: Kind, key: string): Option<bool> {
    if listing in g.listings && Ref(kind, key) in g.listings[listing].members then Some(false)
    else if listing !in g.listings || g.listings[listing].status != COMPLETE || g.listings[listing].kind != Some(kind) then None
    else Some(true)
  }

  /** What an enumeration promises about the environment: its members exist, and a complete one misses none of its kind. */
  ghost predicate Honest(content: Listing, present: set<string>) {
    && content.members <= present
    && (content.status == COMPLETE && content.kind.Some? ==>
          forall key {:trigger Ref(content.kind.value, key)} ::
            Ref(content.kind.value, key) in present ==> Ref(content.kind.value, key) in content.members)
  }

  /** The answer is never wrong, and it is given whenever a complete enumeration of the kind is there. */
  lemma AbsenceIsTrue<V>(g: Graph<V>, listing: string, kind: Kind, key: string, present: set<string>)
    requires listing in g.listings ==> Honest(g.listings[listing], present)
    ensures
      var answer := Absent(g, listing, kind, key);
      && (answer == Some(true) ==> Ref(kind, key) !in present)
      && (answer == Some(false) ==> Ref(kind, key) in present)
      && (listing in g.listings && g.listings[listing].status == COMPLETE && g.listings[listing].kind == Some(kind)
          ==> answer == Some(Ref(kind, key) !in present))
  {
    hide Ref;
    if listing in g.listings && g.listings[listing].kind == Some(kind) {
      assert g.listings[listing].kind.value == kind;
    }
  }

  // ------------------------------------------------------------------ the store

  class EnvironmentGraph<V(==)> {
    var entities: map<string, Entity>
    var facts: map<FactKey, Fact<V>>
    var relations: map<Edge, set<string>>
    var listings: map<string, Listing>
    var lostEntities: nat
    var lostFacts: nat
    var lostRelations: nat

    function Contents(): Graph<V>
      reads this
    {
      Graph(entities, facts, relations, listings, lostEntities, lostFacts, lostRelations)
    }

    constructor ()
      ensures Contents() == Empty()
    {
      entities, facts, relations, listings := map[], map[], map[], map[];
      lostEntities, lostFacts, lostRelations := 0, 0, 0;
    }

    method AddEntity(kind: Kind, key: string, owner: Option<string>, scope: Option<string>, evidence: set<string>)
      returns (r: Result<Option<string>, string>)
      modifies this
      ensures
        var op := Op<V>.AddEntity(kind, key, owner, scope, evidence);
        && Contents() == Step(old(Contents()), op)
        && r.Err? == Refused(old(Contents()), op)
        && (r.Ok? ==> r.value == if Ref(kind, key) in entities then Some(Ref(kind, key)) else None)
    {
      if key == "" { return Err("an entity needs a closed kind and a key"); }
      var name := Ref(kind, key);
      if name in entities {
        var known := entities[name];
        entities := entities[name := known.(evidence := known.evidence + evidence)];
        return Ok(Some(name));
      }
      if |entities| >= MAX_ENTITIES {
        lostEntities := lostEntities + 1;
        return Ok(None);
      }
      entities := entities[name := Entity(kind, key, owner, scope, evidence)];
      r := Ok(Some(name));
    }

    method AddFact(subject: Option<string>, name: string, report: Fact<V>, observedFrom: Option<string>)
      returns (r: Result<(), string>)
      modifies this
      ensures
        var op := Op<V>.AddFact(subject, name, report, observedFrom);
        Contents() == Step(old(Contents()), op) && r.Err? == Refused(old(Contents()), op)
    {
      if subject.None? { return Ok(()); }
      if subject.value !in entities { return Err("fact about an unknown entity"); }
      if report.source != "LIVE" && report.source != "REPLAY" { return Err("a fact is LIVE or REPLAY"); }
      var k := FactKey(subject.value, name, observedFrom);
      var state := report.state;
      if report.value.None? && state == ESTABLISHED { state := UNKNOWN; }
      var latest := report.(state := state, conflicting := []);
      if k in facts {
        var known := facts[k];
        if known.state == ESTABLISHED && latest.state == ESTABLISHED && known.value != latest.value {
          facts := facts[k := known.(state := CONTRADICTED, conflicting := known.conflicting + [latest.value.value],
                                     evidence := known.evidence + latest.evidence)];
        } else if known.state == UNKNOWN && latest.state == ESTABLISHED {
          facts := facts[k := latest];
        } else {
          assert facts[k := known] == facts;
        }
        return Ok(());
      }
      if |facts| >= MAX_FACTS {
        lostFacts := lostFacts + 1;
        return Ok(());
      }
      facts := facts[k := latest];
      r := Ok(());
    }

    method AddRelation(kind: Rel, src: Option<string>, dst: Option<string>, evidence: set<string>)
      returns (r: Result<(), string>)
      modifies this
      ensures
        var op := Op<V>.AddRelation(kind, src, dst, evidence);
        Contents() == Step(old(Contents()), op) && r.Err? == Refused(old(Contents()), op)
    {
      if src.None? || dst.None? { return Ok(()); }
      if src.value !in entities || dst.value !in entities { return Err("relation between unknown entities"); }
      if !MayConnect(kind, src.value, dst.value) { return Err("the relation cannot connect these kinds"); }
      var edge := Edge(kind, src.value, dst.value);
      if edge in relations { return Ok(()); }
      if |relations| >= MAX_RELATIONS {
        lostRelations := lostRelations + 1;
        return Ok(());
      }
      relations := relations[edge := evidence];
      r := Ok(());
    }

    method SetEnumeration(listing: string, content: Listing)
      modifies this
      ensures Contents() == Step(old(Contents()), Op<V>.SetEnumeration(listing, content))
    {
      listings := listings[listing := content];
    }
  }
}
