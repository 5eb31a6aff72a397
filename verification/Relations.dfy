/** The relationship index of one access question: a bounded, deduplicated, typed graph with an adjacency index,
    and the breadth-first search for the shortest chain of direct memberships. */
module Relations {
  import opened Common

  const MAX_NODES: nat := 2000
  const MAX_EDGES: nat := 5000
  const MAX_DEPTH: nat := 50

  datatype NodeKind = USER | GROUP | HOST | HOSTGROUP | HBAC_RULE | HBAC_SERVICE | HBAC_SERVICE_GROUP | TRUSTED_DOMAIN

  datatype EdgeKind = MEMBER_OF | MEMBER_OF_INDIRECT | RULE_APPLIES_TO

  datatype Side = UserSide | HostSide | ServiceSide

  /** What identifies a node: its kind and its case-folded name. */
  datatype Key = Key(kind: NodeKind, name: string)

  datatype Node = Node(kind: NodeKind, name: string) {
    function Id(): Key { Key(kind, Lower(name)) }
  }

  datatype EdgeKey = EdgeKey(src: Key, dst: Key, kind: EdgeKind, side: Option<Side>)

  datatype Edge = Edge(src: Node, dst: Node, kind: EdgeKind, source: string, side: Option<Side>) {
    function Id(): EdgeKey { EdgeKey(src.Id(), dst.Id(), kind, side) }
  }

  type EdgeMap = map<EdgeKey, Edge>

  // ------------------------------------------------------------------ chains of direct memberships

  ghost predicate IsDirect(edges: EdgeMap, e: Edge) {
    e.kind == MEMBER_OF && e.Id() in edges && edges[e.Id()] == e
  }

  /** `path` is a connected chain of direct memberships held by the index, from `s` to `t`. */
  ghost predicate IsChain(edges: EdgeMap, s: Key, path: seq<Edge>, t: Key) {
    if path == [] then s == t
    else
      var e := path[|path| - 1];
      IsDirect(edges, e) && e.dst.Id() == t && IsChain(edges, s, path[..|path| - 1], e.src.Id())
  }

  /** Reachability with no bound on the depth. */
  ghost predicate Linked(edges: EdgeMap, s: Key, t: Key) {
    exists c :: IsChain(edges, s, c, t)
  }

  lemma {:induction false} ChainJoin(edges: EdgeMap, s: Key, a: seq<Edge>, m: Key, b: seq<Edge>, t: Key)
    requires IsChain(edges, s, a, m) && IsChain(edges, m, b, t)
    ensures IsChain(edges, s, a + b, t)
  {
    if b == [] {
      assert a + b == a;
    } else {
      var e := b[|b| - 1];
      ChainJoin(edges, s, a, m, b[..|b| - 1], e.src.Id());
      assert (a + b)[..|a + b| - 1] == a + b[..|b| - 1];
    }
  }

  /** The vertex a chain has reached after its first `i` edges. */
  ghost function Stop(s: Key, c: seq<Edge>, i: nat): Key
    requires i <= |c|
  {
    if i == 0 then s else c[i - 1].dst.Id()
  }

  lemma {:induction false} ChainSplit(edges: EdgeMap, s: Key, c: seq<Edge>, t: Key, i: nat)
    requires IsChain(edges, s, c, t) && i <= |c|
    ensures IsChain(edges, s, c[..i], Stop(s, c, i)) && IsChain(edges, Stop(s, c, i), c[i..], t)
  {
    if i == |c| {
      assert c[..i] == c && c[i..] == [];
    } else {
      var e := c[|c| - 1];
      ChainSplit(edges, s, c[..|c| - 1], e.src.Id(), i);
      assert c[..|c| - 1][..i] == c[..i];
      assert c[i..][..|c[i..]| - 1] == c[..|c| - 1][i..];
    }
  }

  lemma ChainEdge(edges: EdgeMap, s: Key, c: seq<Edge>, t: Key, i: nat)
    requires IsChain(edges, s, c, t) && i < |c|
    ensures IsDirect(edges, c[i]) && c[i].src.Id() == Stop(s, c, i)
  {
    ChainSplit(edges, s, c, t, i + 1);
    assert c[..i + 1][..i] == c[..i];
    ChainSplit(edges, s, c, t, i);
    assert IsChain(edges, s, c[..i], c[i].src.Id());
    ChainEndUnique(edges, s, c[..i], c[i].src.Id());
  }

  lemma ChainEndUnique(edges: EdgeMap, s: Key, c: seq<Edge>, t: Key)
    requires IsChain(edges, s, c, t)
    ensures t == Stop(s, c, |c|)
  {
  }

  lemma {:induction false} ChainGrows(edges: EdgeMap, more: EdgeMap, s: Key, c: seq<Edge>, t: Key)
    requires IsChain(edges, s, c, t) && Grows(edges, more)
    ensures IsChain(more, s, c, t)
  {
    if c != [] {
      ChainGrows(edges, more, s, c[..|c| - 1], c[|c| - 1].src.Id());
    }
  }

  lemma LinkedGrows(edges: EdgeMap, more: EdgeMap, s: Key, t: Key)
    requires Linked(edges, s, t) && Grows(edges, more)
    ensures Linked(more, s, t)
  {
    var c :| IsChain(edges, s, c, t);
    ChainGrows(edges, more, s, c, t);
  }

  lemma LinkedStep(edges: EdgeMap, s: Key, e: Edge)
    requires Linked(edges, s, e.src.Id()) && IsDirect(edges, e)
    ensures Linked(edges, s, e.dst.Id())
  {
    var c :| IsChain(edges, s, c, e.src.Id());
    assert (c + [e])[..|c|] == c;
    assert IsChain(edges, s, c + [e], e.dst.Id());
  }

  /** The node is named, up to case, in the list. */
  ghost predicate Names(list: seq<string>, kind: NodeKind, k: Key) {
    exists i :: 0 <= i < |list| && k == Node(kind, list[i]).Id()
  }

  /** `more` holds all of `edges`, and beyond them only memberships the child's own entry states. */
  ghost predicate AddedMemberships(edges: EdgeMap, more: EdgeMap, child: Option<Node>, parentKind: NodeKind,
                                   direct: seq<string>, indirect: seq<string>) {
    && Grows(edges, more)
    && forall k :: k in more && k !in edges ==>
         (k.side == None && child.Some? && k.src == child.value.Id()
          && ((k.kind == MEMBER_OF && Names(direct, parentKind, k.dst))
              || (k.kind == MEMBER_OF_INDIRECT && Names(indirect, parentKind, k.dst))))
  }

  /** The keys of the named nodes. */
  function NameKeys(kind: NodeKind, names: seq<string>): set<Key> { set x | x in names :: Key(kind, Lower(x)) }

  lemma OneMoreName(kind: NodeKind, names: seq<string>, i: nat)
    requires i < |names|
    ensures NameKeys(kind, names[..i + 1]) == NameKeys(kind, names[..i]) + {Node(kind, names[i]).Id()}
  {
    hide Lower;
    assert names[..i + 1] == names[..i] + [names[i]];
  }

  lemma NoNames(kind: NodeKind, names: seq<string>)
    ensures NameKeys(kind, names[..0]) == {}
  {
  }

  /** One membership of the child is added. */
  ghost predicate AddsEdge(edges: EdgeMap, more: EdgeMap, child: Node, parent: Key, kind: EdgeKind) {
    exists e: Edge ::
      && e.src == child && e.dst.Id() == parent && e.kind == kind && e.side == None
      && e.Id() !in edges && more == edges[e.Id() := e]
  }

  /** Beyond `edges` only memberships of this kind in the named groups. */
  ghost predicate AddedOf(edges: EdgeMap, more: EdgeMap, child: Option<Node>, parentKind: NodeKind, names: seq<string>,
                          kind: EdgeKind) {
    && Grows(edges, more)
    && forall k :: k in more && k !in edges ==>
         k.side == None && child.Some? && k.src == child.value.Id() && k.kind == kind && Names(names, parentKind, k.dst)
  }

  lemma AddedBoth(start: EdgeMap, edges: EdgeMap, more: EdgeMap, child: Option<Node>, parentKind: NodeKind,
                  direct: seq<string>, indirect: seq<string>)
    requires AddedOf(start, edges, child, parentKind, direct, MEMBER_OF)
    requires AddedOf(edges, more, child, parentKind, indirect, MEMBER_OF_INDIRECT)
    ensures AddedMemberships(start, more, child, parentKind, direct, indirect) && Grows(edges, more)
  {
    hide Names;
  }

  lemma NoneAdded(edges: EdgeMap, child: Option<Node>, parentKind: NodeKind, names: seq<string>, kind: EdgeKind)
    ensures AddedOf(edges, edges, child, parentKind, names, kind)
    ensures HoldsNamed(edges, child, parentKind, names, kind, 0)
  {
  }

  lemma AddedStep(start: EdgeMap, edges: EdgeMap, more: EdgeMap, child: Option<Node>, parentKind: NodeKind, names: seq<string>,
                  kind: EdgeKind, i: nat)
    requires AddedOf(start, edges, child, parentKind, names, kind) && i < |names|
    requires child.Some? && AddsEdge(edges, more, child.value, Node(parentKind, names[i]).Id(), kind)
    ensures AddedOf(start, more, child, parentKind, names, kind)
  {
    hide Lower;
  }

  lemma EdgeGrows(edges: EdgeMap, more: EdgeMap, child: Option<Node>, parentKind: NodeKind, name: string, kind: EdgeKind)
    requires edges == more || (child.Some? && AddsEdge(edges, more, child.value, Node(parentKind, name).Id(), kind))
    ensures Grows(edges, more)
  {
    hide Lower;
  }

  /** The child's memberships of this kind in the first `n` named groups are stored. */
  ghost predicate HoldsNamed(edges: EdgeMap, child: Option<Node>, parentKind: NodeKind, names: seq<string>, kind: EdgeKind, n: nat) {
    child.Some? && n <= |names| ==> forall i :: 0 <= i < n ==>
      EdgeKey(child.value.Id(), Node(parentKind, names[i]).Id(), kind, None) in edges
  }

  lemma HoldsStep(edges: EdgeMap, more: EdgeMap, child: Option<Node>, parentKind: NodeKind, names: seq<string>, kind: EdgeKind, i: nat)
    requires HoldsNamed(edges, child, parentKind, names, kind, i) && Grows(edges, more) && i <= |names|
    requires child.Some? && i < |names| ==> EdgeKey(child.value.Id(), Node(parentKind, names[i]).Id(), kind, None) in more
    ensures HoldsNamed(more, child, parentKind, names, kind, if i < |names| then i + 1 else i)
  {
  }

  /** Every stored edge is kept as it is. */
  ghost predicate Grows(edges: EdgeMap, more: EdgeMap) {
    forall k :: k in edges ==> k in more && more[k] == edges[k]
  }

  // ------------------------------------------------------------------ why the depth bound hides nothing

  predicate IsObject(k: NodeKind) { k == USER || k == HOST || k == HBAC_SERVICE }

  /** Memberships lead into groups, and one that starts at a group was learned by reading the group it leads to. */
  ghost predicate ReadShaped(edges: EdgeMap, read: set<Key>) {
    forall k :: k in edges && k.kind == MEMBER_OF ==> !IsObject(k.dst.kind) && (!IsObject(k.src.kind) ==> k.dst in read)
  }

  /** Every edge of a chain after its first enters a group that was read. */
  lemma LaterStopWasRead(edges: EdgeMap, read: set<Key>, s: Key, c: seq<Edge>, t: Key, i: nat)
    requires ReadShaped(edges, read) && IsChain(edges, s, c, t) && 2 <= i <= |c|
    ensures Stop(s, c, i) in read
  {
    ChainEdge(edges, s, c, t, i - 2);
    ChainEdge(edges, s, c, t, i - 1);
  }

  lemma CutLoop(edges: EdgeMap, s: Key, c: seq<Edge>, t: Key, i: nat, j: nat) returns (d: seq<Edge>)
    requires IsChain(edges, s, c, t) && i < j <= |c| && Stop(s, c, i) == Stop(s, c, j)
    ensures IsChain(edges, s, d, t) && |d| < |c|
  {
    ChainSplit(edges, s, c, t, i);
    ChainSplit(edges, s, c, t, j);
    d := c[..i] + c[j..];
    ChainJoin(edges, s, c[..i], Stop(s, c, i), c[j..], t);
  }

  /** A chain longer than the groups read, plus one, runs through some group twice and can be cut short. */
  lemma ChainShorter(edges: EdgeMap, read: set<Key>, s: Key, c: seq<Edge>, t: Key) returns (d: seq<Edge>)
    requires ReadShaped(edges, read) && IsChain(edges, s, c, t) && |c| > |read| + 1
    ensures IsChain(edges, s, d, t) && |d| < |c|
  {
    var stops := seq(|c| - 1, i requires 0 <= i < |c| - 1 => Stop(s, c, i + 2));
    forall i | 0 <= i < |stops| ensures stops[i] in read {
      LaterStopWasRead(edges, read, s, c, t, i + 2);
    }
    if forall i, j :: 0 <= i < j < |stops| ==> stops[i] != stops[j] {
      Pigeonhole(stops, read);
    }
    var i, j :| 0 <= i < j < |stops| && stops[i] == stops[j];
    d := CutLoop(edges, s, c, t, i + 2, j + 2);
  }

  /** Whatever is reachable at all is reachable by a chain no longer than the groups read, plus one. */
  lemma {:induction false} ChainWithinReads(edges: EdgeMap, read: set<Key>, s: Key, c: seq<Edge>, t: Key) returns (d: seq<Edge>)
    requires ReadShaped(edges, read) && IsChain(edges, s, c, t)
    ensures IsChain(edges, s, d, t) && |d| <= |read| + 1
    decreases |c|
  {
    d := c;
    if |c| > |read| + 1 {
      d := ChainShorter(edges, read, s, c, t);
      d := ChainWithinReads(edges, read, s, d, t);
    }
  }

  /** Entries of an adjacency list that are direct memberships, or any membership. */
  function Memberships(list: seq<Edge>, directOnly: bool): (r: seq<Edge>)
    ensures forall e {:trigger e in r} :: e in r <==> e in list && (e.kind == MEMBER_OF || (!directOnly && e.kind == MEMBER_OF_INDIRECT))
  {
    if list == [] then []
    else
      var e := list[0];
      assert list == [e] + list[1..];
      if e.kind == MEMBER_OF || (!directOnly && e.kind == MEMBER_OF_INDIRECT)
      then [e] + Memberships(list[1..], directOnly)
      else Memberships(list[1..], directOnly)
  }

  // ------------------------------------------------------------------ the adjacency index

  /** One adjacency list holds exactly the stored edges of its source, each once. */
  ghost predicate ListsSource(edges: EdgeMap, k: Key, list: seq<Edge>) {
    && (forall e {:trigger e in list} :: e in list <==> e.src.Id() == k && e.Id() in edges && edges[e.Id()] == e)
    && (forall i, j :: 0 <= i < j < |list| ==> list[i].Id() != list[j].Id())
  }

  /** The adjacency lists are the flat edge map grouped by source. */
  ghost predicate Grouped(edges: EdgeMap, out: map<Key, seq<Edge>>) {
    && (forall k :: k in edges ==> edges[k].Id() == k && k.src in out)
    && (forall k :: k in out ==> ListsSource(edges, k, out[k]))
  }

  lemma ListsSourceAdd(edges: EdgeMap, k: Key, list: seq<Edge>, e: Edge)
    requires ListsSource(edges, k, list) && e.Id() !in edges
    requires forall o :: o in edges ==> edges[o].Id() == o
    ensures ListsSource(edges[e.Id() := e], k, if e.src.Id() == k then list + [e] else list)
  {
    forall i | 0 <= i < |list| ensures list[i].Id() != e.Id() {
      assert list[i] in list;
    }
  }

  lemma GroupedAdd(edges: EdgeMap, out: map<Key, seq<Edge>>, e: Edge)
    requires Grouped(edges, out) && e.Id() !in edges
    ensures var k := e.src.Id(); Grouped(edges[e.Id() := e], out[k := (if k in out then out[k] else []) + [e]])
  {
    var k := e.src.Id();
    var list := if k in out then out[k] else [];
    assert ListsSource(edges, k, list) by {
      if k !in out {
        forall o: Edge ensures !(o.src.Id() == k && o.Id() in edges && edges[o.Id()] == o) {
          assert o.Id() in edges ==> o.Id().src in out;
        }
      }
    }
    var more := out[k := list + [e]];
    forall q | q in more ensures ListsSource(edges[e.Id() := e], q, more[q]) {
      ListsSourceAdd(edges, q, if q == k then list else out[q], e);
    }
  }

  // ------------------------------------------------------------------ the search state

  /** The state of the breadth-first search: `dist` holds every vertex seen with the length of the chain it was seen
      through, `open` the vertices whose parents have not all been looked at yet. Every other vertex seen was
      expanded, unless it lies at the depth bound. */
  ghost predicate Explored(edges: EdgeMap, s: Key, dist: map<Key, nat>, open: set<Key>, maxDepth: nat) {
    && open <= dist.Keys
    && s in dist && dist[s] == 0
    && forall e :: IsDirect(edges, e) && e.src.Id() in dist && e.src.Id() !in open && dist[e.src.Id()] < maxDepth
         ==> e.dst.Id() in dist && dist[e.dst.Id()] <= dist[e.src.Id()] + 1
  }

  /** A chain within the depth bound ends at a vertex already seen at no greater distance, or leaves the explored part
      through an open vertex that is strictly nearer than the end of the chain. */
  lemma {:induction false} ChainMeetsFrontier(edges: EdgeMap, s: Key, dist: map<Key, nat>, open: set<Key>, maxDepth: nat,
                           c: seq<Edge>, v: Key)
    requires Explored(edges, s, dist, open, maxDepth)
    requires IsChain(edges, s, c, v) && |c| <= maxDepth
    ensures (v in dist && dist[v] <= |c|) || exists u :: u in open && dist[u] < |c|
  {
    if c != [] {
      var e := c[|c| - 1];
      ChainMeetsFrontier(edges, s, dist, open, maxDepth, c[..|c| - 1], e.src.Id());
    }
  }

  class RelationshipIndex {
    const maxNodes: nat
    const maxEdges: nat
    var nodes: map<Key, Node>
    var edges: EdgeMap
    var out: map<Key, seq<Edge>>
    var truncated: bool

    /** Both bounds hold, the adjacency lists hold exactly the flat edge map, grouped by source, without duplicates, and the
        index is called truncated only if one of the bounds is hit. */
    ghost predicate Valid()
      reads this
    {
      && |nodes| <= maxNodes && |edges| <= maxEdges
      && (forall k :: k in nodes ==> nodes[k].Id() == k)
      && Grouped(edges, out)
      && (truncated ==> |nodes| == maxNodes || |edges| == maxEdges)
    }

    constructor (maxNodes: nat := MAX_NODES, maxEdges: nat := MAX_EDGES)
      ensures Valid()
      ensures this.maxNodes == maxNodes && this.maxEdges == maxEdges
      ensures nodes == map[] && edges == map[] && !truncated
    {
      this.maxNodes, this.maxEdges := maxNodes, maxEdges;
      nodes, edges, out, truncated := map[], map[], map[], false;
    }

    /** The node of this kind and name: the one stored first under its key, a new one, or none at the node bound. */
    method GetNode(kind: NodeKind, name: string) returns (r: Option<Node>)
      requires Valid()
      modifies this`nodes, this`truncated
      ensures Valid()
      ensures r.Some? ==> r.value.Id() == Node(kind, name).Id() && r.value.Id() in nodes && nodes[r.value.Id()] == r.value
      ensures nodes == if r.Some? then old(nodes)[Node(kind, name).Id() := r.value] else old(nodes)
      ensures Node(kind, name).Id() in old(nodes) ==> r == Some(old(nodes)[Node(kind, name).Id()])
      ensures r.None? <==> Node(kind, name).Id() !in old(nodes) && |old(nodes)| >= maxNodes
      ensures truncated == (old(truncated) || r.None?)
    {
      var n := Node(kind, name);
      if n.Id() in nodes {
        assert nodes[n.Id() := nodes[n.Id()]] == nodes;
        return Some(nodes[n.Id()]);
      }
      if |nodes| >= maxNodes {
        truncated := true;
        return None;
      }
      nodes := nodes[n.Id() := n];
      return Some(n);
    }

    /** Adds one edge. The first provenance of an edge is kept, an absent end or a full index adds nothing. */
    method AddEdge(src: Option<Node>, dst: Option<Node>, kind: EdgeKind, source: string, side: Option<Side> := None)
      requires Valid()
      modifies this`edges, this`out, this`truncated
      ensures Valid()
      ensures var e := if src.Some? && dst.Some? then Some(Edge(src.value, dst.value, kind, source, side)) else None;
              if e.None? || e.value.Id() in old(edges) then edges == old(edges) && truncated == old(truncated)
              else if |old(edges)| >= maxEdges then edges == old(edges) && truncated
              else edges == old(edges)[e.value.Id() := e.value] && truncated == old(truncated)
      ensures |edges| <= |old(edges)| + 1
    {
      if src.None? || dst.None? {
        return;
      }
      var e := Edge(src.value, dst.value, kind, source, side);
      if e.Id() in edges {
        return;
      }
      if |edges| >= maxEdges {
        truncated := true;
        return;
      }
      var k := e.src.Id();
      GroupedAdd(edges, out, e);
      edges := edges[e.Id() := e];
      out := out[k := (if k in out then out[k] else []) + [e]];
    }

    /** Records one membership of the child. */
    method AddMembership(child: Option<Node>, parentKind: NodeKind, name: string, kind: EdgeKind, source: string)
      requires Valid()
      modifies this`nodes, this`edges, this`out, this`truncated
      ensures Valid() && (old(truncated) ==> truncated) && |edges| <= |old(edges)| + 1
      ensures old(nodes).Keys <= nodes.Keys <= old(nodes).Keys + {Node(parentKind, name).Id()}
      ensures !truncated ==> Node(parentKind, name).Id() in nodes
      ensures edges == old(edges) || (child.Some? && AddsEdge(old(edges), edges, child.value, Node(parentKind, name).Id(), kind))
      ensures !truncated && child.Some? ==> EdgeKey(child.value.Id(), Node(parentKind, name).Id(), kind, None) in edges
    {
      hide Grouped, Lower;
      var parent := GetNode(parentKind, name);
      ghost var before := edges;
      AddEdge(child, parent, kind, source);
      if edges != before {
        assert AddsEdge(before, edges, child.value, Node(parentKind, name).Id(), kind) by {
          var e := Edge(child.value, parent.value, kind, source, None);
          assert edges == before[e.Id() := e];
        }
      }
    }

    /** Records memberships of one kind. */
    method AddEach(child: Option<Node>, parentKind: NodeKind, names: seq<string>, kind: EdgeKind, source: string)
      requires Valid()
      modifies this`nodes, this`edges, this`out, this`truncated
      ensures Valid() && (old(truncated) ==> truncated) && |edges| <= |old(edges)| + |names|
      ensures old(nodes).Keys <= nodes.Keys <= old(nodes).Keys + NameKeys(parentKind, names)
      ensures !truncated ==> NameKeys(parentKind, names) <= nodes.Keys
      ensures AddedOf(old(edges), edges, child, parentKind, names, kind)
      ensures !truncated ==> HoldsNamed(edges, child, parentKind, names, kind, |names|)
    {
      hide Grouped, Lower, AddedOf, HoldsNamed, NameKeys, AddsEdge, Valid;
      NoneAdded(edges, child, parentKind, names, kind);
      NoNames(parentKind, names);
      var i := 0;
      while i < |names|
        invariant 0 <= i <= |names| && Valid() && (old(truncated) ==> truncated) && |edges| <= |old(edges)| + i
        invariant old(nodes).Keys <= nodes.Keys <= old(nodes).Keys + NameKeys(parentKind, names[..i])
        invariant !truncated ==> NameKeys(parentKind, names[..i]) <= nodes.Keys
        invariant AddedOf(old(edges), edges, child, parentKind, names, kind)
        invariant !truncated ==> HoldsNamed(edges, child, parentKind, names, kind, i)
      {
        OneMoreName(parentKind, names, i);
        ghost var before := edges;
        AddMembership(child, parentKind, names[i], kind, source);
        if edges != before { AddedStep(old(edges), before, edges, child, parentKind, names, kind, i); }
        if !truncated {
          EdgeGrows(before, edges, child, parentKind, names[i], kind);
          HoldsStep(before, edges, child, parentKind, names, kind, i);
        }
        i := i + 1;
      }
      assert names[..i] == names;
    }

    /** Records what one object's entry says about its groups. */
    method AddMemberships(child: Option<Node>, parentKind: NodeKind, direct: seq<string>, indirect: seq<string>, source: string)
      requires Valid()
      modifies this`nodes, this`edges, this`out, this`truncated
      ensures Valid() && (old(truncated) ==> truncated)
      ensures AddedMemberships(old(edges), edges, child, parentKind, direct, indirect)
      ensures !truncated ==>
                && HoldsNamed(edges, child, parentKind, direct, MEMBER_OF, |direct|)
                && HoldsNamed(edges, child, parentKind, indirect, MEMBER_OF_INDIRECT, |indirect|)
      // the room it takes
      ensures old(nodes).Keys <= nodes.Keys <= old(nodes).Keys + NameKeys(parentKind, direct) + NameKeys(parentKind, indirect)
      ensures !truncated ==> NameKeys(parentKind, direct) + NameKeys(parentKind, indirect) <= nodes.Keys
      ensures |edges| <= |old(edges)| + |direct| + |indirect|
    {
      hide Grouped, Lower, NameKeys, Valid, AddedOf, AddedMemberships, HoldsNamed;
      ghost var start := edges;
      AddEach(child, parentKind, direct, MEMBER_OF, source);
      ghost var before := edges;
      AddEach(child, parentKind, indirect, MEMBER_OF_INDIRECT, source);
      AddedBoth(start, before, edges, child, parentKind, direct, indirect);
      if !truncated { HoldsStep(before, edges, child, parentKind, direct, MEMBER_OF, |direct|); }
    }

    /** The stored membership edges that leave a node. */
    function Parents(node: Node, directOnly: bool := true): (r: seq<Edge>)
      requires Valid()
      reads this
      ensures forall e {:trigger e in r} :: e in r <==>
                e.src.Id() == node.Id() && e.Id() in edges && edges[e.Id()] == e
                                      && (e.kind == MEMBER_OF || (!directOnly && e.kind == MEMBER_OF_INDIRECT))
    {
      var list := if node.Id() in out then out[node.Id()] else [];
      Memberships(list, directOnly)
    }

    /** Breadth-first search for the shortest chain of direct memberships. On any index, cyclic or not, the answer is
        a chain of minimum length, and there is none exactly when no chain of at most `maxDepth` edges exists. */
    method MembershipPath(start: Node, target: Node, maxDepth: nat := MAX_DEPTH) returns (r: Option<seq<Edge>>)
      requires Valid()
      ensures r.Some? ==> IsChain(edges, start.Id(), r.value, target.Id()) && |r.value| <= maxDepth
      ensures r.Some? ==> forall c :: IsChain(edges, start.Id(), c, target.Id()) ==> |r.value| <= |c|
      ensures r.None? ==> forall c :: IsChain(edges, start.Id(), c, target.Id()) ==> |c| > maxDepth
    {
      hide Grouped, Lower, Searching, Expanding, Accounted;
      ghost var s, t := start.Id(), target.Id();
      if start.Id() == target.Id() {
        assert IsChain(edges, s, [], t);
        return Some([]);
      }
      var seen := {start.Id()};
      var queue: seq<Visit> := [Visit(start, [])];
      ghost var dist: map<Key, nat> := map[s := 0];
      ghost var universe := {s} + set k | k in edges :: k.dst;
      ghost var done: set<Key> := {};
      StartStep(edges, s, t, universe, queue, maxDepth);
      while queue != []
        invariant seen == dist.Keys && Accounted(universe, dist, queue, done, t)
        invariant Searching(edges, s, dist, queue, {}, maxDepth)
        decreases universe - done
      {
        var cur, path := queue[0].node, queue[0].path;
        PopStep(edges, s, dist, queue, maxDepth);
        AccountPop(universe, dist, queue, done, t);
        queue := queue[1..];
        done := done + {cur.Id()};
        if |path| >= maxDepth {
          continue;
        }
        var parents := Parents(cur);
        var i := 0;
        while i < |parents|
          invariant 0 <= i <= |parents|
          invariant seen == dist.Keys
          invariant Scanning(edges, s, t, universe, done, dist, queue, cur.Id(), path, maxDepth)
          invariant Scanned(dist, parents, i)
        {
          var e := parents[i];
          assert e in parents;
          i := i + 1;
          if e.dst.Id() in seen {
            ScannedStep(dist, dist, parents, i);
            continue;
          }
          if e.dst.Id() == target.Id() {
            FoundStep(edges, s, dist, queue, cur.Id(), path, maxDepth, e);
            return Some(path + [e]);
          }
          ScanStep(edges, s, t, universe, done, dist, queue, cur.Id(), path, maxDepth, e);
          ScannedStep(dist, dist[e.dst.Id() := |path| + 1], parents, i);
          seen := seen + {e.dst.Id()};
          dist := dist[e.dst.Id() := |path| + 1];
          queue := queue + [Visit(e.dst, path + [e])];
        }
        CloseStep(edges, s, dist, queue, cur.Id(), path, maxDepth, parents);
      }
      forall c | IsChain(edges, s, c, t) ensures |c| > maxDepth {
        ExhaustedStep(edges, s, t, universe, dist, done, maxDepth, c);
      }
      return None;
    }
  }

  // ------------------------------------------------------------------ the queue of the search

  datatype Visit = Visit(node: Node, path: seq<Edge>)

  ghost function QueueKeys(queue: seq<Visit>): set<Key> {
    set i | 0 <= i < |queue| :: queue[i].node.Id()
  }

  /** Every queued path is a chain as long as the recorded distance; no vertex is queued twice; the lengths never
      decrease along the queue and span at most two levels. */
  ghost predicate Ordered(edges: EdgeMap, s: Key, dist: map<Key, nat>, queue: seq<Visit>) {
    && (forall i :: 0 <= i < |queue| ==>
          queue[i].node.Id() in dist && dist[queue[i].node.Id()] == |queue[i].path|
          && IsChain(edges, s, queue[i].path, queue[i].node.Id()))
    && (forall i, j :: 0 <= i < j < |queue| ==>
          queue[i].node.Id() != queue[j].node.Id() && |queue[i].path| <= |queue[j].path| <= |queue[i].path| + 1)
  }

  /** The invariant of the search; `extra` is the vertex being expanded. */
  ghost predicate Searching(edges: EdgeMap, s: Key, dist: map<Key, nat>, queue: seq<Visit>, extra: set<Key>, maxDepth: nat) {
    && Ordered(edges, s, dist, queue)
    && Explored(edges, s, dist, QueueKeys(queue) + extra, maxDepth)
    && forall k, i :: k in dist && 0 <= i < |queue| ==> dist[k] <= |queue[i].path| + 1
  }

  /** The vertex `head`, reached by `path`, is at the front of the search: nothing queued is nearer. */
  ghost predicate Expanding(edges: EdgeMap, s: Key, dist: map<Key, nat>, queue: seq<Visit>, head: Key, path: seq<Edge>) {
    && head in dist && dist[head] == |path| && IsChain(edges, s, path, head)
    && head !in QueueKeys(queue)
    && (forall k :: k in dist ==> dist[k] <= |path| + 1)
    && forall j :: 0 <= j < |queue| ==> |path| <= |queue[j].path| <= |path| + 1
  }

  /** Every vertex seen is done or queued, never both, and lies in the finite universe of the index. */
  ghost predicate Accounted(universe: set<Key>, dist: map<Key, nat>, queue: seq<Visit>, done: set<Key>, t: Key) {
    dist.Keys <= universe && t !in dist && dist.Keys == done + QueueKeys(queue) && done !! QueueKeys(queue)
  }

  lemma StartStep(edges: EdgeMap, s: Key, t: Key, universe: set<Key>, queue: seq<Visit>, maxDepth: nat)
    requires s != t && s in universe && |queue| == 1 && queue[0].node.Id() == s && queue[0].path == []
    ensures Accounted(universe, map[s := 0], queue, {}, t) && Searching(edges, s, map[s := 0], queue, {}, maxDepth)
  {
    assert QueueKeys(queue) == {s};
  }

  /** With nothing left in the queue, what was not seen is out of reach. */
  lemma ExhaustedStep(edges: EdgeMap, s: Key, t: Key, universe: set<Key>, dist: map<Key, nat>, done: set<Key>, maxDepth: nat,
                      c: seq<Edge>)
    requires Accounted(universe, dist, [], done, t) && Searching(edges, s, dist, [], {}, maxDepth) && IsChain(edges, s, c, t)
    ensures |c| > maxDepth
  {
    if |c| <= maxDepth {
      assert QueueKeys([]) + {} == {};
      ChainMeetsFrontier(edges, s, dist, {}, maxDepth, c, t);
    }
  }

  lemma AccountPop(universe: set<Key>, dist: map<Key, nat>, queue: seq<Visit>, done: set<Key>, t: Key)
    requires queue != [] && Accounted(universe, dist, queue, done, t)
    requires var head := queue[0].node.Id(); QueueKeys(queue[1..]) == QueueKeys(queue) - {head} && head in QueueKeys(queue)
    ensures Accounted(universe, dist, queue[1..], done + {queue[0].node.Id()}, t)
    ensures universe - (done + {queue[0].node.Id()}) < universe - done
  {
  }

  lemma AccountPush(universe: set<Key>, dist: map<Key, nat>, queue: seq<Visit>, done: set<Key>, t: Key, v: Visit)
    requires Accounted(universe, dist, queue, done, t) && v.node.Id() in universe
    requires v.node.Id() !in dist && v.node.Id() != t
    ensures Accounted(universe, dist[v.node.Id() := |v.path|], queue + [v], done, t)
  {
    PushKeys(queue, v);
  }

  /** The invariant of the inner loop over the parents of `head`. */
  ghost predicate Scanning(edges: EdgeMap, s: Key, t: Key, universe: set<Key>, done: set<Key>, dist: map<Key, nat>,
                           queue: seq<Visit>, head: Key, path: seq<Edge>, maxDepth: nat) {
    && Accounted(universe, dist, queue, done, t)
    && Searching(edges, s, dist, queue, {head}, maxDepth)
    && Expanding(edges, s, dist, queue, head, path)
  }

  /** The first `i` parents were all seen. */
  ghost predicate Scanned(dist: map<Key, nat>, parents: seq<Edge>, i: nat) {
    i <= |parents| && forall j :: 0 <= j < i ==> parents[j].dst.Id() in dist
  }

  lemma ScannedStep(dist: map<Key, nat>, dist': map<Key, nat>, parents: seq<Edge>, i: nat)
    requires 0 < i <= |parents| && Scanned(dist, parents, i - 1)
    requires dist.Keys <= dist'.Keys && parents[i - 1].dst.Id() in dist'
    ensures Scanned(dist', parents, i)
  {
  }

  lemma ScanStep(edges: EdgeMap, s: Key, t: Key, universe: set<Key>, done: set<Key>, dist: map<Key, nat>,
                 queue: seq<Visit>, head: Key, path: seq<Edge>, maxDepth: nat, e: Edge)
    requires Scanning(edges, s, t, universe, done, dist, queue, head, path, maxDepth)
    requires IsDirect(edges, e) && e.src.Id() == head && e.dst.Id() !in dist && e.dst.Id() != t && e.dst.Id() in universe
    ensures dist[e.dst.Id() := |path| + 1].Keys == dist.Keys + {e.dst.Id()}
    ensures Scanning(edges, s, t, universe, done, dist[e.dst.Id() := |path| + 1], queue + [Visit(e.dst, path + [e])],
                     head, path, maxDepth)
  {
    VisitStep(edges, s, dist, queue, head, path, maxDepth, e);
    AccountPush(universe, dist, queue, done, t, Visit(e.dst, path + [e]));
  }

  lemma PopStep(edges: EdgeMap, s: Key, dist: map<Key, nat>, queue: seq<Visit>, maxDepth: nat)
    requires queue != [] && Searching(edges, s, dist, queue, {}, maxDepth)
    ensures var head := queue[0].node.Id();
            && QueueKeys(queue[1..]) == QueueKeys(queue) - {head} && head in QueueKeys(queue)
            && Searching(edges, s, dist, queue[1..], {head}, maxDepth)
            && Expanding(edges, s, dist, queue[1..], head, queue[0].path)
            && (|queue[0].path| >= maxDepth ==> Searching(edges, s, dist, queue[1..], {}, maxDepth))
  {
    hide Explored, QueueKeys, IsChain;
    var head := queue[0].node.Id();
    PopKeys(edges, s, dist, queue);
    assert QueueKeys(queue[1..]) + {head} == QueueKeys(queue) + {};
    if |queue[0].path| >= maxDepth { PopAtBound(edges, s, dist, QueueKeys(queue[1..]), head, maxDepth); }
  }

  lemma PopKeys(edges: EdgeMap, s: Key, dist: map<Key, nat>, queue: seq<Visit>)
    requires queue != [] && Ordered(edges, s, dist, queue)
    ensures var head := queue[0].node.Id(); QueueKeys(queue[1..]) == QueueKeys(queue) - {head} && head in QueueKeys(queue)
  {
    hide IsChain;
    forall k | k in QueueKeys(queue) - {queue[0].node.Id()} ensures k in QueueKeys(queue[1..]) {
      var i :| 0 <= i < |queue| && queue[i].node.Id() == k;
      assert queue[1..][i - 1] == queue[i];
    }
  }

  /** At the depth bound a vertex needs no expansion. */
  lemma PopAtBound(edges: EdgeMap, s: Key, dist: map<Key, nat>, open: set<Key>, head: Key, maxDepth: nat)
    requires Explored(edges, s, dist, open + {head}, maxDepth) && head in dist && dist[head] >= maxDepth
    ensures Explored(edges, s, dist, open + {}, maxDepth)
  {
    hide IsDirect;
  }

  /** A vertex seen for the first time joins the end of the queue, one step further than the front. */
  lemma VisitStep(edges: EdgeMap, s: Key, dist: map<Key, nat>, queue: seq<Visit>, head: Key, path: seq<Edge>,
                  maxDepth: nat, e: Edge)
    requires Searching(edges, s, dist, queue, {head}, maxDepth) && Expanding(edges, s, dist, queue, head, path)
    requires IsDirect(edges, e) && e.src.Id() == head && e.dst.Id() !in dist
    ensures var dist' := dist[e.dst.Id() := |path| + 1];
            var queue' := queue + [Visit(e.dst, path + [e])];
            && QueueKeys(queue') == QueueKeys(queue) + {e.dst.Id()}
            && Searching(edges, s, dist', queue', {head}, maxDepth)
            && Expanding(edges, s, dist', queue', head, path)
  {
    hide QueueKeys, IsDirect, Explored, Ordered;
    PushKeys(queue, Visit(e.dst, path + [e]));
    VisitOrdered(edges, s, dist, queue, head, path, maxDepth, e);
    VisitExplored(edges, s, dist, QueueKeys(queue) + {head}, head, maxDepth, e);
    assert QueueKeys(queue) + {e.dst.Id()} + {head} == QueueKeys(queue) + {head} + {e.dst.Id()};
  }

  lemma VisitOrdered(edges: EdgeMap, s: Key, dist: map<Key, nat>, queue: seq<Visit>, head: Key, path: seq<Edge>,
                     maxDepth: nat, e: Edge)
    requires Searching(edges, s, dist, queue, {head}, maxDepth) && Expanding(edges, s, dist, queue, head, path)
    requires IsDirect(edges, e) && e.src.Id() == head && e.dst.Id() !in dist
    ensures Ordered(edges, s, dist[e.dst.Id() := |path| + 1], queue + [Visit(e.dst, path + [e])])
  {
    hide Explored;
    assert (path + [e])[..|path|] == path;
  }

  lemma VisitExplored(edges: EdgeMap, s: Key, dist: map<Key, nat>, open: set<Key>, head: Key, maxDepth: nat, e: Edge)
    requires Explored(edges, s, dist, open, maxDepth) && head in open && head in dist && e.dst.Id() !in dist
    ensures Explored(edges, s, dist[e.dst.Id() := dist[head] + 1], open + {e.dst.Id()}, maxDepth)
  {
    hide IsDirect;
  }

  /** When every direct parent of the front vertex is seen, the vertex is no longer open. */
  lemma CloseStep(edges: EdgeMap, s: Key, dist: map<Key, nat>, queue: seq<Visit>, head: Key, path: seq<Edge>,
                  maxDepth: nat, parents: seq<Edge>)
    requires Searching(edges, s, dist, queue, {head}, maxDepth) && Expanding(edges, s, dist, queue, head, path)
    requires forall e :: IsDirect(edges, e) && e.src.Id() == head ==> e in parents
    requires Scanned(dist, parents, |parents|)
    ensures Searching(edges, s, dist, queue, {}, maxDepth)
  {
    assert Explored(edges, s, dist, QueueKeys(queue) + {}, maxDepth);
  }

  /** The first chain that meets the target is a shortest one. */
  lemma FoundStep(edges: EdgeMap, s: Key, dist: map<Key, nat>, queue: seq<Visit>, head: Key, path: seq<Edge>,
                  maxDepth: nat, e: Edge)
    requires Searching(edges, s, dist, queue, {head}, maxDepth) && Expanding(edges, s, dist, queue, head, path)
    requires IsDirect(edges, e) && e.src.Id() == head && e.dst.Id() !in dist && |path| < maxDepth
    ensures IsChain(edges, s, path + [e], e.dst.Id())
    ensures forall c :: IsChain(edges, s, c, e.dst.Id()) ==> |path| + 1 <= |c|
  {
    assert (path + [e])[..|path|] == path;
    forall c | IsChain(edges, s, c, e.dst.Id()) ensures |path| + 1 <= |c| {
      if |c| <= maxDepth {
        ChainMeetsFrontier(edges, s, dist, QueueKeys(queue) + {head}, maxDepth, c, e.dst.Id());
        var u :| u in QueueKeys(queue) + {head} && dist[u] < |c|;
      }
    }
  }

  lemma PushKeys(queue: seq<Visit>, x: Visit)
    ensures QueueKeys(queue + [x]) == QueueKeys(queue) + {x.node.Id()}
  {
    assert (queue + [x])[|queue|] == x;
    forall k | k in QueueKeys(queue) ensures k in QueueKeys(queue + [x]) {
      var i :| 0 <= i < |queue| && queue[i].node.Id() == k;
      assert (queue + [x])[i] == queue[i];
    }
  }
}
