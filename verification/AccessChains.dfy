/** Explaining a nested membership: the budgeted search that walks down from a wanted group through its member groups,
    over a directory that may hold cycles and diamonds. */
module AccessChains {
  import opened Common
  import opened Relations

  const MAX_GROUP_FETCHES: nat := 40

  /** What FreeIPA reported for one object: its node and its direct and indirect groups. */
  datatype Membership = Membership(node: Node, direct: set<string>, indirect: set<string>) {
    function AllGroups(): set<string> { set g | g in direct + indirect :: Lower(g) }
  }

  /** One line of the run's own log: the group read, and whether the read succeeded. */
  datatype Check = Check(group: Key, ok: bool)

  function DirectNames(m: Membership): set<string> { set d | d in m.direct :: Lower(d) }

  /** The members of `children` that the object itself belongs to. */
  function Allowed(children: seq<string>, allowed: set<string>): (r: seq<string>)
    ensures forall c {:trigger c in r} :: c in r <==> c in children && Lower(c) in allowed
  {
    if children == [] then []
    else
      assert children == [children[0]] + children[1..];
      (if Lower(children[0]) in allowed then [children[0]] else []) + Allowed(children[1..], allowed)
  }

  function NotVisited(children: seq<string>, visited: set<string>): (r: seq<string>)
    ensures forall c {:trigger c in r} :: c in r <==> c in children && Lower(c) !in visited
  {
    if children == [] then []
    else
      assert children == [children[0]] + children[1..];
      (if Lower(children[0]) !in visited then [children[0]] else []) + NotVisited(children[1..], visited)
  }

  /** The distinct names, one after another. Every order is possible. */
  method Listed(names: set<string>) returns (r: seq<string>)
    ensures forall x {:trigger x in r} :: x in r <==> x in names
    ensures |r| == |names|
  {
    r := [];
    var rest := names;
    while rest != {}
      invariant rest <= names && |r| + |rest| == |names|
      invariant forall x {:trigger x in r} :: x in r <==> x in names - rest
      decreases rest
    {
      var x :| x in rest;
      rest := rest - {x};
      r := r + [x];
    }
  }

  // ------------------------------------------------------------------ the directory and what is known of it

  /** Reading a group returns its child groups, or fails. Names are compared without case. */
  type Directory = Key -> Option<seq<string>>

  /** `names` climbs from a direct group of the object to the group `w`, through readable groups of the object, each
      listed as a child by the next. */
  ghost predicate Nests(dir: Directory, kind: NodeKind, direct: set<string>, allowed: set<string>, names: seq<string>, w: string)
  {
    && names != [] && names[|names| - 1] == w && names[0] in direct
    && (forall i :: 0 <= i < |names| - 1 ==> names[i] in allowed)
    && (forall i :: 0 <= i < |names| - 1 ==> ListsChild(dir, kind, names[i + 1], names[i]))
  }

  ghost predicate ListsChild(dir: Directory, kind: NodeKind, parent: string, child: string) {
    dir(Key(kind, parent)).Some? && exists c :: c in dir(Key(kind, parent)).value && Lower(c) == child
  }

  /** Every edge beyond `edges` is a direct membership the directory states between two of the object's groups. */
  ghost predicate OnlyTrueMemberships(dir: Directory, kind: NodeKind, allowed: set<string>, edges: EdgeMap, more: EdgeMap) {
    && Grows(edges, more)
    && forall k :: k in more && k !in edges ==>
         k.kind == MEMBER_OF && k.side == None && k.src.kind == kind && k.dst.kind == kind && k.src.name in allowed
         && ListsChild(dir, kind, k.dst.name, k.src.name)
  }

  /** A set of groups all of whose allowed children are read, recorded as edges, and in the set again. */
  ghost predicate Closed(dir: Directory, kind: NodeKind, allowed: set<string>, edges: EdgeMap, groups: set<string>) {
    forall g, c :: g in groups && c in allowed && ListsChild(dir, kind, g, c) ==> c in groups && HoldsMembership(edges, kind, c, g)
  }

  ghost predicate HoldsMembership(edges: EdgeMap, kind: NodeKind, child: string, parent: string) {
    EdgeKey(Key(kind, child), Key(kind, parent), MEMBER_OF, None) in edges
  }

  /** In a closed set, everything nested under a member of the set is linked to it by stored edges. */
  lemma {:induction false} ClosedFindsNesting(dir: Directory, kind: NodeKind, direct: set<string>, allowed: set<string>,
                                              edges: EdgeMap, groups: set<string>, s: Key, names: seq<string>, w: string)
    requires Closed(dir, kind, allowed, edges, groups) && w in groups
    requires Nests(dir, kind, direct, allowed, names, w)
    requires forall k :: k in edges ==> edges[k].Id() == k
    requires forall d :: d in direct ==> Linked(edges, s, Key(kind, d))
    ensures Linked(edges, s, Key(kind, w))
    decreases |names|
  {
    if |names| > 1 {
      var below := names[|names| - 2];
      assert ListsChild(dir, kind, names[|names| - 1], below);
      ClosedFindsNesting(dir, kind, direct, allowed, edges, groups, s, names[..|names| - 1], below);
      var k := EdgeKey(Key(kind, below), Key(kind, w), MEMBER_OF, None);
      LinkedStep(edges, s, edges[k]);
    }
  }

  /** The depth bound of the path search never hides a chain: with at most MAX_GROUP_FETCHES groups read, whatever is
      linked at all is linked by a chain within the bound. */
  lemma DepthBoundHidesNothing(edges: EdgeMap, read: set<Key>, s: Key, t: Key)
    requires ReadShaped(edges, read) && |read| <= MAX_GROUP_FETCHES && Linked(edges, s, t)
    ensures exists c :: IsChain(edges, s, c, t) && |c| <= MAX_GROUP_FETCHES + 1 < MAX_DEPTH
  {
    var c :| IsChain(edges, s, c, t);
    var d := ChainWithinReads(edges, read, s, c, t);
  }

  // ------------------------------------------------------------------ the walk

  /** What is remembered of every group read on this side: its allowed children, none if the read failed; and, unless
      the index is full, an edge for each of them. */
  ghost predicate Remembered(dir: Directory, kind: NodeKind, allowed: set<string>, edges: EdgeMap,
                             readChildren: map<string, seq<string>>, truncated: bool)
  {
    forall g :: g in readChildren ==>
      readChildren[g] == ChildrenOf(dir, kind, allowed, g) && (truncated || HoldsChildren(dir, kind, allowed, edges, g))
  }

  function ChildrenOf(dir: Directory, kind: NodeKind, allowed: set<string>, g: string): seq<string> {
    match dir(Key(kind, g))
    case None => []
    case Some(children) => Allowed(children, allowed)
  }

  ghost predicate HoldsChildren(dir: Directory, kind: NodeKind, allowed: set<string>, edges: EdgeMap, g: string) {
    forall c :: c in allowed && ListsChild(dir, kind, g, c) ==> HoldsMembership(edges, kind, c, g)
  }

  /** The name still waits to be visited: in the rest of this level, or in the next one. */
  ghost predicate Waiting(frontier: seq<string>, i: nat, nxt: seq<string>, c: string) {
    || (exists j :: i <= j < |frontier| && Lower(frontier[j]) == c)
    || (exists j :: 0 <= j < |nxt| && Lower(nxt[j]) == c)
  }

  /** Every allowed child of a visited group was visited or waits; so does the group the walk started from. */
  ghost predicate Pending(dir: Directory, kind: NodeKind, allowed: set<string>, visited: set<string>,
                          frontier: seq<string>, i: nat, nxt: seq<string>, w: string)
  {
    && (w in visited || Waiting(frontier, i, nxt, w))
    && forall g, c :: g in visited && c in allowed && ListsChild(dir, kind, g, c) ==>
         c in visited || Waiting(frontier, i, nxt, c)
  }

  lemma RememberedAt(dir: Directory, kind: NodeKind, allowed: set<string>, edges: EdgeMap,
                     readChildren: map<string, seq<string>>, truncated: bool, g: string)
    requires Remembered(dir, kind, allowed, edges, readChildren, truncated) && g in readChildren
    ensures readChildren[g] == ChildrenOf(dir, kind, allowed, g)
  {
  }

  lemma PendingStart(dir: Directory, kind: NodeKind, allowed: set<string>, w: string)
    ensures Pending(dir, kind, allowed, {}, [w], 0, [], Lower(w))
  {
    assert Lower([w][0]) == Lower(w);
  }

  lemma ChildrenAllowed(dir: Directory, kind: NodeKind, allowed: set<string>, g: string, more: seq<string>, visited: set<string>)
    requires more == NotVisited(ChildrenOf(dir, kind, allowed, g), visited)
    ensures forall x :: x in more ==> Lower(x) in allowed
  {
  }

  lemma PendingSkip(dir: Directory, kind: NodeKind, allowed: set<string>, visited: set<string>,
                    frontier: seq<string>, i: nat, nxt: seq<string>, w: string)
    requires Pending(dir, kind, allowed, visited, frontier, i, nxt, w)
    requires i < |frontier| && Lower(frontier[i]) in visited
    ensures Pending(dir, kind, allowed, visited, frontier, i + 1, nxt, w)
  {
    forall c | c !in visited && Waiting(frontier, i, nxt, c) ensures Waiting(frontier, i + 1, nxt, c) {
    }
  }

  lemma PendingVisit(dir: Directory, kind: NodeKind, allowed: set<string>, visited: set<string>,
                     frontier: seq<string>, i: nat, nxt: seq<string>, more: seq<string>, w: string)
    requires Pending(dir, kind, allowed, visited, frontier, i, nxt, w)
    requires i < |frontier|
    requires var g := Lower(frontier[i]); more == NotVisited(ChildrenOf(dir, kind, allowed, g), visited + {g})
    ensures Pending(dir, kind, allowed, visited + {Lower(frontier[i])}, frontier, i + 1, nxt + more, w)
  {
    var lg := Lower(frontier[i]);
    var all := nxt + more;
    forall c | c != lg && Waiting(frontier, i, nxt, c) ensures Waiting(frontier, i + 1, all, c) {
      if j :| 0 <= j < |nxt| && Lower(nxt[j]) == c {
        assert all[j] == nxt[j];
      }
    }
    forall c | c in allowed && ListsChild(dir, kind, lg, c) && c !in visited + {lg} ensures Waiting(frontier, i + 1, all, c) {
      var name :| name in dir(Key(kind, lg)).value && Lower(name) == c;
      assert name in more;
      var j :| 0 <= j < |more| && more[j] == name;
      assert all[|nxt| + j] == name;
    }
  }

  lemma PendingNext(dir: Directory, kind: NodeKind, allowed: set<string>, visited: set<string>,
                    frontier: seq<string>, nxt: seq<string>, next: seq<string>, w: string)
    requires Pending(dir, kind, allowed, visited, frontier, |frontier|, nxt, w)
    requires forall x :: x in nxt ==> x in next
    ensures Pending(dir, kind, allowed, visited, next, 0, [], w)
  {
    forall c | Waiting(frontier, |frontier|, nxt, c) ensures Waiting(next, 0, [], c) {
      var j :| 0 <= j < |nxt| && Lower(nxt[j]) == c;
      assert nxt[j] in next;
    }
  }

  /** When nothing waits, the visited groups are closed. */
  lemma PendingDone(dir: Directory, kind: NodeKind, allowed: set<string>, visited: set<string>, w: string,
                    edges: EdgeMap, readChildren: map<string, seq<string>>)
    requires Pending(dir, kind, allowed, visited, [], 0, [], w)
    requires Remembered(dir, kind, allowed, edges, readChildren, false) && visited <= readChildren.Keys
    ensures w in visited && Closed(dir, kind, allowed, edges, visited)
  {
  }

  /** The first `i` children are recorded as members of `g`. */
  ghost predicate HoldsFirst(edges: EdgeMap, kind: NodeKind, children: seq<string>, i: nat, g: string) {
    i <= |children| && forall j :: 0 <= j < i ==> HoldsMembership(edges, kind, Lower(children[j]), g)
  }

  lemma NothingRecorded(dir: Directory, kind: NodeKind, allowed: set<string>, edges: EdgeMap, g: string)
    ensures OnlyTrueMemberships(dir, kind, allowed, edges, edges)
    ensures dir(Key(kind, g)).None? ==> HoldsChildren(dir, kind, allowed, edges, g)
    ensures forall children :: HoldsFirst(edges, kind, children, 0, g)
  {
  }

  lemma ReadMore(edges: EdgeMap, read: set<Key>, k: Key)
    requires ReadShaped(edges, read)
    ensures ReadShaped(edges, read + {k}) && |read + {k}| <= |read| + 1
  {
  }

  lemma ChildListed(dir: Directory, kind: NodeKind, members: seq<string>, allowed: set<string>, children: seq<string>, i: nat, g: string)
    requires dir(Key(kind, g)) == Some(members) && children == Allowed(members, allowed) && i < |children|
    ensures Lower(children[i]) in allowed && ListsChild(dir, kind, g, Lower(children[i]))
  {
    assert children[i] in children;
  }

  lemma RecordStep(dir: Directory, kind: NodeKind, allowed: set<string>, start: EdgeMap, edges: EdgeMap, read: set<Key>, e: Edge)
    requires OnlyTrueMemberships(dir, kind, allowed, start, edges) && ReadShaped(edges, read)
    requires e.kind == MEMBER_OF && e.side == None && e.src.kind == kind && e.dst.kind == kind && !IsObject(kind)
    requires e.Id() !in edges
    requires Lower(e.src.name) in allowed && ListsChild(dir, kind, Lower(e.dst.name), Lower(e.src.name)) && e.dst.Id() in read
    ensures OnlyTrueMemberships(dir, kind, allowed, start, edges[e.Id() := e]) && ReadShaped(edges[e.Id() := e], read)
  {
  }

  lemma HoldsFirstStep(edges: EdgeMap, more: EdgeMap, kind: NodeKind, children: seq<string>, i: nat, g: string)
    requires i < |children| && HoldsFirst(edges, kind, children, i, g) && Grows(edges, more)
    requires HoldsMembership(more, kind, Lower(children[i]), g)
    ensures HoldsFirst(more, kind, children, i + 1, g)
  {
  }

  lemma HoldsAll(dir: Directory, kind: NodeKind, members: seq<string>, allowed: set<string>, edges: EdgeMap,
                 children: seq<string>, g: string)
    requires dir(Key(kind, g)) == Some(members) && children == Allowed(members, allowed)
    requires HoldsFirst(edges, kind, children, |children|, g)
    ensures HoldsChildren(dir, kind, allowed, edges, g)
  {
    forall c | c in allowed && ListsChild(dir, kind, g, c) ensures HoldsMembership(edges, kind, c, g) {
      var name :| name in members && Lower(name) == c;
      assert name in children;
    }
  }

  /** Since `base` the log holds reads of groups of this kind only, all among `names`, none twice, and says which failed. */
  ghost predicate ReadOnce(dir: Directory, checks: seq<Check>, base: nat, kind: NodeKind, names: set<string>) {
    && base <= |checks|
    && (forall i :: base <= i < |checks| ==> checks[i].group.kind == kind && checks[i].group.name in names)
    && (forall i :: base <= i < |checks| ==> checks[i].ok == dir(checks[i].group).Some?)
    && (forall i, j :: base <= i < j < |checks| ==> checks[i].group != checks[j].group)
  }

  ghost predicate AllRead(checks: seq<Check>, base: nat) {
    forall i :: base <= i < |checks| ==> checks[i].ok
  }

  lemma ReadOnceMore(dir: Directory, checks: seq<Check>, base: nat, kind: NodeKind, names: set<string>, g: string, ok: bool)
    requires ReadOnce(dir, checks, base, kind, names) && g !in names && ok == dir(Key(kind, g)).Some?
    ensures ReadOnce(dir, checks + [Check(Key(kind, g), ok)], base, kind, names + {g})
    ensures AllRead(checks + [Check(Key(kind, g), ok)], base) == (AllRead(checks, base) && ok)
  {
    var more := checks + [Check(Key(kind, g), ok)];
    assert more[|checks|].ok == ok;
    if AllRead(more, base) {
      forall i | base <= i < |checks| ensures checks[i].ok {
        assert more[i] == checks[i];
      }
    }
  }

  /** What one part of the walk leaves behind: edges only grow, a full index stays full, and `ok` tells whether every
      read of this part succeeded. */
  ghost predicate Progress(edges: EdgeMap, truncated: bool, log: seq<Check>, edges': EdgeMap, truncated': bool, log': seq<Check>,
                           base: nat, ok: bool)
  {
    Grows(edges, edges') && (truncated ==> truncated') && log <= log' && AllRead(log', base) == (AllRead(log, base) && ok)
  }

  lemma ProgressNone(edges: EdgeMap, truncated: bool, truncated': bool, log: seq<Check>, base: nat)
    requires truncated ==> truncated'
    ensures Progress(edges, truncated, log, edges, truncated', log, base, true)
  {
  }

  lemma ProgressTwice(edges: EdgeMap, truncated: bool, log: seq<Check>, edges': EdgeMap, truncated': bool, log': seq<Check>,
                      edges'': EdgeMap, truncated'': bool, log'': seq<Check>, base: nat, ok: bool, ok': bool)
    requires Progress(edges, truncated, log, edges', truncated', log', base, ok)
    requires Progress(edges', truncated', log', edges'', truncated'', log'', base, ok')
    ensures Progress(edges, truncated, log, edges'', truncated'', log'', base, ok && ok')
    ensures (truncated' ==> truncated'') && Grows(edges', edges'')
  {
  }

  ghost function Universe(allowed: set<string>, w: string): set<string> { allowed + {Lower(w)} }

  ghost predicate Nearer(universe: set<string>, seen: set<string>, visited: set<string>, level: seq<string>, next: seq<string>) {
    universe - visited < universe - seen || (universe - visited == universe - seen && |next| < |level|)
  }

  lemma LevelNearer(universe: set<string>, seen: set<string>, visited: set<string>, level: seq<string>, next: seq<string>)
    requires seen <= visited <= universe && level != [] && (visited == seen ==> next == [])
    ensures Nearer(universe, seen, visited, level, next)
  {
    if visited != seen {
      assert exists x :: x in visited && x !in seen by {
        assert !(visited <= seen);
      }
      var x :| x in visited && x !in seen;
      assert x in universe - seen && x !in universe - visited;
    }
  }

  /** The invariant of the walk below `w`. */
  ghost predicate Walking(dir: Directory, kind: NodeKind, allowed: set<string>, frontier: seq<string>, visited: set<string>,
                          readChildren: map<string, seq<string>>, edges: EdgeMap, truncated: bool, s: Key, w: string)
  {
    && visited <= Universe(allowed, w) && visited <= readChildren.Keys
    && (forall x :: x in frontier ==> Lower(x) in Universe(allowed, w))
    && (truncated || Linked(edges, s, Key(kind, Lower(w))) || Pending(dir, kind, allowed, visited, frontier, 0, [], Lower(w)))
  }

  lemma WalkOpen(dir: Directory, kind: NodeKind, allowed: set<string>, frontier: seq<string>, visited: set<string>,
                 readChildren: map<string, seq<string>>, edges: EdgeMap, truncated: bool, truncated': bool, s: Key, w: string)
    requires Walking(dir, kind, allowed, frontier, visited, readChildren, edges, truncated, s, w)
    requires truncated ==> truncated'
    requires Linked(edges, s, Key(kind, Lower(w))) ==> truncated'
    ensures visited <= readChildren.Keys
    ensures truncated' || Pending(dir, kind, allowed, visited, frontier, 0, [], Lower(w))
  {
  }

  lemma WalkOn(dir: Directory, kind: NodeKind, allowed: set<string>, level: seq<string>, seen: set<string>,
               readBefore: map<string, seq<string>>, edges: EdgeMap, truncated: bool, nxt: seq<string>, frontier: seq<string>,
               visited: set<string>, readChildren: map<string, seq<string>>, edges': EdgeMap, truncated': bool, s: Key, w: string)
    requires Walking(dir, kind, allowed, level, seen, readBefore, edges, truncated, s, w) && level != []
    requires seen <= visited <= readChildren.Keys && visited <= seen + set x | x in level :: Lower(x)
    requires visited == seen ==> nxt == []
    requires forall x :: x in nxt ==> Lower(x) in allowed
    requires truncated' || Linked(edges', s, Key(kind, Lower(w)))
             || Pending(dir, kind, allowed, visited, level, |level|, nxt, Lower(w))
    requires forall x {:trigger x in frontier} :: x in frontier <==> x in nxt
    ensures Walking(dir, kind, allowed, frontier, visited, readChildren, edges', truncated', s, w)
    ensures Nearer(Universe(allowed, w), seen, visited, level, frontier)
  {
    if Pending(dir, kind, allowed, visited, level, |level|, nxt, Lower(w)) {
      PendingNext(dir, kind, allowed, visited, level, nxt, frontier, Lower(w));
    }
    assert frontier != [] ==> frontier[0] in frontier;
    LevelNearer(Universe(allowed, w), seen, visited, level, frontier);
  }

  lemma WalkNames(dir: Directory, kind: NodeKind, allowed: set<string>, frontier: seq<string>, visited: set<string>,
                  readChildren: map<string, seq<string>>, edges: EdgeMap, truncated: bool, s: Key, w: string, names: set<string>)
    requires Walking(dir, kind, allowed, frontier, visited, readChildren, edges, truncated, s, w)
    requires allowed <= names && Lower(w) in names
    ensures forall x :: x in frontier ==> Lower(x) in names
  {
  }

  lemma WalkStart(dir: Directory, kind: NodeKind, allowed: set<string>, readChildren: map<string, seq<string>>,
                  edges: EdgeMap, truncated: bool, s: Key, w: string)
    ensures Walking(dir, kind, allowed, [w], {}, readChildren, edges, truncated, s, w)
  {
    PendingStart(dir, kind, allowed, w);
  }

  /** The search for `w` is over: a chain is stored, or the groups below `w` are closed. */
  ghost predicate Settled(dir: Directory, kind: NodeKind, allowed: set<string>, edges: EdgeMap, s: Key, w: string) {
    || Linked(edges, s, Key(kind, w))
    || exists groups: set<string> :: w in groups && Closed(dir, kind, allowed, edges, groups)
  }

  lemma LinkedSettles(dir: Directory, kind: NodeKind, allowed: set<string>, edges: EdgeMap, s: Key, w: string)
    requires Linked(edges, s, Key(kind, w))
    ensures Settled(dir, kind, allowed, edges, s, w)
  {
  }

  lemma WalkDone(dir: Directory, kind: NodeKind, allowed: set<string>, visited: set<string>,
                 readChildren: map<string, seq<string>>, edges: EdgeMap, s: Key, w: string)
    requires Walking(dir, kind, allowed, [], visited, readChildren, edges, false, s, w)
    requires Remembered(dir, kind, allowed, edges, readChildren, false)
    ensures Settled(dir, kind, allowed, edges, s, Lower(w))
  {
    if !Linked(edges, s, Key(kind, Lower(w))) {
      PendingDone(dir, kind, allowed, visited, Lower(w), edges, readChildren);
    }
  }

  lemma SettledGrows(dir: Directory, kind: NodeKind, allowed: set<string>, edges: EdgeMap, more: EdgeMap, s: Key, w: string)
    requires Settled(dir, kind, allowed, edges, s, w) && Grows(edges, more)
    ensures Settled(dir, kind, allowed, more, s, w)
  {
    if Linked(edges, s, Key(kind, w)) {
      LinkedGrows(edges, more, s, Key(kind, w));
    } else {
      var groups :| w in groups && Closed(dir, kind, allowed, edges, groups);
      assert Closed(dir, kind, allowed, more, groups);
    }
  }

  lemma RememberedMore(dir: Directory, kind: NodeKind, allowed: set<string>, edges: EdgeMap, more: EdgeMap,
                       readChildren: map<string, seq<string>>, truncated: bool, truncated': bool, g: string)
    requires Remembered(dir, kind, allowed, edges, readChildren, truncated)
    requires Grows(edges, more) && (truncated ==> truncated') && (truncated' || HoldsChildren(dir, kind, allowed, more, g))
    ensures Remembered(dir, kind, allowed, more, readChildren[g := ChildrenOf(dir, kind, allowed, g)], truncated')
  {
  }

  lemma TrueGrows(dir: Directory, kind: NodeKind, allowed: set<string>, a: EdgeMap, b: EdgeMap)
    requires OnlyTrueMemberships(dir, kind, allowed, a, b)
    ensures Grows(a, b)
  {
  }

  lemma OnlyTrueTwice(dir: Directory, kind: NodeKind, allowed: set<string>, a: EdgeMap, b: EdgeMap, c: EdgeMap)
    requires OnlyTrueMemberships(dir, kind, allowed, a, b) && OnlyTrueMemberships(dir, kind, allowed, b, c)
    ensures OnlyTrueMemberships(dir, kind, allowed, a, c)
  {
  }

  ghost predicate AllSettled(dir: Directory, kind: NodeKind, allowed: set<string>, edges: EdgeMap, s: Key, wanted: set<string>) {
    forall w :: w in wanted ==> Settled(dir, kind, allowed, edges, s, Lower(w))
  }

  lemma NoneSettled(dir: Directory, kind: NodeKind, allowed: set<string>, edges: EdgeMap, s: Key)
    ensures AllSettled(dir, kind, allowed, edges, s, {})
  {
  }

  lemma SettledMore(dir: Directory, kind: NodeKind, allowed: set<string>, edges: EdgeMap, more: EdgeMap, s: Key,
                    before: set<string>, w: string)
    requires AllSettled(dir, kind, allowed, edges, s, before) && Grows(edges, more)
    requires Settled(dir, kind, allowed, more, s, Lower(w))
    ensures AllSettled(dir, kind, allowed, more, s, before + {w})
  {
    forall v | v in before ensures Settled(dir, kind, allowed, more, s, Lower(v)) {
      SettledGrows(dir, kind, allowed, edges, more, s, Lower(v));
    }
  }

  /** A chain of stored memberships leads to each of the groups. */
  ghost predicate AllLinked(edges: EdgeMap, s: Key, kind: NodeKind, groups: set<string>) {
    forall w :: w in groups ==> Linked(edges, s, Key(kind, Lower(w)))
  }

  /** Whatever nesting of readable groups the directory holds below a wanted group, a chain to it is stored. */
  ghost predicate FindsEveryNesting(dir: Directory, kind: NodeKind, m: Membership, wanted: set<string>, edges: EdgeMap) {
    forall w, names :: w in wanted && Nests(dir, kind, DirectNames(m), m.AllGroups(), names, Lower(w)) ==>
      Linked(edges, m.node.Id(), Key(kind, Lower(w)))
  }

  lemma SettledFinds(dir: Directory, kind: NodeKind, m: Membership, wanted: set<string>, start: EdgeMap, edges: EdgeMap)
    requires AllSettled(dir, kind, m.AllGroups(), edges, m.node.Id(), wanted)
    requires AllLinked(start, m.node.Id(), kind, m.direct) && Grows(start, edges)
    requires forall k :: k in edges ==> edges[k].Id() == k
    ensures FindsEveryNesting(dir, kind, m, wanted, edges)
  {
    forall d | d in m.direct ensures Linked(edges, m.node.Id(), Key(kind, Lower(d))) {
      LinkedGrows(start, edges, m.node.Id(), Key(kind, Lower(d)));
    }
    forall w, names | w in wanted && Nests(dir, kind, DirectNames(m), m.AllGroups(), names, Lower(w))
      ensures Linked(edges, m.node.Id(), Key(kind, Lower(w)))
    {
      if !Linked(edges, m.node.Id(), Key(kind, Lower(w))) {
        var groups :| Lower(w) in groups && Closed(dir, kind, m.AllGroups(), edges, groups);
        ClosedFindsNesting(dir, kind, DirectNames(m), m.AllGroups(), edges, groups, m.node.Id(), names, Lower(w));
      }
    }
  }

  lemma AllLinkedGrows(edges: EdgeMap, more: EdgeMap, s: Key, kind: NodeKind, groups: set<string>)
    requires AllLinked(edges, s, kind, groups) && Grows(edges, more)
    ensures AllLinked(more, s, kind, groups)
  {
    forall w | w in groups ensures Linked(more, s, Key(kind, Lower(w))) {
      LinkedGrows(edges, more, s, Key(kind, Lower(w)));
    }
  }

  lemma FindsGrows(dir: Directory, kind: NodeKind, m: Membership, wanted: set<string>, edges: EdgeMap, more: EdgeMap)
    requires FindsEveryNesting(dir, kind, m, wanted, edges) && Grows(edges, more)
    ensures FindsEveryNesting(dir, kind, m, wanted, more)
  {
    forall w, names | w in wanted && Nests(dir, kind, DirectNames(m), m.AllGroups(), names, Lower(w))
      ensures Linked(more, m.node.Id(), Key(kind, Lower(w)))
    {
      LinkedGrows(edges, more, m.node.Id(), Key(kind, Lower(w)));
    }
  }

  function ToSet(list: seq<string>): set<string> { set x | x in list }

  lemma ObjectShaped(edges: EdgeMap, more: EdgeMap, read: set<Key>, child: Option<Node>, groupKind: NodeKind,
                     direct: seq<string>, indirect: seq<string>)
    requires ReadShaped(edges, read) && AddedMemberships(edges, more, child, groupKind, direct, indirect)
    requires !IsObject(groupKind) && (child.Some? ==> IsObject(child.value.kind))
    ensures ReadShaped(more, read) && Grows(edges, more)
  {
  }

  lemma AddedById(edges: EdgeMap, more: EdgeMap, child: Option<Node>, node: Node, groupKind: NodeKind, direct: seq<string>,
                  indirect: seq<string>)
    requires AddedMemberships(edges, more, child, groupKind, direct, indirect) && (child.Some? ==> child.value.Id() == node.Id())
    ensures AddedMemberships(edges, more, Some(node), groupKind, direct, indirect)
  {
    hide Lower, Names;
  }

  lemma ObjectLinked(edges: EdgeMap, node: Node, groupKind: NodeKind, direct: seq<string>)
    requires HoldsNamed(edges, Some(node), groupKind, direct, MEMBER_OF, |direct|)
    requires forall k :: k in edges ==> edges[k].Id() == k
    ensures AllLinked(edges, node.Id(), groupKind, ToSet(direct))
  {
    forall d | d in ToSet(direct) ensures Linked(edges, node.Id(), Key(groupKind, Lower(d))) {
      var i :| 0 <= i < |direct| && direct[i] == d;
      var k := EdgeKey(node.Id(), Node(groupKind, direct[i]).Id(), MEMBER_OF, None);
      assert IsChain(edges, node.Id(), [], node.Id());
      LinkedStep(edges, node.Id(), edges[k]);
    }
  }

  lemma ProgressFacts(edges: EdgeMap, truncated: bool, log: seq<Check>, edges': EdgeMap, truncated': bool, log': seq<Check>, ok: bool)
    requires Progress(edges, truncated, log, edges', truncated', log', |log|, ok)
    ensures Grows(edges, edges') && (truncated ==> truncated') && log <= log' && AllRead(log', |log|) == ok
  {
  }

  // ------------------------------------------------------------------ the room a search needs

  function GroupKeys(kind: NodeKind, names: set<string>): set<Key> { set n | n in names :: Key(kind, n) }

  function Lowered(names: set<string>): set<string> { set n | n in names :: Lower(n) }

  /** The groups that a search for the wanted groups of an object may read. */
  function NamesOf(m: Membership, wanted: set<string>): set<string> { m.AllGroups() + Lowered(wanted) }

  /** Memberships between the object's groups lead into groups that were read, so there is a bound on their number. */
  lemma EdgesAreFew(dir: Directory, kind: NodeKind, allowed: set<string>, start: EdgeMap, edges: EdgeMap, read: set<Key>)
    requires OnlyTrueMemberships(dir, kind, allowed, start, edges) && ReadShaped(edges, read) && !IsObject(kind)
    ensures |edges| <= |start| + |allowed| * |read|
  {
    hide ListsChild, Between;
    var added := edges.Keys - start.Keys;
    forall k | k in added ensures k in Between(kind, allowed, read) { BetweenHolds(kind, allowed, read, k); }
    BetweenIsSmall(kind, allowed, read);
    SubsetSize(added, Between(kind, allowed, read));
    assert edges.Keys == start.Keys + added;
  }

  function Between(kind: NodeKind, allowed: set<string>, read: set<Key>): set<EdgeKey> {
    set a, r | a in allowed && r in read :: EdgeKey(Key(kind, a), r, MEMBER_OF, None)
  }

  lemma BetweenHolds(kind: NodeKind, allowed: set<string>, read: set<Key>, k: EdgeKey)
    requires k.src.kind == kind && k.src.name in allowed && k.dst in read && k.kind == MEMBER_OF && k.side == None
    ensures k in Between(kind, allowed, read)
  {
    assert k == EdgeKey(Key(kind, k.src.name), k.dst, MEMBER_OF, None);
  }

  lemma {:induction false} BetweenIsSmall(kind: NodeKind, allowed: set<string>, read: set<Key>)
    ensures |Between(kind, allowed, read)| <= |allowed| * |read|
  {
    hide Between, Into;
    if r :| r in read {
      BetweenIsSmall(kind, allowed, read - {r});
      OneEach(kind, allowed, r);
      BetweenSplits(kind, allowed, read, r);
      OneMore(|allowed|, |read - {r}|);
      assert |read| == |read - {r}| + 1;
    } else {
      NoneBetween(kind, allowed, read);
    }
  }

  lemma NoneBetween(kind: NodeKind, allowed: set<string>, read: set<Key>)
    requires read == {}
    ensures Between(kind, allowed, read) == {}
  {
  }

  lemma OneMore(a: nat, n: nat)
    ensures a * (n + 1) == a * n + a
  {
  }

  /** The memberships that lead into one group. */
  function Into(kind: NodeKind, allowed: set<string>, r: Key): set<EdgeKey> {
    set a | a in allowed :: EdgeKey(Key(kind, a), r, MEMBER_OF, None)
  }

  lemma BetweenSplits(kind: NodeKind, allowed: set<string>, read: set<Key>, r: Key)
    requires r in read
    ensures Between(kind, allowed, read) == Between(kind, allowed, read - {r}) + Into(kind, allowed, r)
  {
    forall k | k in Between(kind, allowed, read) && k.dst != r ensures k in Between(kind, allowed, read - {r}) {
      BetweenHolds(kind, allowed, read - {r}, k);
    }
  }

  lemma {:induction false} OneEach(kind: NodeKind, allowed: set<string>, r: Key)
    ensures |Into(kind, allowed, r)| <= |allowed|
  {
    if a :| a in allowed {
      OneEach(kind, allowed - {a}, r);
      assert Into(kind, allowed, r) == Into(kind, allowed - {a}, r) + {EdgeKey(Key(kind, a), r, MEMBER_OF, None)};
    } else {
      assert Into(kind, allowed, r) == {};
    }
  }

  lemma Products(a: nat, b: nat, c: nat)
    requires b <= c
    ensures a * b <= a * c
  {
  }

  /** Reads of different groups among the names are no more than the names. */
  lemma ReadsAreFew(dir: Directory, checks: seq<Check>, base: nat, kind: NodeKind, names: set<string>)
    requires ReadOnce(dir, checks, base, kind, names)
    ensures |checks| - base <= |names|
  {
    var groups := seq(|checks| - base, i requires 0 <= i < |checks| - base => checks[base + i].group.name);
    forall i, j | 0 <= i < j < |groups| ensures groups[i] != groups[j] {
      assert checks[base + i].group != checks[base + j].group;
    }
    Pigeonhole(groups, names);
  }

  lemma ReadOnceAmong(dir: Directory, checks: seq<Check>, base: nat, kind: NodeKind, read: set<string>, names: set<string>)
    requires ReadOnce(dir, checks, base, kind, read) && read <= names
    ensures ReadOnce(dir, checks, base, kind, names)
  {
  }

  /** One more node of this side stays within the room. */
  lemma RoomyMore(nodes: set<Key>, more: set<Key>, room: set<Key>, kind: NodeKind, some: set<string>, names: set<string>)
    requires nodes <= room + GroupKeys(kind, names) && more <= nodes + GroupKeys(kind, some) && some <= names
    ensures more <= room + GroupKeys(kind, names)
  {
  }

  // ------------------------------------------------------------------ one question

  /** An entry as FreeIPA shows it: its name and its direct and indirect groups. */
  datatype ObjectEntry = ObjectEntry(name: string, direct: seq<string>, indirect: seq<string>)

  /** An object or a group that one side of a rule lists. */
  datatype RuleTarget = RuleTarget(side: Side, kind: NodeKind, name: string)

  datatype RuleEntry = RuleEntry(name: string, targets: seq<RuleTarget>)

  /** What is read before any chain is expanded; `relevant` are the lower-cased names the question is about. */
  datatype Question = Question(
    user: ObjectEntry, host: ObjectEntry, service: Option<ObjectEntry>, rules: seq<RuleEntry>, relevant: Side -> set<string>)

  predicate IsEntry(m: Membership, kind: NodeKind, e: ObjectEntry) {
    m.node.Id() == Node(kind, e.name).Id() && m.direct == ToSet(e.direct) && m.indirect == ToSet(e.indirect)
  }

  /** The edge leads from the rule to something it lists that concerns the question. */
  ghost predicate RelevantEdge(k: EdgeKey, rule: RuleEntry, relevant: Side -> set<string>) {
    && k.kind == RULE_APPLIES_TO && k.src == Node(HBAC_RULE, rule.name).Id() && k.side.Some?
    && k.dst.name in relevant(k.side.value)
    && exists i :: 0 <= i < |rule.targets| && rule.targets[i].side == k.side.value
                   && k.dst == Node(rule.targets[i].kind, rule.targets[i].name).Id()
  }

  ghost predicate OnlyRelevant(edges: EdgeMap, more: EdgeMap, rule: RuleEntry, relevant: Side -> set<string>) {
    forall k :: k in more && k !in edges ==> RelevantEdge(k, rule, relevant)
  }

  ghost predicate OnlyRelevantOf(edges: EdgeMap, more: EdgeMap, rules: seq<RuleEntry>, relevant: Side -> set<string>) {
    forall k :: k in more && k !in edges ==> exists i :: 0 <= i < |rules| && RelevantEdge(k, rules[i], relevant)
  }

  lemma OnlyRelevantMore(start: EdgeMap, edges: EdgeMap, more: EdgeMap, rules: seq<RuleEntry>, i: nat, relevant: Side -> set<string>)
    requires i < |rules| && OnlyRelevantOf(start, edges, rules, relevant) && OnlyRelevant(edges, more, rules[i], relevant)
    ensures OnlyRelevantOf(start, more, rules, relevant)
  {
    hide RelevantEdge;
  }

  // ------------------------------------------------------------------ what the stored memberships stand for

  /** A membership that the object's own entry states, or that the directory states of one of the object's groups. */
  ghost predicate StatedOf(dir: Directory, kind: NodeKind, groupKind: NodeKind, e: ObjectEntry, k: EdgeKey) {
    || (k.src == Node(kind, e.name).Id() && Names(e.direct, groupKind, k.dst))
    || (k.src.kind == groupKind && k.dst.kind == groupKind && k.src.name in EntryGroups(e)
        && ListsChild(dir, groupKind, k.dst.name, k.src.name))
  }

  /** Every direct membership in the index is one that FreeIPA states. */
  ghost predicate Stated(dir: Directory, q: Question, edges: EdgeMap) {
    forall k :: k in edges && k.kind == MEMBER_OF ==>
      || StatedOf(dir, USER, GROUP, q.user, k) || StatedOf(dir, HOST, HOSTGROUP, q.host, k)
      || (q.service.Some? && StatedOf(dir, HBAC_SERVICE, HBAC_SERVICE_GROUP, q.service.value, k))
  }

  lemma StatedByEntry(dir: Directory, q: Question, edges: EdgeMap, more: EdgeMap, kind: NodeKind, groupKind: NodeKind, e: ObjectEntry)
    requires Stated(dir, q, edges)
    requires AddedMemberships(edges, more, Some(Node(kind, e.name)), groupKind, e.direct, e.indirect)
    requires || (kind == USER && groupKind == GROUP && e == q.user) || (kind == HOST && groupKind == HOSTGROUP && e == q.host)
             || (kind == HBAC_SERVICE && groupKind == HBAC_SERVICE_GROUP && q.service == Some(e))
    ensures Stated(dir, q, more)
  {
    hide Lower, Names, EntryGroups, ListsChild;
  }

  lemma StatedByDirectory(dir: Directory, q: Question, edges: EdgeMap, more: EdgeMap, kind: NodeKind, e: ObjectEntry)
    requires Stated(dir, q, edges) && OnlyTrueMemberships(dir, kind, EntryGroups(e), edges, more)
    requires (kind == GROUP && e == q.user) || (kind == HOSTGROUP && e == q.host)
    ensures Stated(dir, q, more)
  {
    hide Lower, Names, EntryGroups, ListsChild;
  }

  lemma StatedByRules(dir: Directory, q: Question, edges: EdgeMap, more: EdgeMap)
    requires Stated(dir, q, edges) && OnlyRelevantOf(edges, more, q.rules, q.relevant)
    ensures Stated(dir, q, more)
  {
    hide Lower, StatedOf;
  }

  /** The names of the groups along a chain. */
  ghost function Along(path: seq<Edge>): seq<string> { seq(|path|, i requires 0 <= i < |path| => path[i].dst.Id().name) }

  /** A stored chain from the object is a nesting that the directory holds. */
  lemma {:induction false} ChainIsNesting(dir: Directory, edges: EdgeMap, kind: NodeKind, groupKind: NodeKind, m: Membership,
                                          e: ObjectEntry, path: seq<Edge>, t: Key)
    requires forall k :: k in edges && k.kind == MEMBER_OF && (k.src.kind == kind || k.src.kind == groupKind) ==>
               StatedOf(dir, kind, groupKind, e, k)
    requires IsObject(kind) && !IsObject(groupKind) && IsEntry(m, kind, e)
    requires path != [] && IsChain(edges, m.node.Id(), path, t)
    ensures t.kind == groupKind && Nests(dir, groupKind, DirectNames(m), m.AllGroups(), Along(path), t.name)
  {
    hide Lower, ListsChild, Nests, Names, EntryGroups, DirectNames;
    var n := |path| - 1;
    var last := path[n];
    if n == 0 {
      assert last.src.Id() == m.node.Id() && StatedOf(dir, kind, groupKind, e, last.Id());
      StartIsDirect(m, kind, groupKind, e, t);
      NestsStart(dir, groupKind, DirectNames(m), m.AllGroups(), t.name);
      assert Along(path) == [t.name];
    } else {
      ChainIsNesting(dir, edges, kind, groupKind, m, e, path[..n], last.src.Id());
      EntryIs(m, kind, e, {});
      assert StatedOf(dir, kind, groupKind, e, last.Id());
      NestsStep(dir, groupKind, DirectNames(m), m.AllGroups(), Along(path[..n]), last.src.Id().name, t.name);
      assert Along(path) == Along(path[..n]) + [t.name];
    }
  }

  lemma NestsStart(dir: Directory, kind: NodeKind, direct: set<string>, allowed: set<string>, w: string)
    requires w in direct
    ensures Nests(dir, kind, direct, allowed, [w], w)
  {
  }

  lemma NestsStep(dir: Directory, kind: NodeKind, direct: set<string>, allowed: set<string>, names: seq<string>, w: string,
                  parent: string)
    requires Nests(dir, kind, direct, allowed, names, w) && w in allowed && ListsChild(dir, kind, parent, w)
    ensures Nests(dir, kind, direct, allowed, names + [parent], parent)
  {
    hide ListsChild;
  }

  lemma StartIsDirect(m: Membership, kind: NodeKind, groupKind: NodeKind, e: ObjectEntry, t: Key)
    requires IsEntry(m, kind, e) && Names(e.direct, groupKind, t)
    ensures t.kind == groupKind && t.name in DirectNames(m)
  {
    hide Lower;
    var i :| 0 <= i < |e.direct| && t == Node(groupKind, e.direct[i]).Id();
    assert e.direct[i] in m.direct;
  }

  lemma StatedSides(dir: Directory, q: Question, edges: EdgeMap)
    requires Stated(dir, q, edges)
    ensures forall k :: k in edges && k.kind == MEMBER_OF && (k.src.kind == USER || k.src.kind == GROUP) ==>
              StatedOf(dir, USER, GROUP, q.user, k)
    ensures forall k :: k in edges && k.kind == MEMBER_OF && (k.src.kind == HOST || k.src.kind == HOSTGROUP) ==>
              StatedOf(dir, HOST, HOSTGROUP, q.host, k)
  {
    hide Lower, Names, EntryGroups, ListsChild;
  }

  /** The edge of a relevant target is stored. */
  ghost predicate HoldsTarget(edges: EdgeMap, rule: RuleEntry, t: RuleTarget, relevant: Side -> set<string>) {
    Lower(t.name) in relevant(t.side) ==>
      EdgeKey(Node(HBAC_RULE, rule.name).Id(), Node(t.kind, t.name).Id(), RULE_APPLIES_TO, Some(t.side)) in edges
  }

  ghost predicate HoldsTargets(edges: EdgeMap, rule: RuleEntry, n: nat, relevant: Side -> set<string>) {
    n <= |rule.targets| && forall i :: 0 <= i < n ==> HoldsTarget(edges, rule, rule.targets[i], relevant)
  }

  lemma MoreTargets(edges: EdgeMap, more: EdgeMap, rule: RuleEntry, i: nat, relevant: Side -> set<string>)
    requires i < |rule.targets| && HoldsTargets(edges, rule, i, relevant) && Grows(edges, more)
    requires HoldsTarget(more, rule, rule.targets[i], relevant)
    ensures HoldsTargets(more, rule, i + 1, relevant)
  {
    hide Lower;
  }

  lemma TargetsStay(edges: EdgeMap, more: EdgeMap, rule: RuleEntry, n: nat, relevant: Side -> set<string>)
    requires HoldsTargets(edges, rule, n, relevant) && Grows(edges, more)
    ensures HoldsTargets(more, rule, n, relevant)
  {
    hide Lower;
  }

  // ------------------------------------------------------------------ the room a question needs

  function EntryKeys(kind: NodeKind, groupKind: NodeKind, e: ObjectEntry): set<Key> {
    {Node(kind, e.name).Id()} + NameKeys(groupKind, e.direct) + NameKeys(groupKind, e.indirect)
  }

  function EntryEdges(e: ObjectEntry): nat { |e.direct| + |e.indirect| }

  function RuleKeys(rule: RuleEntry): set<Key> {
    {Node(HBAC_RULE, rule.name).Id()} + set i | 0 <= i < |rule.targets| :: Node(rule.targets[i].kind, rule.targets[i].name).Id()
  }

  function RulesKeys(rules: seq<RuleEntry>): set<Key> {
    if rules == [] then {} else RulesKeys(rules[..|rules| - 1]) + RuleKeys(rules[|rules| - 1])
  }

  function RulesEdges(rules: seq<RuleEntry>): nat {
    if rules == [] then 0 else RulesEdges(rules[..|rules| - 1]) + |rules[|rules| - 1].targets|
  }

  function QuestionKeys(q: Question): set<Key> {
    EntryKeys(USER, GROUP, q.user) + EntryKeys(HOST, HOSTGROUP, q.host)
    + (if q.service.Some? then EntryKeys(HBAC_SERVICE, HBAC_SERVICE_GROUP, q.service.value) else {}) + RulesKeys(q.rules)
  }

  function QuestionEdges(q: Question): nat {
    EntryEdges(q.user) + EntryEdges(q.host) + (if q.service.Some? then EntryEdges(q.service.value) else 0) + RulesEdges(q.rules)
  }

  /** The groups of an entry, and what may be read to explain its wanted groups. */
  function EntryGroups(e: ObjectEntry): set<string> { Lowered(ToSet(e.direct) + ToSet(e.indirect)) }

  function EntryNames(e: ObjectEntry, wanted: set<string>): set<string> { EntryGroups(e) + Lowered(wanted) }

  function AllKeys(q: Question, wantedOfUser: set<string>, wantedOfHost: set<string>): set<Key> {
    QuestionKeys(q) + GroupKeys(GROUP, EntryNames(q.user, wantedOfUser)) + GroupKeys(HOSTGROUP, EntryNames(q.host, wantedOfHost))
  }

  lemma EntryIs(m: Membership, kind: NodeKind, e: ObjectEntry, wanted: set<string>)
    requires IsEntry(m, kind, e)
    ensures m.AllGroups() == EntryGroups(e) && NamesOf(m, wanted) == EntryNames(e, wanted)
  {
    hide Lower;
  }

  lemma NoRuleEdges(edges: EdgeMap, rule: RuleEntry, relevant: Side -> set<string>)
    ensures OnlyRelevant(edges, edges, rule, relevant)
  {
  }

  lemma RuleEdge(start: EdgeMap, edges: EdgeMap, read: set<Key>, rule: RuleEntry, relevant: Side -> set<string>, t: RuleTarget,
                 e: Edge)
    requires OnlyRelevant(start, edges, rule, relevant) && ReadShaped(edges, read) && e.Id() !in edges && Grows(start, edges)
    requires t in rule.targets && Lower(t.name) in relevant(t.side)
    requires e.kind == RULE_APPLIES_TO && e.src.Id() == Node(HBAC_RULE, rule.name).Id() && e.dst.Id() == Node(t.kind, t.name).Id()
    requires e.side == Some(t.side)
    ensures OnlyRelevant(start, edges[e.Id() := e], rule, relevant) && ReadShaped(edges[e.Id() := e], read)
    ensures Grows(start, edges[e.Id() := e])
  {
    hide Lower;
    var i :| 0 <= i < |rule.targets| && rule.targets[i] == t;
  }

  lemma GrowsNot(edges: EdgeMap)
    ensures Grows(edges, edges)
  {
  }

  lemma GrowsTwice(a: EdgeMap, b: EdgeMap, c: EdgeMap)
    requires Grows(a, b) && Grows(b, c)
    ensures Grows(a, c)
  {
  }

  class Run {
    const dir: Directory
    const index: RelationshipIndex
    var checks: seq<Check>
    var chainReads: nat
    var limitNotes: nat
    ghost var read: set<Key>
    /** What the search on the current side may read, and the nodes there were before it. */
    ghost var names: set<string>
    ghost var before: set<Key>

    ghost predicate Valid()
      reads this`chainReads, this`read, index
    {
      && index.Valid() && ReadShaped(index.edges, read)
      && |read| <= chainReads <= MAX_GROUP_FETCHES
    }

    constructor (dir: Directory)
      ensures Valid() && fresh(index) && this.dir == dir
      ensures checks == [] && chainReads == 0 && limitNotes == 0 && index.edges == map[] && !index.truncated
    {
      this.dir := dir;
      index := new RelationshipIndex();
      checks, chainReads, limitNotes, read, names, before := [], 0, 0, {}, {}, {};
    }

    /** Whether the index holds a chain to the group. The default depth bound never hides one. */
    method Known(member: Node, kind: NodeKind, w: string) returns (known: bool)
      requires Valid()
      modifies index`nodes, index`truncated
      ensures Valid() && (old(index.truncated) ==> index.truncated)
      ensures known ==> Linked(index.edges, member.Id(), Key(kind, Lower(w)))
      ensures Linked(index.edges, member.Id(), Key(kind, Lower(w))) && !index.truncated ==> known
      ensures index.nodes.Keys <= old(index.nodes).Keys + GroupKeys(kind, {Lower(w)})
    {
      hide Grouped, Lower, ReadShaped;
      var target := index.GetNode(kind, w);
      if target.None? {
        return false;
      }
      var path := index.MembershipPath(member, target.value);
      if path.None? && Linked(index.edges, member.Id(), target.value.Id()) {
        DepthBoundHidesNothing(index.edges, read, member.Id(), target.value.Id());
      }
      return path.Some?;
    }

    /** Records one of the children just read. */
    method RecordChild(kind: NodeKind, g: string, parent: Option<Node>, members: seq<string>, children: seq<string>,
                       allowed: set<string>, i: nat, ghost start: EdgeMap)
      requires Valid() && !IsObject(kind) && Key(kind, Lower(g)) in read && i < |children|
      requires dir(Key(kind, Lower(g))) == Some(members) && children == Allowed(members, allowed)
      requires parent.Some? ==> parent.value.Id() == Key(kind, Lower(g))
      requires OnlyTrueMemberships(dir, kind, allowed, start, index.edges)
      modifies index`nodes, index`edges, index`out, index`truncated
      ensures Valid() && (old(index.truncated) ==> index.truncated) && Grows(old(index.edges), index.edges)
      ensures OnlyTrueMemberships(dir, kind, allowed, start, index.edges)
      ensures !index.truncated && parent.Some? ==> HoldsMembership(index.edges, kind, Lower(children[i]), Lower(g))
      ensures index.nodes.Keys <= old(index.nodes).Keys + GroupKeys(kind, {Lower(children[i])})
    {
      hide Grouped, Lower, OnlyTrueMemberships, ReadShaped, ListsChild;
      var child := index.GetNode(kind, children[i]);
      ghost var before := index.edges;
      ChildListed(dir, kind, members, allowed, children, i, Lower(g));
      index.AddEdge(child, parent, MEMBER_OF, g);
      if index.edges != before {
        RecordStep(dir, kind, allowed, start, before, read, Edge(child.value, parent.value, MEMBER_OF, g, None));
      }
    }

    /** Records the children just read from a group as its members. */
    method RecordChildren(kind: NodeKind, g: string, members: seq<string>, children: seq<string>, allowed: set<string>)
      requires Valid() && !IsObject(kind) && Key(kind, Lower(g)) in read
      requires dir(Key(kind, Lower(g))) == Some(members) && children == Allowed(members, allowed)
      modifies index`nodes, index`edges, index`out, index`truncated
      ensures Valid() && (old(index.truncated) ==> index.truncated)
      ensures OnlyTrueMemberships(dir, kind, allowed, old(index.edges), index.edges)
      ensures index.truncated || HoldsChildren(dir, kind, allowed, index.edges, Lower(g))
      ensures index.nodes.Keys <= old(index.nodes).Keys + GroupKeys(kind, allowed + {Lower(g)})
    {
      hide Grouped, Lower, OnlyTrueMemberships, ReadShaped, HoldsFirst, HoldsChildren, ListsChild, Grows;
      NothingRecorded(dir, kind, allowed, index.edges, Lower(g));
      var parent := index.GetNode(kind, g);
      var i := 0;
      while i < |children|
        invariant 0 <= i <= |children| && Valid() && (old(index.truncated) ==> index.truncated)
        invariant parent.Some? ==> parent.value.Id() == Key(kind, Lower(g))
        invariant OnlyTrueMemberships(dir, kind, allowed, old(index.edges), index.edges)
        invariant !index.truncated ==> parent.Some? && HoldsFirst(index.edges, kind, children, i, Lower(g))
        invariant index.nodes.Keys <= old(index.nodes).Keys + GroupKeys(kind, allowed + {Lower(g)})
      {
        ghost var before := index.edges;
        ChildListed(dir, kind, members, allowed, children, i, Lower(g));
        RecordChild(kind, g, parent, members, children, allowed, i, old(index.edges));
        if !index.truncated {
          HoldsFirstStep(before, index.edges, kind, children, i, Lower(g));
        }
        i := i + 1;
      }
      if !index.truncated {
        HoldsAll(dir, kind, members, allowed, index.edges, children, Lower(g));
      }
    }

    /** Reads one group and records the memberships it states between the object's own groups. */
    method ReadGroup(kind: NodeKind, g: string, allowed: set<string>) returns (children: seq<string>, ok: bool)
      requires Valid() && chainReads < MAX_GROUP_FETCHES && !IsObject(kind)
      modifies this`checks, this`chainReads, this`read, index`nodes, index`edges, index`out, index`truncated
      ensures Valid() && (old(index.truncated) ==> index.truncated)
      ensures chainReads == old(chainReads) + 1
      ensures checks == old(checks) + [Check(Key(kind, Lower(g)), ok)]
      ensures ok == dir(Key(kind, Lower(g))).Some? && children == ChildrenOf(dir, kind, allowed, Lower(g))
      ensures OnlyTrueMemberships(dir, kind, allowed, old(index.edges), index.edges)
      ensures index.truncated || HoldsChildren(dir, kind, allowed, index.edges, Lower(g))
      ensures index.nodes.Keys <= old(index.nodes).Keys + GroupKeys(kind, allowed + {Lower(g)})
    {
      hide Grouped, Lower, OnlyTrueMemberships, ReadShaped, HoldsChildren;
      NothingRecorded(dir, kind, allowed, index.edges, Lower(g));
      chainReads := chainReads + 1;
      match dir(Key(kind, Lower(g)))
      case None =>
        checks := checks + [Check(Key(kind, Lower(g)), false)];
        return [], false;
      case Some(members) =>
        children := Allowed(members, allowed);
        ReadMore(index.edges, read, Key(kind, Lower(g)));
        read := read + {Key(kind, Lower(g))};
        RecordChildren(kind, g, members, children, allowed);
        checks := checks + [Check(Key(kind, Lower(g)), true)];
        return children, true;
    }

    /** What a search on one side keeps: the log reads no group twice, every read is paid for, and only true memberships
        were added since the side began, when the edges were `start` and the log `base` entries long. */
    ghost predicate Searching(kind: NodeKind, allowed: set<string>, readChildren: map<string, seq<string>>,
                              start: EdgeMap, base: nat, paid: nat)
      reads this`checks, this`chainReads, this`read, this`names, this`before, index
    {
      && Valid() && SearchingAt(kind, allowed, readChildren, start, base, paid, index.truncated)
      && index.nodes.Keys <= before + GroupKeys(kind, names)
    }

    ghost predicate SearchingAt(kind: NodeKind, allowed: set<string>, readChildren: map<string, seq<string>>,
                                start: EdgeMap, base: nat, paid: nat, truncated: bool)
      reads this`checks, this`chainReads, this`names, index`edges
    {
      && Remembered(dir, kind, allowed, index.edges, readChildren, truncated)
      && ReadOnce(dir, checks, base, kind, readChildren.Keys)
      && chainReads == paid + (|checks| - base)
      && OnlyTrueMemberships(dir, kind, allowed, start, index.edges)
      && readChildren.Keys <= names
    }

    /** Asking what is known changes no edge and reads no group. */
    lemma KnownKeeps(kind: NodeKind, allowed: set<string>, readChildren: map<string, seq<string>>,
                     start: EdgeMap, base: nat, paid: nat, truncated: bool, nodes: set<Key>, w: string)
      requires Valid() && SearchingAt(kind, allowed, readChildren, start, base, paid, truncated)
      requires truncated ==> index.truncated
      requires nodes <= before + GroupKeys(kind, names) && Lower(w) in names
      requires index.nodes.Keys <= nodes + GroupKeys(kind, {Lower(w)})
      ensures Searching(kind, allowed, readChildren, start, base, paid)
    {
    }

    lemma PaidBound()
      requires Valid()
      ensures chainReads <= MAX_GROUP_FETCHES
    {
    }

    lemma SearchingFacts(kind: NodeKind, allowed: set<string>, readChildren: map<string, seq<string>>,
                         start: EdgeMap, base: nat, paid: nat)
      requires Searching(kind, allowed, readChildren, start, base, paid)
      ensures Valid() && Remembered(dir, kind, allowed, index.edges, readChildren, index.truncated)
      ensures SearchingAt(kind, allowed, readChildren, start, base, paid, index.truncated)
      ensures index.nodes.Keys <= before + GroupKeys(kind, names)
    {
    }

    /** Makes sure a group's children are remembered, reading them if the budget allows. */
    method Remember(g: string, kind: NodeKind, allowed: set<string>, readBefore: map<string, seq<string>>,
                    ghost start: EdgeMap, ghost base: nat, ghost paid: nat)
      returns (readChildren: map<string, seq<string>>, ok: bool, gaveUp: bool)
      requires !IsObject(kind) && Searching(kind, allowed, readBefore, start, base, paid)
      requires allowed <= names && Lower(g) in names
      modifies this`checks, this`chainReads, this`read, this`limitNotes, index`nodes, index`edges, index`out, index`truncated
      ensures Searching(kind, allowed, readChildren, start, base, paid)
      ensures Progress(old(index.edges), old(index.truncated), old(checks), index.edges, index.truncated, checks, base, ok)
      ensures limitNotes == old(limitNotes) + (if gaveUp then 1 else 0)
      ensures gaveUp ==> chainReads == MAX_GROUP_FETCHES
      ensures !gaveUp ==> readChildren.Keys == readBefore.Keys + {Lower(g)}
      ensures !gaveUp ==> readChildren[Lower(g)] == ChildrenOf(dir, kind, allowed, Lower(g))
      ensures gaveUp ==> ok
    {
      hide Grouped, Lower, Remembered, OnlyTrueMemberships, ReadOnce, AllRead, ReadShaped, HoldsChildren, Valid, ChildrenOf;
      readChildren, ok, gaveUp := readBefore, true, false;
      if Lower(g) in readChildren {
        RememberedAt(dir, kind, allowed, index.edges, readBefore, index.truncated, Lower(g));
        return;
      }
      PaidBound();
      if chainReads >= MAX_GROUP_FETCHES {
        limitNotes := limitNotes + 1;
        gaveUp := true;
        return;
      }
      ghost var edges, truncated, log, nodes := index.edges, index.truncated, checks, index.nodes.Keys;
      var children;
      children, ok := ReadGroup(kind, g, allowed);
      RoomyMore(nodes, index.nodes.Keys, before, kind, allowed + {Lower(g)}, names);
      readChildren := readChildren[Lower(g) := children];
      OnlyTrueTwice(dir, kind, allowed, start, edges, index.edges);
      ReadOnceMore(dir, log, base, kind, readBefore.Keys, Lower(g), ok);
      assert readChildren.Keys == readBefore.Keys + {Lower(g)};
      TrueGrows(dir, kind, allowed, edges, index.edges);
      RememberedMore(dir, kind, allowed, edges, index.edges, readBefore, truncated, index.truncated, Lower(g));
    }

    /** Visits the groups of one level. Stops as soon as a chain to `w` is stored. */
    method SearchLevel(member: Membership, w: string, kind: NodeKind, allowed: set<string>, frontier: seq<string>,
                       visitedBefore: set<string>, readBefore: map<string, seq<string>>,
                       ghost start: EdgeMap, ghost base: nat, ghost paid: nat)
      returns (nxt: seq<string>, visited: set<string>, readChildren: map<string, seq<string>>, complete: bool, gaveUp: bool)
      requires !IsObject(kind) && Searching(kind, allowed, readBefore, start, base, paid)
      requires allowed <= names && Lower(w) in names && forall x :: x in frontier ==> Lower(x) in names
      requires visitedBefore <= readBefore.Keys
      requires index.truncated || Pending(dir, kind, allowed, visitedBefore, frontier, 0, [], Lower(w))
      modifies this`checks, this`chainReads, this`read, this`limitNotes, index`nodes, index`edges, index`out, index`truncated
      ensures Searching(kind, allowed, readChildren, start, base, paid)
      ensures Progress(old(index.edges), old(index.truncated), old(checks), index.edges, index.truncated, checks, base, complete)
      ensures limitNotes == old(limitNotes) + (if gaveUp then 1 else 0)
      ensures gaveUp ==> chainReads == MAX_GROUP_FETCHES
      ensures !gaveUp ==> visitedBefore <= visited <= readChildren.Keys
      ensures !gaveUp ==> visited <= visitedBefore + set x | x in frontier :: Lower(x)
      ensures !gaveUp && visited == visitedBefore ==> nxt == []
      ensures !gaveUp ==> forall x :: x in nxt ==> Lower(x) in allowed
      ensures gaveUp || index.truncated || Linked(index.edges, member.node.Id(), Key(kind, Lower(w)))
              || Pending(dir, kind, allowed, visited, frontier, |frontier|, nxt, Lower(w))
    {
      hide Searching, SearchingAt, Progress, Waiting, Grouped, Lower, Remembered, OnlyTrueMemberships, ReadOnce, AllRead,
           ReadShaped, HoldsChildren, Pending, Linked, Valid, ChildrenOf;
      nxt, visited, readChildren, complete, gaveUp := [], visitedBefore, readBefore, true, false;
      ProgressNone(index.edges, index.truncated, index.truncated, checks, base);
      var i := 0;
      while i < |frontier|
        invariant 0 <= i <= |frontier|
        invariant Searching(kind, allowed, readChildren, start, base, paid)
        invariant Progress(old(index.edges), old(index.truncated), old(checks), index.edges, index.truncated, checks, base, complete)
        invariant limitNotes == old(limitNotes) && !gaveUp
        invariant visitedBefore <= visited <= readChildren.Keys
        invariant visited <= visitedBefore + set x | x in frontier :: Lower(x)
        invariant visited == visitedBefore ==> nxt == []
        invariant forall x :: x in nxt ==> Lower(x) in allowed
        invariant index.truncated || Pending(dir, kind, allowed, visited, frontier, i, nxt, Lower(w))
      {
        var g := frontier[i];
        i := i + 1;
        if Lower(g) in visited {
          if !index.truncated {
            PendingSkip(dir, kind, allowed, visited, frontier, i - 1, nxt, Lower(w));
          }
          continue;
        }
        ghost var unseen := visited;
        visited := visited + {Lower(g)};
        var ok;
        ghost var edges, truncated, log := index.edges, index.truncated, checks;
        readChildren, ok, gaveUp := Remember(g, kind, allowed, readChildren, start, base, paid);
        ProgressTwice(old(index.edges), old(index.truncated), old(checks), edges, truncated, log,
                      index.edges, index.truncated, checks, base, complete, ok);
        if gaveUp {
          return;
        }
        complete := complete && ok;
        var more := NotVisited(readChildren[Lower(g)], visited);
        if !index.truncated {
          PendingVisit(dir, kind, allowed, unseen, frontier, i - 1, nxt, more, Lower(w));
        }
        ChildrenAllowed(dir, kind, allowed, Lower(g), more, visited);
        nxt := nxt + more;
        if !ok {
          continue;
        }
        SearchingFacts(kind, allowed, readChildren, start, base, paid);
        ghost var asked, nodes := index.truncated, index.nodes.Keys;
        var known := Known(member.node, kind, w);
        KnownKeeps(kind, allowed, readChildren, start, base, paid, asked, nodes, w);
        ProgressNone(index.edges, asked, index.truncated, checks, base);
        ProgressTwice(old(index.edges), old(index.truncated), old(checks), index.edges, asked, checks,
                      index.edges, index.truncated, checks, base, complete, true);
        if known {
          break;
        }
      }
    }

    /** One turn of the walk: stop if a chain to `w` is stored, otherwise visit this level and list the next one. */
    method SearchTurn(member: Membership, w: string, kind: NodeKind, allowed: set<string>, frontierBefore: seq<string>,
                      visitedBefore: set<string>, readBefore: map<string, seq<string>>,
                      ghost start: EdgeMap, ghost base: nat, ghost paid: nat)
      returns (known: bool, frontier: seq<string>, visited: set<string>, readChildren: map<string, seq<string>>,
               complete: bool, gaveUp: bool)
      requires !IsObject(kind) && Searching(kind, allowed, readBefore, start, base, paid) && frontierBefore != []
      requires Walking(dir, kind, allowed, frontierBefore, visitedBefore, readBefore, index.edges, index.truncated,
                       member.node.Id(), w)
      requires allowed <= names && Lower(w) in names
      modifies this`checks, this`chainReads, this`read, this`limitNotes, index`nodes, index`edges, index`out, index`truncated
      ensures Searching(kind, allowed, readChildren, start, base, paid)
      ensures Progress(old(index.edges), old(index.truncated), old(checks), index.edges, index.truncated, checks, base, complete)
      ensures limitNotes == old(limitNotes) + (if gaveUp then 1 else 0)
      ensures gaveUp ==> chainReads == MAX_GROUP_FETCHES
      ensures known ==> !gaveUp && Linked(index.edges, member.node.Id(), Key(kind, Lower(w)))
      ensures !gaveUp && !known ==>
                && Walking(dir, kind, allowed, frontier, visited, readChildren, index.edges, index.truncated, member.node.Id(), w)
                && Nearer(Universe(allowed, w), visitedBefore, visited, frontierBefore, frontier)
    {
      hide Searching, SearchingAt, Progress, Waiting, Grouped, Lower, Remembered, OnlyTrueMemberships, ReadOnce, AllRead,
           ReadShaped, HoldsChildren, Pending, Linked, Valid, ChildrenOf, Walking, Universe, Nearer;
      frontier, visited, readChildren, complete, gaveUp := frontierBefore, visitedBefore, readBefore, true, false;
      SearchingFacts(kind, allowed, readChildren, start, base, paid);
      ghost var asked, nodes := index.truncated, index.nodes.Keys;
      known := Known(member.node, kind, w);
      KnownKeeps(kind, allowed, readChildren, start, base, paid, asked, nodes, w);
      ProgressNone(index.edges, asked, index.truncated, checks, base);
      if known {
        return;
      }
      WalkOpen(dir, kind, allowed, frontierBefore, visitedBefore, readBefore, index.edges, asked, index.truncated,
               member.node.Id(), w);
      ghost var edges, truncated, log := index.edges, index.truncated, checks;
      WalkNames(dir, kind, allowed, frontierBefore, visitedBefore, readBefore, edges, asked, member.node.Id(), w, names);
      var nxt;
      nxt, visited, readChildren, complete, gaveUp :=
        SearchLevel(member, w, kind, allowed, frontierBefore, visitedBefore, readBefore, start, base, paid);
      ProgressTwice(old(index.edges), old(index.truncated), old(checks), edges, truncated, log,
                    index.edges, index.truncated, checks, base, true, complete);
      if gaveUp {
        return;
      }
      frontier := Listed(set x | x in nxt);
      WalkOn(dir, kind, allowed, frontierBefore, visitedBefore, readBefore, edges, asked, nxt, frontier, visited,
             readChildren, index.edges, index.truncated, member.node.Id(), w);
    }

    /** Walks down from one wanted group, level by level, until a chain to it is stored or nothing is left to read. */
    method SearchBelow(member: Membership, w: string, kind: NodeKind, allowed: set<string>,
                       readBefore: map<string, seq<string>>, ghost start: EdgeMap, ghost base: nat, ghost paid: nat)
      returns (readChildren: map<string, seq<string>>, complete: bool, gaveUp: bool)
      requires !IsObject(kind) && Searching(kind, allowed, readBefore, start, base, paid)
      requires allowed <= names && Lower(w) in names
      modifies this`checks, this`chainReads, this`read, this`limitNotes, index`nodes, index`edges, index`out, index`truncated
      ensures Searching(kind, allowed, readChildren, start, base, paid)
      ensures Progress(old(index.edges), old(index.truncated), old(checks), index.edges, index.truncated, checks, base, complete)
      ensures limitNotes == old(limitNotes) + (if gaveUp then 1 else 0)
      ensures gaveUp ==> chainReads == MAX_GROUP_FETCHES
      ensures gaveUp || index.truncated || Settled(dir, kind, allowed, index.edges, member.node.Id(), Lower(w))
    {
      hide Searching, SearchingAt, Progress, Walking, Grouped, Lower, Linked, Valid, Settled;
      readChildren, complete, gaveUp := readBefore, true, false;
      var frontier, visited: set<string> := [w], {};
      WalkStart(dir, kind, allowed, readChildren, index.edges, index.truncated, member.node.Id(), w);
      ProgressNone(index.edges, index.truncated, index.truncated, checks, base);
      while frontier != []
        invariant Searching(kind, allowed, readChildren, start, base, paid)
        invariant Progress(old(index.edges), old(index.truncated), old(checks), index.edges, index.truncated, checks, base, complete)
        invariant limitNotes == old(limitNotes) && !gaveUp
        invariant Walking(dir, kind, allowed, frontier, visited, readChildren, index.edges, index.truncated, member.node.Id(), w)
        decreases Universe(allowed, w) - visited, |frontier|
      {
        var known, ok;
        ghost var edges, truncated, log := index.edges, index.truncated, checks;
        known, frontier, visited, readChildren, ok, gaveUp :=
          SearchTurn(member, w, kind, allowed, frontier, visited, readChildren, start, base, paid);
        ProgressTwice(old(index.edges), old(index.truncated), old(checks), edges, truncated, log,
                      index.edges, index.truncated, checks, base, complete, ok);
        complete := complete && ok;
        if gaveUp {
          return;
        }
        if known {
          LinkedSettles(dir, kind, allowed, index.edges, member.node.Id(), Lower(w));
          return;
        }
      }
      SearchingFacts(kind, allowed, readChildren, start, base, paid);
      if !index.truncated {
        WalkDone(dir, kind, allowed, visited, readChildren, index.edges, member.node.Id(), w);
      }
    }

    /** Searches below each wanted group in turn, until the budget is used up. */
    method SearchAll(m: Membership, wanted: set<string>, kind: NodeKind, ghost base: nat, ghost paid: nat)
      returns (readChildren: map<string, seq<string>>, complete: bool, gaveUp: bool)
      requires !IsObject(kind) && Valid() && base == |checks| && paid == chainReads
      requires NamesOf(m, wanted) == names && before == index.nodes.Keys
      modifies this`checks, this`chainReads, this`read, this`limitNotes, index`nodes, index`edges, index`out, index`truncated
      ensures Searching(kind, m.AllGroups(), readChildren, old(index.edges), base, paid)
      ensures Progress(old(index.edges), old(index.truncated), old(checks), index.edges, index.truncated, checks, base, complete)
      ensures limitNotes == old(limitNotes) + (if gaveUp then 1 else 0)
      ensures gaveUp ==> chainReads == MAX_GROUP_FETCHES
      ensures gaveUp || index.truncated || AllSettled(dir, kind, m.AllGroups(), index.edges, m.node.Id(), wanted)
    {
      hide Searching, SearchingAt, Progress, Grouped, Lower, Linked, Valid, Settled, AllSettled;
      ghost var start := index.edges;
      readChildren, complete, gaveUp := map[], true, false;
      SearchStart(kind, m.AllGroups(), base, paid);
      ProgressNone(index.edges, index.truncated, index.truncated, checks, base);
      NoneSettled(dir, kind, m.AllGroups(), index.edges, m.node.Id());
      var rest := wanted;
      assert wanted - rest == {};
      while rest != {}
        invariant rest <= wanted && limitNotes == old(limitNotes) && !gaveUp
        invariant Searching(kind, m.AllGroups(), readChildren, start, base, paid)
        invariant Progress(old(index.edges), old(index.truncated), old(checks), index.edges, index.truncated, checks, base, complete)
        invariant index.truncated || AllSettled(dir, kind, m.AllGroups(), index.edges, m.node.Id(), wanted - rest)
        decreases rest
      {
        var w :| w in rest;
        assert Lower(w) in Lowered(wanted);
        ghost var edges, truncated, log := index.edges, index.truncated, checks;
        var ok;
        readChildren, ok, gaveUp := SearchBelow(m, w, kind, m.AllGroups(), readChildren, start, base, paid);
        ProgressTwice(old(index.edges), old(index.truncated), old(checks), edges, truncated, log,
                      index.edges, index.truncated, checks, base, complete, ok);
        complete := complete && ok;
        if gaveUp {
          return;
        }
        if !index.truncated {
          SettledMore(dir, kind, m.AllGroups(), edges, index.edges, m.node.Id(), wanted - rest, w);
        }
        assert wanted - (rest - {w}) == (wanted - rest) + {w};
        rest := rest - {w};
      }
      assert wanted - rest == wanted;
    }

    lemma IndexKeyed()
      requires Valid()
      ensures forall k :: k in index.edges ==> index.edges[k].Id() == k
    {
    }

    lemma SearchStart(kind: NodeKind, allowed: set<string>, base: nat, paid: nat)
      requires Valid() && base == |checks| && paid == chainReads && index.nodes.Keys <= before
      ensures Searching(kind, allowed, map[], index.edges, base, paid)
    {
    }

    /** Whether a chain to every wanted group is stored. */
    method AllKnown(m: Membership, wanted: set<string>, kind: NodeKind) returns (all: bool)
      requires Valid()
      modifies index`nodes, index`truncated
      ensures Valid() && (old(index.truncated) ==> index.truncated)
      ensures all ==> AllLinked(index.edges, m.node.Id(), kind, wanted)
      ensures AllLinked(index.edges, m.node.Id(), kind, wanted) && !index.truncated ==> all
      ensures index.nodes.Keys <= old(index.nodes).Keys + GroupKeys(kind, Lowered(wanted))
    {
      hide Valid, Linked, Lower, Grouped;
      all := true;
      var rest := wanted;
      while all && rest != {}
        invariant rest <= wanted && Valid() && (old(index.truncated) ==> index.truncated)
        invariant all ==> AllLinked(index.edges, m.node.Id(), kind, wanted - rest)
        invariant !all ==> index.truncated || !AllLinked(index.edges, m.node.Id(), kind, wanted)
        invariant index.nodes.Keys <= old(index.nodes).Keys + GroupKeys(kind, Lowered(wanted))
        decreases rest
      {
        var w :| w in rest;
        assert Lower(w) in Lowered(wanted);
        all := Known(m.node, kind, w);
        rest := rest - {w};
      }
    }

    /** There is room in the index for all groups of the object and all wanted ones, and for every membership that the
        budget can find; and the budget suffices to read each of them. */
    ghost predicate HasRoom(m: Membership, wanted: set<string>, kind: NodeKind)
      reads this`chainReads, index
    {
      && !index.truncated
      && |index.nodes.Keys + GroupKeys(kind, NamesOf(m, wanted))| < index.maxNodes
      && |index.edges| + |m.AllGroups()| * MAX_GROUP_FETCHES < index.maxEdges
      && chainReads + |NamesOf(m, wanted)| < MAX_GROUP_FETCHES
    }

    /** Expands the chains from one object to every wanted group. Each group is read at most once and paid for from the
        shared budget; only true memberships between the object's own groups are added; and unless the budget or the
        index was exhausted, every nesting of readable groups below a wanted group is found. With enough room neither is. */
    method ExpandChain(member: Option<Membership>, wanted: set<string>, kind: NodeKind) returns (found: bool)
      requires Valid() && !IsObject(kind)
      modifies this`checks, this`chainReads, this`read, this`limitNotes, this`names, this`before
      modifies index`nodes, index`edges, index`out, index`truncated
      ensures Valid() && (old(index.truncated) ==> index.truncated)
      // every read is logged and paid for, and no group is read twice
      ensures old(checks) <= checks && chainReads == old(chainReads) + (|checks| - |old(checks)|) <= MAX_GROUP_FETCHES
      ensures ReadOnce(dir, checks, |old(checks)|, kind, if member.Some? then NamesOf(member.value, wanted) else {})
      ensures old(limitNotes) <= limitNotes <= old(limitNotes) + 1
      ensures limitNotes > old(limitNotes) ==> chainReads == MAX_GROUP_FETCHES
      // nothing but true memberships is added, and no other node
      ensures Grows(old(index.edges), index.edges)
      ensures member.None? ==> index.edges == old(index.edges) && index.nodes == old(index.nodes)
      ensures member.Some? ==>
                && OnlyTrueMemberships(dir, kind, member.value.AllGroups(), old(index.edges), index.edges)
                && |index.edges| <= |old(index.edges)| + |member.value.AllGroups()| * MAX_GROUP_FETCHES
                && index.nodes.Keys <= old(index.nodes).Keys + GroupKeys(kind, NamesOf(member.value, wanted))
      // a positive answer: every chain is stored, and every read succeeded
      ensures found && member.Some? ==>
                AllLinked(index.edges, member.value.node.Id(), kind, wanted) && AllRead(checks, |old(checks)|)
      // a negative answer has one of four causes
      ensures !found ==>
                || index.truncated || limitNotes > old(limitNotes) || !AllRead(checks, |old(checks)|)
                || (member.Some? && !AllLinked(index.edges, member.value.node.Id(), kind, wanted))
      // completeness
      ensures member.Some? && !index.truncated && limitNotes == old(limitNotes)
                && AllLinked(old(index.edges), member.value.node.Id(), kind, member.value.direct) ==>
                FindsEveryNesting(dir, kind, member.value, wanted, index.edges)
      // neither bound is hit when there is room
      ensures member.Some? && old(HasRoom(member.value, wanted, kind)) ==> !index.truncated && limitNotes == old(limitNotes)
    {
      hide Searching, Grouped, Lower, Linked, Valid, AllLinked, AllRead, FindsEveryNesting, OnlyTrueMemberships, ReadOnce, GroupKeys,
           NamesOf, Grows;
      if member.None? || wanted == {} {
        NothingExpanded(member, wanted, kind);
        PaidBound();
        return true;
      }
      var complete, gaveUp := SearchSide(member.value, wanted, kind);
      if gaveUp || !complete {
        return false;
      }
      ghost var nodes := index.nodes.Keys;
      found := AllKnown(member.value, wanted, kind);
      WantedNames(member.value, wanted);
      RoomyMore(nodes, index.nodes.Keys, old(index.nodes).Keys, kind, Lowered(wanted), NamesOf(member.value, wanted));
      if old(HasRoom(member.value, wanted, kind)) {
        RoomLeft(member.value, wanted, kind, old(index.nodes).Keys, |old(index.edges)|);
      }
    }

    /** An index that did not take more than there was room for is not truncated. */
    lemma RoomLeft(m: Membership, wanted: set<string>, kind: NodeKind, nodes: set<Key>, edges: nat)
      requires Valid() && index.nodes.Keys <= nodes + GroupKeys(kind, NamesOf(m, wanted))
      requires |index.edges| <= edges + |m.AllGroups()| * MAX_GROUP_FETCHES < index.maxEdges
      requires |nodes + GroupKeys(kind, NamesOf(m, wanted))| < index.maxNodes
      ensures !index.truncated
    {
      hide Grouped, NamesOf, GroupKeys, ReadShaped;
      SubsetSize(index.nodes.Keys, nodes + GroupKeys(kind, NamesOf(m, wanted)));
    }

    lemma NothingExpanded(member: Option<Membership>, wanted: set<string>, kind: NodeKind)
      requires member.None? || wanted == {}
      ensures Grows(index.edges, index.edges) && AllRead(checks, |checks|)
      ensures forall names :: ReadOnce(dir, checks, |checks|, kind, names)
      ensures member.Some? ==>
                && OnlyTrueMemberships(dir, kind, member.value.AllGroups(), index.edges, index.edges)
                && AllLinked(index.edges, member.value.node.Id(), kind, wanted)
                && FindsEveryNesting(dir, kind, member.value, wanted, index.edges)
      ensures member.Some? && HasRoom(member.value, wanted, kind) ==> !index.truncated
    {
    }

    /** Searches below all wanted groups of one side. */
    method SearchSide(m: Membership, wanted: set<string>, kind: NodeKind) returns (complete: bool, gaveUp: bool)
      requires Valid() && !IsObject(kind)
      modifies this`checks, this`chainReads, this`read, this`limitNotes, this`names, this`before
      modifies index`nodes, index`edges, index`out, index`truncated
      ensures Valid() && (old(index.truncated) ==> index.truncated)
      ensures old(checks) <= checks && chainReads == old(chainReads) + (|checks| - |old(checks)|) <= MAX_GROUP_FETCHES
      ensures ReadOnce(dir, checks, |old(checks)|, kind, NamesOf(m, wanted))
      ensures limitNotes == old(limitNotes) + (if gaveUp then 1 else 0)
      ensures gaveUp ==> chainReads == MAX_GROUP_FETCHES
      ensures complete == AllRead(checks, |old(checks)|)
      ensures Grows(old(index.edges), index.edges)
      ensures OnlyTrueMemberships(dir, kind, m.AllGroups(), old(index.edges), index.edges)
      ensures |index.edges| <= |old(index.edges)| + |m.AllGroups()| * MAX_GROUP_FETCHES
      ensures index.nodes.Keys <= old(index.nodes).Keys + GroupKeys(kind, NamesOf(m, wanted))
      ensures !gaveUp && !index.truncated && AllLinked(old(index.edges), m.node.Id(), kind, m.direct) ==>
                FindsEveryNesting(dir, kind, m, wanted, index.edges)
      ensures old(HasRoom(m, wanted, kind)) ==> !index.truncated && !gaveUp
    {
      hide Searching, SearchingAt, Progress, Grouped, Lower, Linked, Valid, Settled, AllSettled, AllLinked, AllRead,
           FindsEveryNesting, OnlyTrueMemberships, ReadOnce, GroupKeys, NamesOf;
      names, before := NamesOf(m, wanted), index.nodes.Keys;
      ghost var base, paid := |checks|, chainReads;
      var readChildren;
      readChildren, complete, gaveUp := SearchAll(m, wanted, kind, base, paid);
      SearchFacts(kind, m.AllGroups(), readChildren, old(index.edges), base, paid);
      ProgressFacts(old(index.edges), old(index.truncated), old(checks), index.edges, index.truncated, checks, complete);
      RoomKept(m, wanted, kind, old(index.edges), base, paid);
      if !gaveUp && !index.truncated && AllLinked(old(index.edges), m.node.Id(), kind, m.direct) {
        SettledFinds(dir, kind, m, wanted, old(index.edges), index.edges);
      }
    }

    lemma WantedNames(m: Membership, wanted: set<string>)
      ensures Lowered(wanted) <= NamesOf(m, wanted)
    {
    }

    /** What a search leaves takes no more room than it may. */
    lemma RoomKept(m: Membership, wanted: set<string>, kind: NodeKind, start: EdgeMap, base: nat, paid: nat)
      requires Valid() && !IsObject(kind) && names == NamesOf(m, wanted)
      requires OnlyTrueMemberships(dir, kind, m.AllGroups(), start, index.edges)
      requires ReadOnce(dir, checks, base, kind, names) && chainReads == paid + (|checks| - base)
      requires index.nodes.Keys <= before + GroupKeys(kind, names)
      ensures |index.edges| <= |start| + |m.AllGroups()| * MAX_GROUP_FETCHES
      ensures |before + GroupKeys(kind, names)| < index.maxNodes
                && |start| + |m.AllGroups()| * MAX_GROUP_FETCHES < index.maxEdges ==>
                !index.truncated
      ensures paid + |names| < MAX_GROUP_FETCHES ==> chainReads < MAX_GROUP_FETCHES
    {
      hide Grouped, OnlyTrueMemberships, ReadShaped, ReadOnce, NamesOf;
      EdgesAreFew(dir, kind, m.AllGroups(), start, index.edges, read);
      Products(|m.AllGroups()|, |read|, MAX_GROUP_FETCHES);
      ReadsAreFew(dir, checks, base, kind, names);
      SubsetSize(index.nodes.Keys, before + GroupKeys(kind, names));
    }

    lemma SearchFacts(kind: NodeKind, allowed: set<string>, readChildren: map<string, seq<string>>,
                      start: EdgeMap, base: nat, paid: nat)
      requires Searching(kind, allowed, readChildren, start, base, paid)
      ensures Valid() && base <= |checks| && chainReads == paid + (|checks| - base) <= MAX_GROUP_FETCHES
      ensures forall i :: base <= i < |checks| ==> checks[i].group.kind == kind
      ensures forall i, j :: base <= i < j < |checks| ==> checks[i].group != checks[j].group
      ensures OnlyTrueMemberships(dir, kind, allowed, start, index.edges)
      ensures forall k :: k in index.edges ==> index.edges[k].Id() == k
      ensures index.nodes.Keys <= before + GroupKeys(kind, names) && ReadOnce(dir, checks, base, kind, names)
    {
      ReadOnceAmong(dir, checks, base, kind, readChildren.Keys, names);
    }

    /** Records the user or the host asked about, as its own entry describes it. */
    method RecordObject(kind: NodeKind, entry: ObjectEntry, groupKind: NodeKind) returns (m: Option<Membership>)
      requires Valid() && IsObject(kind) && !IsObject(groupKind)
      modifies index`nodes, index`edges, index`out, index`truncated
      ensures Valid() && Grows(old(index.edges), index.edges) && (old(index.truncated) ==> index.truncated)
      ensures m.None? ==> index.truncated
      ensures m.Some? ==> IsEntry(m.value, kind, entry)
      ensures m.Some? && !index.truncated ==> AllLinked(index.edges, m.value.node.Id(), groupKind, m.value.direct)
      // the room it takes
      ensures old(index.nodes).Keys <= index.nodes.Keys <= old(index.nodes).Keys + EntryKeys(kind, groupKind, entry)
      ensures !index.truncated ==> EntryKeys(kind, groupKind, entry) <= index.nodes.Keys
      ensures |index.edges| <= |old(index.edges)| + EntryEdges(entry)
      // nothing but what the entry states
      ensures AddedMemberships(old(index.edges), index.edges, Some(Node(kind, entry.name)), groupKind, entry.direct, entry.indirect)
    {
      hide Grouped, Lower, ReadShaped, AddedMemberships, HoldsNamed, AllLinked, NameKeys;
      var node := index.GetNode(kind, entry.name);
      ghost var before := index.edges;
      index.AddMemberships(node, groupKind, entry.direct, entry.indirect, entry.name);
      ObjectShaped(before, index.edges, read, node, groupKind, entry.direct, entry.indirect);
      AddedById(before, index.edges, node, Node(kind, entry.name), groupKind, entry.direct, entry.indirect);
      if node.None? {
        return None;
      }
      if !index.truncated {
        IndexKeyed();
        ObjectLinked(index.edges, node.value, groupKind, entry.direct);
      }
      return Some(Membership(node.value, ToSet(entry.direct), ToSet(entry.indirect)));
    }

    /** Records one target of a rule if it concerns the question. */
    method RecordTarget(rule: RuleEntry, node: Option<Node>, i: nat, relevant: Side -> set<string>, ghost start: EdgeMap)
      requires Valid() && i < |rule.targets|
      requires node.Some? ==> node.value.Id() == Node(HBAC_RULE, rule.name).Id()
      requires Grows(start, index.edges) && OnlyRelevant(start, index.edges, rule, relevant)
      modifies index`nodes, index`edges, index`out, index`truncated
      ensures Valid() && (old(index.truncated) ==> index.truncated)
      ensures Grows(start, index.edges) && Grows(old(index.edges), index.edges)
      ensures OnlyRelevant(start, index.edges, rule, relevant)
      ensures !index.truncated && node.Some? ==> HoldsTarget(index.edges, rule, rule.targets[i], relevant)
      ensures old(index.nodes).Keys <= index.nodes.Keys <= old(index.nodes).Keys + {Node(rule.targets[i].kind, rule.targets[i].name).Id()}
      ensures |index.edges| <= |old(index.edges)| + 1
    {
      hide Grouped, Lower, ReadShaped, OnlyRelevant;
      var t := rule.targets[i];
      GrowsNot(index.edges);
      if Lower(t.name) in relevant(t.side) {
        var target := index.GetNode(t.kind, t.name);
        ghost var before := index.edges;
        index.AddEdge(node, target, RULE_APPLIES_TO, rule.name, Some(t.side));
        if index.edges != before {
          var e := Edge(node.value, target.value, RULE_APPLIES_TO, rule.name, Some(t.side));
          RuleEdge(start, before, read, rule, relevant, t, e);
        }
      }
    }

    /** Records a rule: its node, and an edge to everything it lists that concerns the question. */
    method RecordRule(rule: RuleEntry, relevant: Side -> set<string>)
      requires Valid()
      modifies index`nodes, index`edges, index`out, index`truncated
      ensures Valid() && Grows(old(index.edges), index.edges) && (old(index.truncated) ==> index.truncated)
      ensures OnlyRelevant(old(index.edges), index.edges, rule, relevant)
      ensures !index.truncated ==> HoldsTargets(index.edges, rule, |rule.targets|, relevant)
      ensures old(index.nodes).Keys <= index.nodes.Keys <= old(index.nodes).Keys + RuleKeys(rule)
      ensures |index.edges| <= |old(index.edges)| + |rule.targets|
    {
      hide Grouped, Lower, ReadShaped, OnlyRelevant, HoldsTarget, Valid;
      var node := RuleNode(rule);
      NoRuleEdges(index.edges, rule, relevant);
      GrowsNot(index.edges);
      var i := 0;
      while i < |rule.targets|
        invariant 0 <= i <= |rule.targets| && Valid()
        invariant Grows(old(index.edges), index.edges) && (old(index.truncated) ==> index.truncated)
        invariant OnlyRelevant(old(index.edges), index.edges, rule, relevant)
        invariant !index.truncated ==> node.Some? && HoldsTargets(index.edges, rule, i, relevant)
        invariant old(index.nodes).Keys <= index.nodes.Keys <= old(index.nodes).Keys + RuleKeys(rule)
        invariant |index.edges| <= |old(index.edges)| + i
      {
        ghost var before := index.edges;
        RecordTarget(rule, node, i, relevant, old(index.edges));
        if !index.truncated { MoreTargets(before, index.edges, rule, i, relevant); }
        i := i + 1;
      }
    }

    method RuleNode(rule: RuleEntry) returns (node: Option<Node>)
      requires Valid()
      modifies index`nodes, index`truncated
      ensures Valid() && (old(index.truncated) ==> index.truncated)
      ensures node.Some? ==> node.value.Id() == Node(HBAC_RULE, rule.name).Id()
      ensures !index.truncated ==> node.Some?
      ensures old(index.nodes).Keys <= index.nodes.Keys <= old(index.nodes).Keys + RuleKeys(rule)
    {
      hide Grouped, Lower, ReadShaped;
      node := index.GetNode(HBAC_RULE, rule.name);
    }

    /** Records the rules one after another. */
    method RecordRules(rules: seq<RuleEntry>, relevant: Side -> set<string>)
      requires Valid()
      modifies index`nodes, index`edges, index`out, index`truncated
      ensures Valid() && Grows(old(index.edges), index.edges) && (old(index.truncated) ==> index.truncated)
      ensures !index.truncated ==>
                forall i :: 0 <= i < |rules| ==> HoldsTargets(index.edges, rules[i], |rules[i].targets|, relevant)
      ensures OnlyRelevantOf(old(index.edges), index.edges, rules, relevant)
      ensures old(index.nodes).Keys <= index.nodes.Keys <= old(index.nodes).Keys + RulesKeys(rules)
      ensures |index.edges| <= |old(index.edges)| + RulesEdges(rules)
    {
      hide Grouped, Lower, ReadShaped, OnlyRelevant, HoldsTargets, Valid, RuleKeys, Grows, RelevantEdge;
      GrowsNot(index.edges);
      var i := 0;
      while i < |rules|
        invariant 0 <= i <= |rules| && Valid()
        invariant Grows(old(index.edges), index.edges) && (old(index.truncated) ==> index.truncated)
        invariant !index.truncated ==>
          forall j :: 0 <= j < i ==> HoldsTargets(index.edges, rules[j], |rules[j].targets|, relevant)
        invariant OnlyRelevantOf(old(index.edges), index.edges, rules, relevant)
        invariant old(index.nodes).Keys <= index.nodes.Keys <= old(index.nodes).Keys + RulesKeys(rules[..i])
        invariant |index.edges| <= |old(index.edges)| + RulesEdges(rules[..i])
      {
        ghost var before := index.edges;
        RecordRule(rules[i], relevant);
        GrowsTwice(old(index.edges), before, index.edges);
        OnlyRelevantMore(old(index.edges), before, index.edges, rules, i, relevant);
        forall j | 0 <= j < i && HoldsTargets(before, rules[j], |rules[j].targets|, relevant)
          ensures HoldsTargets(index.edges, rules[j], |rules[j].targets|, relevant)
        {
          TargetsStay(before, index.edges, rules[j], |rules[j].targets|, relevant);
        }
        assert rules[..i + 1][..i] == rules[..i];
        i := i + 1;
      }
      assert rules[..i] == rules;
    }

    /** Records everything the question is about: user, host and service with their groups, and the rules. */
    method RecordQuestion(q: Question) returns (u: Option<Membership>, h: Option<Membership>)
      requires Valid()
      modifies index`nodes, index`edges, index`out, index`truncated
      ensures Valid() && (old(index.truncated) ==> index.truncated)
      ensures u.Some? ==> IsEntry(u.value, USER, q.user)
      ensures h.Some? ==> IsEntry(h.value, HOST, q.host)
      ensures !index.truncated ==>
                && u.Some? && AllLinked(index.edges, u.value.node.Id(), GROUP, u.value.direct)
                && h.Some? && AllLinked(index.edges, h.value.node.Id(), HOSTGROUP, h.value.direct)
                && forall i :: 0 <= i < |q.rules| ==> HoldsTargets(index.edges, q.rules[i], |q.rules[i].targets|, q.relevant)
      // the room it takes
      ensures old(index.nodes).Keys <= index.nodes.Keys <= old(index.nodes).Keys + QuestionKeys(q)
      ensures |index.edges| <= |old(index.edges)| + QuestionEdges(q)
      // nothing but what FreeIPA states
      ensures Stated(dir, q, old(index.edges)) ==> Stated(dir, q, index.edges)
    {
      hide Grouped, Lower, Linked, Valid, AllLinked, HoldsTargets, Grows, EntryKeys, EntryEdges, RulesKeys, RulesEdges,
           AddedMemberships, Stated, OnlyRelevantOf;
      ghost var start, stated := index.edges, Stated(dir, q, index.edges);
      u := RecordObject(USER, q.user, GROUP);
      ghost var withUser := index.edges;
      h := RecordObject(HOST, q.host, HOSTGROUP);
      ghost var withHost := index.edges;
      if u.Some? && !index.truncated { AllLinkedGrows(withUser, withHost, u.value.node.Id(), GROUP, u.value.direct); }
      GrowsNot(withHost);
      if q.service.Some? {
        var _ := RecordObject(HBAC_SERVICE, q.service.value, HBAC_SERVICE_GROUP);
      }
      ghost var withService := index.edges;
      if stated {
        StatedByEntry(dir, q, start, withUser, USER, GROUP, q.user);
        StatedByEntry(dir, q, withUser, withHost, HOST, HOSTGROUP, q.host);
        if q.service.Some? { StatedByEntry(dir, q, withHost, withService, HBAC_SERVICE, HBAC_SERVICE_GROUP, q.service.value); }
      }
      RecordRules(q.rules, q.relevant);
      if stated { StatedByRules(dir, q, withService, index.edges); }
      GrowsTwice(withHost, withService, index.edges);
      if !index.truncated {
        AllLinkedGrows(withHost, index.edges, u.value.node.Id(), GROUP, u.value.direct);
        AllLinkedGrows(withHost, index.edges, h.value.node.Id(), HOSTGROUP, h.value.direct);
      }
    }

    /** The index has room for the question and for every membership that the budget can find on its two sides, and the
        budget suffices for all their groups. */
    ghost predicate HasRoomFor(q: Question, wantedOfUser: set<string>, wantedOfHost: set<string>)
      reads this`chainReads, index
    {
      && !index.truncated
      && |index.nodes.Keys + AllKeys(q, wantedOfUser, wantedOfHost)| < index.maxNodes
      && |index.edges| + QuestionEdges(q) + |EntryGroups(q.user)| * MAX_GROUP_FETCHES
         + |EntryGroups(q.host)| * MAX_GROUP_FETCHES < index.maxEdges
      && chainReads + |EntryNames(q.user, wantedOfUser)| + |EntryNames(q.host, wantedOfHost)| < MAX_GROUP_FETCHES
    }

    /** The whole reading of one question, both sides sharing one budget: the question is recorded, then the chains of user
        and host are expanded. At most MAX_GROUP_FETCHES groups are read, none twice; and if no bound was hit, every nesting
        below a wanted group is found on both sides. With enough room no bound is hit. */
    method ExpandBothSides(q: Question, wantedOfUser: set<string>, wantedOfHost: set<string>)
      returns (u: Option<Membership>, h: Option<Membership>)
      requires Valid() && checks == [] && chainReads == 0 && limitNotes == 0
      modifies this`checks, this`chainReads, this`read, this`limitNotes, this`names, this`before
      modifies index`nodes, index`edges, index`out, index`truncated
      ensures Valid() && chainReads == |checks| <= MAX_GROUP_FETCHES
      ensures ReadsOfBoth(dir, checks, EntryNames(q.user, wantedOfUser), EntryNames(q.host, wantedOfHost))
      ensures limitNotes > 0 ==> chainReads == MAX_GROUP_FETCHES
      ensures u.Some? ==> IsEntry(u.value, USER, q.user)
      ensures h.Some? ==> IsEntry(h.value, HOST, q.host)
      ensures !index.truncated && limitNotes == 0 ==>
                && u.Some? && FindsEveryNesting(dir, GROUP, u.value, wantedOfUser, index.edges)
                && h.Some? && FindsEveryNesting(dir, HOSTGROUP, h.value, wantedOfHost, index.edges)
      // nothing but what FreeIPA states
      ensures Stated(dir, q, old(index.edges)) ==> Stated(dir, q, index.edges)
      // the room it takes
      ensures index.nodes.Keys <= old(index.nodes).Keys + AllKeys(q, wantedOfUser, wantedOfHost)
      ensures |index.edges| <= |old(index.edges)| + QuestionEdges(q) + |EntryGroups(q.user)| * MAX_GROUP_FETCHES
                               + |EntryGroups(q.host)| * MAX_GROUP_FETCHES
      ensures old(HasRoomFor(q, wantedOfUser, wantedOfHost)) ==> !index.truncated && limitNotes == 0
    {
      hide Grouped, Lower, Linked, Valid, AllLinked, AllRead, FindsEveryNesting, OnlyTrueMemberships, Grows, ReadOnce, HoldsTargets,
           HasRoom, NamesOf, GroupKeys, QuestionKeys, QuestionEdges, EntryGroups, EntryNames, IsEntry, HasRoomFor, Stated,
           ReadsOfBoth, AllKeys;
      AllKeysAre(q, wantedOfUser, wantedOfHost);
      ghost var keys := index.nodes.Keys + AllKeys(q, wantedOfUser, wantedOfHost);
      ghost var room, stated := HasRoomFor(q, wantedOfUser, wantedOfHost), Stated(dir, q, index.edges);
      if room { RoomFacts(q, wantedOfUser, wantedOfHost); }
      u, h := RecordQuestion(q);
      ghost var recorded := index.edges;
      if u.Some? { EntryIs(u.value, USER, q.user, wantedOfUser); }
      if h.Some? { EntryIs(h.value, HOST, q.host, wantedOfHost); }
      if room { SideHasRoom(u, q.user, wantedOfUser, GROUP, keys); }
      var found := ExpandChain(u, wantedOfUser, GROUP);
      ghost var expanded, log := index.edges, checks;
      if h.Some? && !index.truncated {
        AllLinkedGrows(recorded, expanded, h.value.node.Id(), HOSTGROUP, h.value.direct);
      }
      UserReads(u, q.user, wantedOfUser);
      if room { SideHasRoom(h, q.host, wantedOfHost, HOSTGROUP, keys); }
      found := ExpandChain(h, wantedOfHost, HOSTGROUP);
      BothOnce(dir, log, checks, if u.Some? then NamesOf(u.value, wantedOfUser) else {},
               if h.Some? then NamesOf(h.value, wantedOfHost) else {},
               EntryNames(q.user, wantedOfUser), EntryNames(q.host, wantedOfHost));
      if stated {
        if u.Some? { StatedByDirectory(dir, q, recorded, expanded, GROUP, q.user); }
        if h.Some? { StatedByDirectory(dir, q, expanded, index.edges, HOSTGROUP, q.host); }
      }
      if u.Some? && !index.truncated && limitNotes == 0 {
        FindsGrows(dir, GROUP, u.value, wantedOfUser, expanded, index.edges);
      }
    }

    lemma AllKeysAre(q: Question, wantedOfUser: set<string>, wantedOfHost: set<string>)
      ensures QuestionKeys(q) <= AllKeys(q, wantedOfUser, wantedOfHost)
      ensures GroupKeys(GROUP, EntryNames(q.user, wantedOfUser)) <= AllKeys(q, wantedOfUser, wantedOfHost)
      ensures GroupKeys(HOSTGROUP, EntryNames(q.host, wantedOfHost)) <= AllKeys(q, wantedOfUser, wantedOfHost)
    {
    }

    lemma RoomFacts(q: Question, wantedOfUser: set<string>, wantedOfHost: set<string>)
      requires HasRoomFor(q, wantedOfUser, wantedOfHost)
      ensures !index.truncated && |index.nodes.Keys + AllKeys(q, wantedOfUser, wantedOfHost)| < index.maxNodes
      ensures |index.edges| + QuestionEdges(q) + |EntryGroups(q.user)| * MAX_GROUP_FETCHES
              + |EntryGroups(q.host)| * MAX_GROUP_FETCHES < index.maxEdges
      ensures chainReads + |EntryNames(q.user, wantedOfUser)| + |EntryNames(q.host, wantedOfHost)| < MAX_GROUP_FETCHES
    {
    }

    /** Among `keys`, and with room for the edges, the index is not truncated, and a side can be expanded. */
    lemma SideHasRoom(m: Option<Membership>, e: ObjectEntry, wanted: set<string>, kind: NodeKind, keys: set<Key>)
      requires Valid() && index.nodes.Keys <= keys && |keys| < index.maxNodes
      requires GroupKeys(kind, EntryNames(e, wanted)) <= keys
      requires |index.edges| + |EntryGroups(e)| * MAX_GROUP_FETCHES < index.maxEdges
      requires chainReads + |EntryNames(e, wanted)| < MAX_GROUP_FETCHES
      requires m.Some? ==> m.value.AllGroups() == EntryGroups(e) && NamesOf(m.value, wanted) == EntryNames(e, wanted)
      ensures !index.truncated && (m.Some? ==> HasRoom(m.value, wanted, kind))
    {
      hide Grouped, GroupKeys, EntryNames, EntryGroups, NamesOf, ReadShaped;
      SubsetSize(index.nodes.Keys, keys);
      SubsetSize(index.nodes.Keys + GroupKeys(kind, EntryNames(e, wanted)), keys);
    }

    lemma UserReads(u: Option<Membership>, e: ObjectEntry, wanted: set<string>)
      requires ReadOnce(dir, checks, 0, GROUP, if u.Some? then NamesOf(u.value, wanted) else {}) && chainReads == |checks|
      requires u.Some? ==> NamesOf(u.value, wanted) == EntryNames(e, wanted)
      ensures chainReads <= |EntryNames(e, wanted)|
    {
      hide ReadOnce, NamesOf;
      ReadsAreFew(dir, checks, 0, GROUP, if u.Some? then NamesOf(u.value, wanted) else {});
    }
  }

  /** The log of a question: groups among these names of the user and of the host, none twice, and which reads failed. */
  ghost predicate ReadsOfBoth(dir: Directory, checks: seq<Check>, ofUser: set<string>, ofHost: set<string>) {
    && (forall i :: 0 <= i < |checks| ==>
          checks[i].group in GroupKeys(GROUP, ofUser) + GroupKeys(HOSTGROUP, ofHost)
          && checks[i].ok == dir(checks[i].group).Some?)
    && (forall i, j :: 0 <= i < j < |checks| ==> checks[i].group != checks[j].group)
  }

  /** Groups read for the user and groups read for the host are of different kinds. */
  lemma BothOnce(dir: Directory, log: seq<Check>, checks: seq<Check>, readForUser: set<string>, readForHost: set<string>,
                 ofUser: set<string>, ofHost: set<string>)
    requires ReadOnce(dir, log, 0, GROUP, readForUser) && log <= checks && ReadOnce(dir, checks, |log|, HOSTGROUP, readForHost)
    requires readForUser <= ofUser && readForHost <= ofHost
    ensures ReadsOfBoth(dir, checks, ofUser, ofHost)
  {
    assert forall i :: 0 <= i < |log| ==> checks[i] == log[i];
    forall i | 0 <= i < |checks| ensures checks[i].group in GroupKeys(GROUP, ofUser) + GroupKeys(HOSTGROUP, ofHost) {
      var name := checks[i].group.name;
      assert checks[i].group == Key(if i < |log| then GROUP else HOSTGROUP, name);
    }
  }
}
