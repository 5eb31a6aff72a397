/** The two walks of the bundle sanitizer over a member's tree: the one that discovers identities and secret values, and the
    one that writes the sanitized copy. Cleaning, redacting and pseudonymizing one text is an arbitrary function of what
    was discovered here. */
module JsonWalk {
  import opened Common

  const MAX_DEPTH: nat := 8
  const MAX_DICT_KEYS: nat := 60
  const MAX_LIST_ITEMS: nat := 200
  const HARD_LIMIT: nat := 65536
  const KEY_LIMIT: nat := 120
  const TEXT_LIMIT: nat := 500
  const PROSE_LIMIT: nat := 2000

  /** A mapping keeps its entries in insertion order. `Other` is a value that is written as its text. */
  datatype Json =
    | Null
    | Bool(b: bool)
    | Num(x: real, finite: bool)
    | Str(s: string)
    | List(items: seq<Json>)
    | Dict(entries: seq<Entry>)
    | Other(text: string)

  datatype Entry = Entry(key: string, value: Json)

  datatype OwnerKind = OwnerUser | OwnerGroup

  /** What the walks ask about field names; whom the "type" of an ownership finding speaks of; what is kept of one value
      under a secret name; and what becomes of a text of acceptable size. */
  datatype Rules = Rules(
    secret: string -> bool, serial: string -> bool, raw: string -> bool, prose: string -> bool,
    owner: string -> Option<OwnerKind>, asSecret: Json -> set<string>,
    clean: (string, nat) -> string, omitted: nat -> string)

  const REMOVED := "[REMOVED]"
  const TOO_DEEP := "[OMITTED: nested too deeply]"

  function TextOf(r: Rules, text: string, limit: nat): string {
    if |text| > HARD_LIMIT then r.omitted(|text|) else r.clean(text, limit)
  }

  /** The first `max` elements, from depth `from` on. */
  function Trim<T>(s: seq<T>, max: nat, depth: nat, from: nat): (t: seq<T>)
    ensures t <= s
  {
    if depth >= from && |s| > max then s[..max] else s
  }

  /** Nothing below the depth bound is visited: the measure of every walk. */
  function Room(depth: nat): nat { if depth > MAX_DEPTH then 0 else MAX_DEPTH + 1 - depth }

  // ------------------------------------------------------------------ discovery

  /** The texts that discovery looks into. */
  function Visits(v: Json, depth: nat): set<string>
    decreases Room(depth), 1, 0
  {
    if depth > MAX_DEPTH then {}
    else
      match v
      case Dict(entries) => EntryVisits(Trim(entries, MAX_DICT_KEYS, depth, 1), depth)
      case List(items) => ItemVisits(Trim(items, MAX_LIST_ITEMS, depth, 2), depth)
      case Str(s) => if |s| <= HARD_LIMIT then {s} else {}
      case _ => {}
  }

  function EntryVisits(entries: seq<Entry>, depth: nat): set<string>
    requires depth <= MAX_DEPTH
    decreases Room(depth), 0, |entries|
  {
    if entries == [] then {}
    else
      var e := entries[|entries| - 1];
      EntryVisits(entries[..|entries| - 1], depth) + {e.key} + Visits(e.value, depth + 1)
  }

  function ItemVisits(items: seq<Json>, depth: nat): set<string>
    requires depth <= MAX_DEPTH
    decreases Room(depth), 0, |items|
  {
    if items == [] then {}
    else ItemVisits(items[..|items| - 1], depth) + Visits(items[|items| - 1], depth + 1)
  }

  /** What discovery learns identities from: a text with the name of its field, or the name of an owner. */
  datatype Event = Looked(text: string, key: string) | Owned(kind: OwnerKind, name: string)

  /** Everything that discovery looks into, in order. */
  function Log(r: Rules, v: Json, key: string, depth: nat): seq<Event>
    decreases Room(depth), 1, 0
  {
    if depth > MAX_DEPTH then []
    else
      match v
      case Dict(entries) => EntryLog(r, OwnerOf(r, entries), Trim(entries, MAX_DICT_KEYS, depth, 1), depth)
      case List(items) => ItemLog(r, Trim(items, MAX_LIST_ITEMS, depth, 2), key, depth)
      case Str(s) => if |s| <= HARD_LIMIT then [Looked(s, key)] else []
      case _ => []
  }

  function EntryLog(r: Rules, kind: Option<OwnerKind>, entries: seq<Entry>, depth: nat): seq<Event>
    requires depth <= MAX_DEPTH
    decreases Room(depth), 0, |entries|
  {
    if entries == [] then []
    else
      var e := entries[|entries| - 1];
      EntryLog(r, kind, entries[..|entries| - 1], depth)
      + ([Looked(e.key, "")] + OwnerLog(kind, e) + Log(r, e.value, e.key, depth + 1))
  }

  function ItemLog(r: Rules, items: seq<Json>, key: string, depth: nat): seq<Event>
    requires depth <= MAX_DEPTH
    decreases Room(depth), 0, |items|
  {
    if items == [] then []
    else ItemLog(r, items[..|items| - 1], key, depth) + Log(r, items[|items| - 1], key, depth + 1)
  }

  /** Whose ownership a finding is about. */
  function OwnerOf(r: Rules, entries: seq<Entry>): Option<OwnerKind> {
    if entries == [] then None
    else if entries[0].key == "type" then (if entries[0].value.Str? then r.owner(entries[0].value.s) else None)
    else OwnerOf(r, entries[1..])
  }

  function OwnerLog(kind: Option<OwnerKind>, e: Entry): seq<Event> {
    if kind.None? || Lower(e.key) !in {"got", "expected"} then []
    else OwnedNames(kind.value, if e.value.List? then Trim(e.value.items, MAX_LIST_ITEMS, 0, 0) else [e.value])
  }

  function OwnedNames(kind: OwnerKind, names: seq<Json>): seq<Event> {
    if names == [] then []
    else
      var n := names[|names| - 1];
      OwnedNames(kind, names[..|names| - 1]) + if n.Str? && |n.s| <= HARD_LIMIT then [Owned(kind, n.s)] else []
  }

  /** The values collected below secret names, to be removed wherever else they appear. */
  function SecretsOf(r: Rules, v: Json, depth: nat): set<string>
    decreases Room(depth), 1, 0
  {
    if depth > MAX_DEPTH then {}
    else
      match v
      case Dict(entries) => EntrySecrets(r, Trim(entries, MAX_DICT_KEYS, depth, 1), depth)
      case List(items) => ItemSecrets(r, Trim(items, MAX_LIST_ITEMS, depth, 2), depth)
      case _ => {}
  }

  function EntrySecrets(r: Rules, entries: seq<Entry>, depth: nat): set<string>
    requires depth <= MAX_DEPTH
    decreases Room(depth), 0, |entries|
  {
    if entries == [] then {}
    else
      var e := entries[|entries| - 1];
      EntrySecrets(r, entries[..|entries| - 1], depth)
      + (if r.secret(e.key) then Collected(r, e.value, 0) else {}) + SecretsOf(r, e.value, depth + 1)
  }

  function ItemSecrets(r: Rules, items: seq<Json>, depth: nat): set<string>
    requires depth <= MAX_DEPTH
    decreases Room(depth), 0, |items|
  {
    if items == [] then {}
    else ItemSecrets(r, items[..|items| - 1], depth) + SecretsOf(r, items[|items| - 1], depth + 1)
  }

  /** The values below one secret name. */
  function Collected(r: Rules, v: Json, depth: nat): set<string>
    decreases Room(depth), 1, 0
  {
    if depth > MAX_DEPTH || KeepsBool(v) then {}
    else
      match v
      case Dict(entries) => CollectedFields(r, entries, depth)
      case List(items) => CollectedItems(r, items, depth)
      case _ => r.asSecret(v)
  }

  function CollectedFields(r: Rules, entries: seq<Entry>, depth: nat): set<string>
    requires depth <= MAX_DEPTH
    decreases Room(depth), 0, |entries|
  {
    if entries == [] then {}
    else CollectedFields(r, entries[..|entries| - 1], depth) + Collected(r, entries[|entries| - 1].value, depth + 1)
  }

  function CollectedItems(r: Rules, items: seq<Json>, depth: nat): set<string>
    requires depth <= MAX_DEPTH
    decreases Room(depth), 0, |items|
  {
    if items == [] then {}
    else CollectedItems(r, items[..|items| - 1], depth) + Collected(r, items[|items| - 1], depth + 1)
  }

  class Discovery {
    const rules: Rules
    var log: seq<Event>
    var secrets: set<string>

    /** Starts with the secret values of the raw evidence. */
    constructor (rules: Rules, tracked: set<string>)
      ensures this.rules == rules && log == [] && secrets == tracked
    {
      this.rules, log, secrets := rules, [], tracked;
    }

    method Discover(v: Json, key: string, depth: nat)
      modifies this
      ensures log == old(log) + Log(rules, v, key, depth) && secrets == old(secrets) + SecretsOf(rules, v, depth)
      decreases Room(depth), 1
    {
      if depth > MAX_DEPTH { return; }
      match v
      case Dict(entries) =>
        var kept := if depth >= 1 && |entries| > MAX_DICT_KEYS then entries[..MAX_DICT_KEYS] else entries;
        DiscoverFields(OwnerOf(rules, entries), kept, depth);
      case List(items) =>
        var kept := if depth >= 2 && |items| > MAX_LIST_ITEMS then items[..MAX_LIST_ITEMS] else items;
        DiscoverItems(kept, key, depth);
      case Str(s) =>
        if |s| <= HARD_LIMIT { log := log + [Looked(s, key)]; }
      case Null =>
      case Bool(_) =>
      case Num(_, _) =>
      case Other(_) =>
    }

    method DiscoverItems(kept: seq<Json>, key: string, depth: nat)
      requires depth <= MAX_DEPTH
      modifies this
      ensures log == old(log) + ItemLog(rules, kept, key, depth)
      ensures secrets == old(secrets) + ItemSecrets(rules, kept, depth)
      decreases Room(depth), 0
    {
      hide Log, SecretsOf;
      for i := 0 to |kept|
        invariant log == old(log) + ItemLog(rules, kept[..i], key, depth)
        invariant secrets == old(secrets) + ItemSecrets(rules, kept[..i], depth)
      {
        assert kept[..i + 1][..i] == kept[..i];
        Discover(kept[i], key, depth + 1);
      }
      assert kept[..|kept|] == kept;
    }

    method DiscoverFields(kind: Option<OwnerKind>, kept: seq<Entry>, depth: nat)
      requires depth <= MAX_DEPTH
      modifies this
      ensures log == old(log) + EntryLog(rules, kind, kept, depth)
      ensures secrets == old(secrets) + EntrySecrets(rules, kept, depth)
      decreases Room(depth), 0, 1
    {
      hide Log, SecretsOf, Collected, OwnerLog;
      for i := 0 to |kept|
        invariant log == old(log) + EntryLog(rules, kind, kept[..i], depth)
        invariant secrets == old(secrets) + EntrySecrets(rules, kept[..i], depth)
      {
        assert kept[..i + 1][..i] == kept[..i];
        DiscoverField(kind, kept[i], depth);
      }
      assert kept[..|kept|] == kept;
    }

    method DiscoverField(kind: Option<OwnerKind>, e: Entry, depth: nat)
      requires depth <= MAX_DEPTH
      modifies this
      ensures log == old(log) + ([Looked(e.key, "")] + OwnerLog(kind, e) + Log(rules, e.value, e.key, depth + 1))
      ensures secrets == old(secrets) + (if rules.secret(e.key) then Collected(rules, e.value, 0) else {})
                         + SecretsOf(rules, e.value, depth + 1)
      decreases Room(depth), 0, 0
    {
      hide Log, SecretsOf, Collected, OwnerLog;
      log := log + [Looked(e.key, "")];
      if rules.secret(e.key) { CollectSecret(e.value, 0); }
      DiscoverOwner(kind, e);
      Discover(e.value, e.key, depth + 1);
    }

    method DiscoverOwner(kind: Option<OwnerKind>, e: Entry)
      modifies this`log
      ensures log == old(log) + OwnerLog(kind, e)
    {
      if kind.None? || Lower(e.key) !in {"got", "expected"} { return; }
      var names := if e.value.List? then e.value.items else [e.value];
      if |names| > MAX_LIST_ITEMS { names := names[..MAX_LIST_ITEMS]; }
      for i := 0 to |names|
        invariant log == old(log) + OwnedNames(kind.value, names[..i])
      {
        assert names[..i + 1][..i] == names[..i];
        if names[i].Str? && |names[i].s| <= HARD_LIMIT { log := log + [Owned(kind.value, names[i].s)]; }
      }
      assert names[..|names|] == names;
    }

    /** Collects every value below a secret name. */
    method CollectSecret(v: Json, depth: nat)
      modifies this`secrets
      ensures secrets == old(secrets) + Collected(rules, v, depth)
      decreases Room(depth)
    {
      if depth > MAX_DEPTH || KeepsBool(v) { return; }
      if v.Dict? {
        for i := 0 to |v.entries|
          invariant secrets == old(secrets) + CollectedFields(rules, v.entries[..i], depth)
        {
          assert v.entries[..i + 1][..i] == v.entries[..i];
          CollectSecret(v.entries[i].value, depth + 1);
        }
        assert v.entries[..|v.entries|] == v.entries;
      } else if v.List? {
        for i := 0 to |v.items|
          invariant secrets == old(secrets) + CollectedItems(rules, v.items[..i], depth)
        {
          assert v.items[..i + 1][..i] == v.items[..i];
          CollectSecret(v.items[i], depth + 1);
        }
        assert v.items[..|v.items|] == v.items;
      } else {
        secrets := secrets + rules.asSecret(v);
      }
    }
  }

  /** The texts discovery looks into are those of its log. */
  lemma {:induction false} VisitsAreLogged(r: Rules, v: Json, key: string, depth: nat)
    ensures forall s :: s in Visits(v, depth) <==> Logged(Log(r, v, key, depth), s)
    decreases Room(depth), 1, 0
  {
    if depth <= MAX_DEPTH {
      match v
      case Dict(entries) => EntryVisitsAreLogged(r, OwnerOf(r, entries), Trim(entries, MAX_DICT_KEYS, depth, 1), depth);
      case List(items) => ItemVisitsAreLogged(r, Trim(items, MAX_LIST_ITEMS, depth, 2), key, depth);
      case Str(s) => if |s| <= HARD_LIMIT { assert [Looked(s, key)][0].Looked?; }
      case _ =>
    }
  }

  ghost predicate Logged(log: seq<Event>, s: string) { exists i :: 0 <= i < |log| && log[i].Looked? && log[i].text == s }

  lemma LoggedJoin(a: seq<Event>, b: seq<Event>)
    ensures forall s :: Logged(a + b, s) <==> Logged(a, s) || Logged(b, s)
  {
    forall s ensures Logged(a + b, s) <==> Logged(a, s) || Logged(b, s) {
      if i :| 0 <= i < |a| && a[i].Looked? && a[i].text == s { assert (a + b)[i] == a[i]; }
      if i :| 0 <= i < |b| && b[i].Looked? && b[i].text == s { assert (a + b)[|a| + i] == b[i]; }
    }
  }

  lemma {:induction false} OwnersAreNotLogged(kind: OwnerKind, names: seq<Json>)
    ensures forall i :: 0 <= i < |OwnedNames(kind, names)| ==> OwnedNames(kind, names)[i].Owned?
  {
    if names != [] { OwnersAreNotLogged(kind, names[..|names| - 1]); }
  }

  lemma {:induction false} EntryVisitsAreLogged(r: Rules, kind: Option<OwnerKind>, entries: seq<Entry>, depth: nat)
    requires depth <= MAX_DEPTH
    ensures forall s :: s in EntryVisits(entries, depth) <==> Logged(EntryLog(r, kind, entries, depth), s)
    decreases Room(depth), 0, |entries|
  {
    if entries != [] {
      var init, e := entries[..|entries| - 1], entries[|entries| - 1];
      var name, owners, below := [Looked(e.key, "")], OwnerLog(kind, e), Log(r, e.value, e.key, depth + 1);
      EntryVisitsAreLogged(r, kind, init, depth);
      VisitsAreLogged(r, e.value, e.key, depth + 1);
      if owners != [] {
        OwnersAreNotLogged(kind.value, if e.value.List? then Trim(e.value.items, MAX_LIST_ITEMS, 0, 0) else [e.value]);
      }
      LoggedJoin(EntryLog(r, kind, init, depth), name + owners + below);
      LoggedJoin(name + owners, below);
      LoggedJoin(name, owners);
      assert name[0].text == e.key;
    }
  }

  lemma {:induction false} ItemVisitsAreLogged(r: Rules, items: seq<Json>, key: string, depth: nat)
    requires depth <= MAX_DEPTH
    ensures forall s :: s in ItemVisits(items, depth) <==> Logged(ItemLog(r, items, key, depth), s)
    decreases Room(depth), 0, |items|
  {
    if items != [] {
      var init, v := items[..|items| - 1], items[|items| - 1];
      ItemVisitsAreLogged(r, init, key, depth);
      VisitsAreLogged(r, v, key, depth + 1);
      LoggedJoin(ItemLog(r, init, key, depth), Log(r, v, key, depth + 1));
    }
  }

  // ------------------------------------------------------------------ what discovery finds

  /** A value that the walk comes by, with the name of its field and its depth. */
  datatype Place = Place(value: Json, key: string, depth: nat)

  /** Everything within the bounds on depth and width. */
  function Reached(v: Json, key: string, depth: nat): set<Place>
    decreases Room(depth), 1, 0
  {
    if depth > MAX_DEPTH then {}
    else
      {Place(v, key, depth)}
      + match v
        case Dict(entries) => EntryReached(Trim(entries, MAX_DICT_KEYS, depth, 1), depth)
        case List(items) => ItemReached(Trim(items, MAX_LIST_ITEMS, depth, 2), key, depth)
        case _ => {}
  }

  function EntryReached(entries: seq<Entry>, depth: nat): set<Place>
    requires depth <= MAX_DEPTH
    decreases Room(depth), 0, |entries|
  {
    if entries == [] then {}
    else
      var e := entries[|entries| - 1];
      EntryReached(entries[..|entries| - 1], depth) + Reached(e.value, e.key, depth + 1)
  }

  function ItemReached(items: seq<Json>, key: string, depth: nat): set<Place>
    requires depth <= MAX_DEPTH
    decreases Room(depth), 0, |items|
  {
    if items == [] then {}
    else ItemReached(items[..|items| - 1], key, depth) + Reached(items[|items| - 1], key, depth + 1)
  }

  /** The field is one of those that the walk looks at. */
  ghost predicate IsField(p: Place, e: Entry) {
    p.value.Dict? && e in if p.depth >= 1 && |p.value.entries| > MAX_DICT_KEYS then p.value.entries[..MAX_DICT_KEYS] else p.value.entries
  }

  /** A finding is about ownership if its "type" is a text that says so. */
  lemma {:induction false} OwnerIs(r: Rules, entries: seq<Entry>, i: nat)
    requires i <= |entries| && forall j :: 0 <= j < i ==> entries[j].key != "type"
    requires i < |entries| ==> entries[i].key == "type"
    ensures OwnerOf(r, entries) == if i < |entries| && entries[i].value.Str? then r.owner(entries[i].value.s) else None
  {
    if i > 0 { OwnerIs(r, entries[1..], i - 1); }
  }

  /** The field of an ownership finding names this owner, alone or among the first of a list. */
  ghost predicate NamesOwner(e: Entry, name: string) {
    && Lower(e.key) in {"got", "expected"} && |name| <= HARD_LIMIT
    && if e.value.List? then exists i :: 0 <= i < |e.value.items| && i < MAX_LIST_ITEMS && e.value.items[i] == Str(name)
       else e.value == Str(name)
  }

  /** What is looked into at one place: a text, or of a mapping the names of its fields and, in a finding on ownership, the
      owners it names. */
  ghost predicate Yields(r: Rules, p: Place, x: Event) {
    || (p.value.Str? && |p.value.s| <= HARD_LIMIT && x == Looked(p.value.s, p.key))
    || (exists e :: IsField(p, e) && (x == Looked(e.key, "") || Owns(OwnerOf(r, p.value.entries), e, x)))
  }

  ghost predicate Owns(kind: Option<OwnerKind>, e: Entry, x: Event) {
    x.Owned? && kind == Some(x.kind) && NamesOwner(e, x.name)
  }

  /** A value collected at one place: it stands below a secret name. */
  ghost predicate Hides(r: Rules, p: Place, x: string) {
    exists e :: IsField(p, e) && r.secret(e.key) && x in Collected(r, e.value, 0)
  }

  ghost predicate YieldedIn(r: Rules, places: set<Place>, x: Event) { exists p :: p in places && Yields(r, p, x) }

  ghost predicate HiddenIn(r: Rules, places: set<Place>, x: string) { exists p :: p in places && Hides(r, p, x) }

  /** Discovery looks into exactly what the places within the bounds yield, and collects exactly the values hidden there. */
  lemma {:induction false} DiscoversExactly(r: Rules, v: Json, key: string, depth: nat)
    ensures forall x :: x in Log(r, v, key, depth) <==> YieldedIn(r, Reached(v, key, depth), x)
    ensures forall x :: x in SecretsOf(r, v, depth) <==> HiddenIn(r, Reached(v, key, depth), x)
    decreases Room(depth), 1, 0
  {
    hide Yields, Hides;
    if depth <= MAX_DEPTH {
      var here := Place(v, key, depth);
      match v
      case Dict(entries) =>
        var kept := Trim(entries, MAX_DICT_KEYS, depth, 1);
        EntriesDiscover(r, OwnerOf(r, entries), kept, depth);
        MappingYields(r, here, kept);
        PlacesJoin(r, here, EntryReached(kept, depth));
      case List(items) =>
        var kept := Trim(items, MAX_LIST_ITEMS, depth, 2);
        ItemsDiscover(r, kept, key, depth);
        OthersYield(r, here);
        PlacesJoin(r, here, ItemReached(kept, key, depth));
      case _ =>
        OthersYield(r, here);
        PlacesJoin(r, here, {});
    }
  }

  lemma PlacesJoin(r: Rules, here: Place, places: set<Place>)
    ensures forall x :: YieldedIn(r, {here} + places, x) <==> Yields(r, here, x) || YieldedIn(r, places, x)
    ensures forall x :: HiddenIn(r, {here} + places, x) <==> Hides(r, here, x) || HiddenIn(r, places, x)
  {
    hide Yields, Hides;
  }

  lemma SetsJoin(r: Rules, a: set<Place>, b: set<Place>)
    ensures forall x :: YieldedIn(r, a + b, x) <==> YieldedIn(r, a, x) || YieldedIn(r, b, x)
    ensures forall x :: HiddenIn(r, a + b, x) <==> HiddenIn(r, a, x) || HiddenIn(r, b, x)
  {
    hide Yields, Hides;
  }

  lemma MappingYields(r: Rules, p: Place, kept: seq<Entry>)
    requires p.value.Dict? && kept == Trim(p.value.entries, MAX_DICT_KEYS, p.depth, 1)
    ensures forall x :: Yields(r, p, x) <==>
              exists i :: 0 <= i < |kept| && (x == Looked(kept[i].key, "") || Owns(OwnerOf(r, p.value.entries), kept[i], x))
    ensures forall x :: Hides(r, p, x) <==> exists i :: 0 <= i < |kept| && r.secret(kept[i].key) && x in Collected(r, kept[i].value, 0)
  {
    hide Owns, Collected;
    assert forall e :: IsField(p, e) <==> e in kept;
  }

  lemma OthersYield(r: Rules, p: Place)
    requires !p.value.Dict?
    ensures forall x :: Yields(r, p, x) <==> p.value.Str? && |p.value.s| <= HARD_LIMIT && x == Looked(p.value.s, p.key)
    ensures forall x :: !Hides(r, p, x)
  {
  }

  lemma {:induction false} EntriesDiscover(r: Rules, kind: Option<OwnerKind>, entries: seq<Entry>, depth: nat)
    requires depth <= MAX_DEPTH
    ensures forall x :: x in EntryLog(r, kind, entries, depth) <==>
              || (exists i :: 0 <= i < |entries| && (x == Looked(entries[i].key, "") || Owns(kind, entries[i], x)))
              || YieldedIn(r, EntryReached(entries, depth), x)
    ensures forall x :: x in EntrySecrets(r, entries, depth) <==>
              || (exists i :: 0 <= i < |entries| && r.secret(entries[i].key) && x in Collected(r, entries[i].value, 0))
              || HiddenIn(r, EntryReached(entries, depth), x)
    decreases Room(depth), 0, |entries|
  {
    hide Yields, Hides, Owns, Collected, Log, SecretsOf, OwnerLog;
    if entries != [] {
      var init, e := entries[..|entries| - 1], entries[|entries| - 1];
      assert entries == init + [e];
      EntriesDiscover(r, kind, init, depth);
      DiscoversExactly(r, e.value, e.key, depth + 1);
      OwnersLogged(kind, e);
      SetsJoin(r, EntryReached(init, depth), Reached(e.value, e.key, depth + 1));
    } else {
      NothingAnywhere(r);
    }
  }

  lemma NothingAnywhere(r: Rules)
    ensures forall x :: !YieldedIn(r, {}, x)
    ensures forall x :: !HiddenIn(r, {}, x)
  {
  }

  lemma {:induction false} ItemsDiscover(r: Rules, items: seq<Json>, key: string, depth: nat)
    requires depth <= MAX_DEPTH
    ensures forall x :: x in ItemLog(r, items, key, depth) <==> YieldedIn(r, ItemReached(items, key, depth), x)
    ensures forall x :: x in ItemSecrets(r, items, depth) <==> HiddenIn(r, ItemReached(items, key, depth), x)
    decreases Room(depth), 0, |items|
  {
    hide Yields, Hides, Log, SecretsOf;
    if items != [] {
      var init, v := items[..|items| - 1], items[|items| - 1];
      ItemsDiscover(r, init, key, depth);
      DiscoversExactly(r, v, key, depth + 1);
      SetsJoin(r, ItemReached(init, key, depth), Reached(v, key, depth + 1));
    } else {
      NothingAnywhere(r);
    }
  }

  lemma OwnersLogged(kind: Option<OwnerKind>, e: Entry)
    ensures forall x :: x in OwnerLog(kind, e) <==> Owns(kind, e, x)
  {
    if kind.Some? && Lower(e.key) in {"got", "expected"} {
      var names := if e.value.List? then Trim(e.value.items, MAX_LIST_ITEMS, 0, 0) else [e.value];
      NamesLogged(kind.value, names);
      forall name ensures NamesOwner(e, name) <==> |name| <= HARD_LIMIT && Str(name) in names {
        if e.value.List? && Str(name) in names { var i :| 0 <= i < |names| && names[i] == Str(name); }
        if e.value.List? && NamesOwner(e, name) {
          var i :| 0 <= i < |e.value.items| && i < MAX_LIST_ITEMS && e.value.items[i] == Str(name);
          assert names[i] == Str(name);
        }
      }
    }
  }

  lemma {:induction false} NamesLogged(kind: OwnerKind, names: seq<Json>)
    ensures forall x :: x in OwnedNames(kind, names) <==> x.Owned? && x.kind == kind && |x.name| <= HARD_LIMIT && Str(x.name) in names
  {
    if names != [] {
      var init, n := names[..|names| - 1], names[|names| - 1];
      NamesLogged(kind, init);
      assert names == init + [n];
      assert forall x :: x in OwnedNames(kind, names) <==>
          x in OwnedNames(kind, init) || (n.Str? && |n.s| <= HARD_LIMIT && x == Owned(kind, n.s));
    }
  }

  /** The value lies `n` levels below another one and holds no others. */
  ghost predicate LeafBelow(v: Json, leaf: Json, n: nat)
    decreases n
  {
    if n == 0 then v == leaf && !v.Dict? && !v.List?
    else
      match v
      case Dict(entries) => exists i :: 0 <= i < |entries| && LeafBelow(entries[i].value, leaf, n - 1)
      case List(items) => exists i :: 0 <= i < |items| && LeafBelow(items[i], leaf, n - 1)
      case _ => false
  }

  ghost predicate KeptOfLeaf(r: Rules, v: Json, leaf: Json, n: nat, x: string) {
    LeafBelow(v, leaf, n) && !leaf.Null? && !leaf.Bool? && x in r.asSecret(leaf)
  }

  /** Below one secret name every value that is neither null nor a truth value is collected, down to the depth bound. */
  lemma {:induction false} CollectedExactly(r: Rules, v: Json, depth: nat, x: string)
    requires depth <= MAX_DEPTH + 1
    ensures x in Collected(r, v, depth) <==> exists leaf, n: nat :: n + depth <= MAX_DEPTH && KeptOfLeaf(r, v, leaf, n, x)
    decreases Room(depth), 1
  {
    if depth <= MAX_DEPTH && v.Dict? {
      CollectedFieldsExactly(r, v.entries, depth, x);
      if i :| 0 <= i < |v.entries| && x in Collected(r, v.entries[i].value, depth + 1) {
        CollectedExactly(r, v.entries[i].value, depth + 1, x);
        var leaf, n: nat :| n + depth + 1 <= MAX_DEPTH && KeptOfLeaf(r, v.entries[i].value, leaf, n, x);
        assert KeptOfLeaf(r, v, leaf, n + 1, x);
      }
      if leaf, n: nat :| n + depth <= MAX_DEPTH && KeptOfLeaf(r, v, leaf, n, x) {
        var i :| 0 <= i < |v.entries| && LeafBelow(v.entries[i].value, leaf, n - 1);
        assert KeptOfLeaf(r, v.entries[i].value, leaf, n - 1, x);
        CollectedExactly(r, v.entries[i].value, depth + 1, x);
      }
    } else if depth <= MAX_DEPTH && v.List? {
      CollectedItemsExactly(r, v.items, depth, x);
      if i :| 0 <= i < |v.items| && x in Collected(r, v.items[i], depth + 1) {
        CollectedExactly(r, v.items[i], depth + 1, x);
        var leaf, n: nat :| n + depth + 1 <= MAX_DEPTH && KeptOfLeaf(r, v.items[i], leaf, n, x);
        assert KeptOfLeaf(r, v, leaf, n + 1, x);
      }
      if leaf, n: nat :| n + depth <= MAX_DEPTH && KeptOfLeaf(r, v, leaf, n, x) {
        var i :| 0 <= i < |v.items| && LeafBelow(v.items[i], leaf, n - 1);
        assert KeptOfLeaf(r, v.items[i], leaf, n - 1, x);
        CollectedExactly(r, v.items[i], depth + 1, x);
      }
    } else if depth <= MAX_DEPTH && !KeepsBool(v) && x in r.asSecret(v) {
      assert KeptOfLeaf(r, v, v, 0, x);
    }
  }

  lemma {:induction false} CollectedFieldsExactly(r: Rules, entries: seq<Entry>, depth: nat, x: string)
    requires depth <= MAX_DEPTH
    ensures x in CollectedFields(r, entries, depth) <==> exists i :: 0 <= i < |entries| && x in Collected(r, entries[i].value, depth + 1)
    decreases |entries|
  {
    hide Collected;
    if entries != [] { CollectedFieldsExactly(r, entries[..|entries| - 1], depth, x); }
  }

  lemma {:induction false} CollectedItemsExactly(r: Rules, items: seq<Json>, depth: nat, x: string)
    requires depth <= MAX_DEPTH
    ensures x in CollectedItems(r, items, depth) <==> exists i :: 0 <= i < |items| && x in Collected(r, items[i], depth + 1)
    decreases |items|
  {
    hide Collected;
    if items != [] { CollectedItemsExactly(r, items[..|items| - 1], depth, x); }
  }

  // ------------------------------------------------------------------ the sanitized copy

  function Keys(entries: seq<Entry>): set<string> { set i | 0 <= i < |entries| :: entries[i].key }

  function Hashes(n: nat): (s: string)
    ensures |s| == n
  {
    if n == 0 then "" else Hashes(n - 1) + "#"
  }

  function LongKeys(out: seq<Entry>, n: nat): set<string> { set k | k in Keys(out) && |k| >= n }

  /** How many "#" a name needs to be new. */
  function HashesNeeded(name: string, out: seq<Entry>, from: nat): (n: nat)
    ensures n >= from && name + Hashes(n) !in Keys(out)
    ensures forall m :: from <= m < n ==> name + Hashes(m) in Keys(out)
    decreases |LongKeys(out, |name| + from)|
  {
    if name + Hashes(from) !in Keys(out) then from
    else
      LongerKeysAreFewer(out, name + Hashes(from));
      HashesNeeded(name, out, from + 1)
  }

  lemma LongerKeysAreFewer(out: seq<Entry>, key: string)
    requires key in Keys(out)
    ensures |LongKeys(out, |key| + 1)| < |LongKeys(out, |key|)|
  {
    assert LongKeys(out, |key| + 1) <= LongKeys(out, |key|) - {key};
    SubsetSize(LongKeys(out, |key| + 1), LongKeys(out, |key|) - {key});
  }

  predicate KeepsBool(v: Json) { v.Bool? || v.Null? }

  /** The value of a field is never shown. */
  predicate Hidden(r: Rules, e: Entry) { (r.secret(e.key) || r.serial(e.key)) && !KeepsBool(e.value) }

  function Transformed(r: Rules, v: Json, key: string, depth: nat): Json
    decreases Room(depth), 1, 0
  {
    if depth > MAX_DEPTH then Str(TOO_DEEP)
    else
      match v
      case Dict(entries) => Dict(Fields(r, Trim(entries, MAX_DICT_KEYS, depth, 1), depth))
      case List(items) => List(Items(r, Trim(items, MAX_LIST_ITEMS, depth, 2), key, depth))
      case Str(s) => Str(TextOf(r, s, if r.prose(key) then PROSE_LIMIT else TEXT_LIMIT))
      case Null => v
      case Bool(_) => v
      case Num(_, finite) => if finite then v else Null
      case Other(text) => Str(TextOf(r, text, TEXT_LIMIT))
  }

  function Fields(r: Rules, entries: seq<Entry>, depth: nat): seq<Entry>
    requires depth <= MAX_DEPTH
    decreases Room(depth), 0, |entries|
  {
    if entries == [] then []
    else
      var out, e := Fields(r, entries[..|entries| - 1], depth), entries[|entries| - 1];
      if r.raw(e.key) then out
      else
        var name := TextOf(r, e.key, KEY_LIMIT);
        var value := if Hidden(r, e) then Str(REMOVED) else Transformed(r, e.value, e.key, depth + 1);
        out + [Entry(name + Hashes(HashesNeeded(name, out, 0)), value)]
  }

  function Items(r: Rules, items: seq<Json>, key: string, depth: nat): seq<Json>
    requires depth <= MAX_DEPTH
    decreases Room(depth), 0, |items|
  {
    if items == [] then []
    else Items(r, items[..|items| - 1], key, depth) + [Transformed(r, items[|items| - 1], key, depth + 1)]
  }

  method Transform(r: Rules, v: Json, key: string, depth: nat) returns (out: Json)
    ensures out == Transformed(r, v, key, depth) && IsCopy(r, v, out, key, depth)
    decreases Room(depth), 1
  {
    hide IsCopy;
    TransformedIsCopy(r, v, key, depth);
    if depth > MAX_DEPTH { return Str(TOO_DEEP); }
    match v
    case Dict(entries) =>
      var kept := if |entries| > MAX_DICT_KEYS && depth >= 1 then entries[..MAX_DICT_KEYS] else entries;
      var fields := TransformFields(r, kept, depth);
      out := Dict(fields);
    case List(items) =>
      var kept := if |items| > MAX_LIST_ITEMS && depth >= 2 then items[..MAX_LIST_ITEMS] else items;
      var copy: seq<Json> := [];
      for i := 0 to |kept|
        invariant copy == Items(r, kept[..i], key, depth)
      {
        assert kept[..i + 1][..i] == kept[..i];
        var item := Transform(r, kept[i], key, depth + 1);
        copy := copy + [item];
      }
      assert kept[..|kept|] == kept;
      out := List(copy);
    case Str(s) => out := Str(TextOf(r, s, if r.prose(key) then PROSE_LIMIT else TEXT_LIMIT));
    case Null => out := v;
    case Bool(_) => out := v;
    case Num(_, finite) => out := if finite then v else Null;
    case Other(text) => out := Str(TextOf(r, text, TEXT_LIMIT));
  }

  method TransformFields(r: Rules, kept: seq<Entry>, depth: nat) returns (out: seq<Entry>)
    requires depth <= MAX_DEPTH
    ensures out == Fields(r, kept, depth)
    decreases Room(depth), 0
  {
    hide Fields, Transformed, HashesNeeded, TextOf;
    out := [];
    NoFields(r, depth);
    for i := 0 to |kept|
      invariant out == Fields(r, kept[..i], depth)
    {
      FieldsStep(r, kept, i, depth);
      var e := kept[i];
      if !r.raw(e.key) {
        var name := NewName(TextOf(r, e.key, KEY_LIMIT), out);
        var value;
        if r.secret(e.key) && !KeepsBool(e.value) {
          value := Str(REMOVED);
        } else if r.serial(e.key) && !KeepsBool(e.value) {
          value := Str(REMOVED);
        } else {
          value := Transform(r, e.value, e.key, depth + 1);
        }
        out := out + [Entry(name, value)];
      }
    }
    assert kept[..|kept|] == kept;
  }

  lemma NoFields(r: Rules, depth: nat)
    requires depth <= MAX_DEPTH
    ensures Fields(r, [], depth) == []
  {
  }

  lemma FieldsStep(r: Rules, kept: seq<Entry>, i: nat, depth: nat)
    requires depth <= MAX_DEPTH && i < |kept|
    ensures
      var out, e := Fields(r, kept[..i], depth), kept[i];
      var name := TextOf(r, e.key, KEY_LIMIT);
      var value := if Hidden(r, e) then Str(REMOVED) else Transformed(r, e.value, e.key, depth + 1);
      Fields(r, kept[..i + 1], depth) ==
        if r.raw(e.key) then out else out + [Entry(name + Hashes(HashesNeeded(name, out, 0)), value)]
  {
    hide Transformed, HashesNeeded, TextOf;
    assert kept[..i + 1][..i] == kept[..i];
  }

  /** Appends "#" until the name is new. */
  method NewName(name: string, out: seq<Entry>) returns (unused: string)
    ensures unused == name + Hashes(HashesNeeded(name, out, 0))
  {
    unused := name;
    ghost var n: nat := 0;
    while unused in Keys(out)
      invariant unused == name + Hashes(n)
      invariant HashesNeeded(name, out, n) == HashesNeeded(name, out, 0)
      decreases |LongKeys(out, |unused|)|
    {
      LongerKeysAreFewer(out, unused);
      unused := unused + "#";
      n := n + 1;
    }
  }

  // ------------------------------------------------------------------ what a copy is

  /** The fields that a copy keeps. */
  function Kept(r: Rules, entries: seq<Entry>): seq<Entry> {
    if entries == [] then []
    else
      Kept(r, entries[..|entries| - 1])
      + if r.raw(entries[|entries| - 1].key) then [] else [entries[|entries| - 1]]
  }

  /** `out` is the sanitized copy of `v`: what lies too deep is a remark, a mapping has its fields and a list its items up to
      the width bounds, texts are cleaned, and null, truth values and finite numbers stay what they were. */
  ghost predicate IsCopy(r: Rules, v: Json, out: Json, key: string, depth: nat)
    decreases Room(depth), 1
  {
    if depth > MAX_DEPTH then out == Str(TOO_DEEP)
    else
      match v
      case Dict(entries) =>
        out.Dict?
        && AreFields(r, if depth >= 1 && |entries| > MAX_DICT_KEYS then entries[..MAX_DICT_KEYS] else entries, out.entries, depth)
      case List(items) =>
        && out.List? && |out.items| == (if depth >= 2 && |items| > MAX_LIST_ITEMS then MAX_LIST_ITEMS else |items|)
        && forall i :: 0 <= i < |out.items| ==> IsCopy(r, items[i], out.items[i], key, depth + 1)
      case Str(s) =>
        out == Str(if |s| > HARD_LIMIT then r.omitted(|s|) else r.clean(s, if r.prose(key) then PROSE_LIMIT else TEXT_LIMIT))
      case Null => out == Null
      case Bool(b) => out == Bool(b)
      case Num(x, finite) => out == if finite then Num(x, true) else Null
      case Other(text) => out == Str(if |text| > HARD_LIMIT then r.omitted(|text|) else r.clean(text, TEXT_LIMIT))
  }

  /** Exactly one field for each field kept, in order and under a name of its own: none overwrites another. */
  ghost predicate AreFields(r: Rules, entries: seq<Entry>, out: seq<Entry>, depth: nat)
    requires depth <= MAX_DEPTH
    decreases Room(depth), 0, 1
  {
    |out| == |Kept(r, entries)| && forall i :: 0 <= i < |out| ==> StandsFor(r, Kept(r, entries)[i], out, i, depth)
  }

  /** An output field stands for an input field: its name, with the least number of marks that makes it new, and its value or
      the removal. */
  ghost predicate StandsFor(r: Rules, e: Entry, out: seq<Entry>, i: nat, depth: nat)
    requires depth <= MAX_DEPTH && i < |out|
    decreases Room(depth), 0, 0
  {
    && IsMarked(if |e.key| > HARD_LIMIT then r.omitted(|e.key|) else r.clean(e.key, KEY_LIMIT), out, i)
    && if (r.secret(e.key) || r.serial(e.key)) && !e.value.Null? && !e.value.Bool? then out[i].value == Str(REMOVED)
       else IsCopy(r, e.value, out[i].value, e.key, depth + 1)
  }

  ghost predicate IsMarked(name: string, out: seq<Entry>, i: nat)
    requires i < |out|
  {
    exists n :: IsMarkedBy(name, n, out, i)
  }

  ghost predicate IsMarkedBy(name: string, n: nat, out: seq<Entry>, i: nat)
    requires i < |out|
  {
    && out[i].key == name + Hashes(n) && out[i].key !in Keys(out[..i])
    && forall m :: 0 <= m < n ==> name + Hashes(m) in Keys(out[..i])
  }

  lemma {:induction false} TransformedIsCopy(r: Rules, v: Json, key: string, depth: nat)
    ensures IsCopy(r, v, Transformed(r, v, key, depth), key, depth)
    decreases Room(depth), 1, 0
  {
    if depth <= MAX_DEPTH && v.Dict? { OneEntryPerField(r, Trim(v.entries, MAX_DICT_KEYS, depth, 1), depth); }
    if depth <= MAX_DEPTH && v.List? { ItemsAreCopies(r, Trim(v.items, MAX_LIST_ITEMS, depth, 2), key, depth); }
  }

  lemma {:induction false} ItemsAreCopies(r: Rules, items: seq<Json>, key: string, depth: nat)
    requires depth <= MAX_DEPTH
    ensures |Items(r, items, key, depth)| == |items|
    ensures forall i :: 0 <= i < |items| ==> IsCopy(r, items[i], Items(r, items, key, depth)[i], key, depth + 1)
    decreases Room(depth), 0, |items|
  {
    hide IsCopy;
    if items != [] {
      ItemsAreCopies(r, items[..|items| - 1], key, depth);
      TransformedIsCopy(r, items[|items| - 1], key, depth + 1);
    }
  }

  lemma {:induction false} OneEntryPerField(r: Rules, entries: seq<Entry>, depth: nat)
    requires depth <= MAX_DEPTH
    ensures AreFields(r, entries, Fields(r, entries, depth), depth) && OwnNames(Fields(r, entries, depth))
    decreases Room(depth), 0, |entries|
  {
    hide StandsFor, OwnNames;
    NoNames();
    if entries != [] {
      var init, e := entries[..|entries| - 1], entries[|entries| - 1];
      var before, out := Fields(r, init, depth), Fields(r, entries, depth);
      OneEntryPerField(r, init, depth);
      if !r.raw(e.key) {
        forall i | 0 <= i < |before| ensures StandsFor(r, Kept(r, init)[i], out, i, depth) {
          StillStandsFor(r, Kept(r, init)[i], before, out, i, depth);
        }
        LastStandsFor(r, before, e, depth, out[|before|]);
        OneMoreName(before, out[|before|]);
      }
    }
  }

  ghost predicate OwnNames(out: seq<Entry>) { forall i, j :: 0 <= i < j < |out| ==> out[i].key != out[j].key }

  lemma NoNames()
    ensures OwnNames([])
  {
  }

  lemma OneMoreName(out: seq<Entry>, last: Entry)
    requires OwnNames(out) && last.key !in Keys(out)
    ensures OwnNames(out + [last])
  {
  }

  lemma StillStandsFor(r: Rules, e: Entry, before: seq<Entry>, out: seq<Entry>, i: nat, depth: nat)
    requires depth <= MAX_DEPTH && i < |before| <= |out| && out[..|before|] == before && StandsFor(r, e, before, i, depth)
    ensures StandsFor(r, e, out, i, depth)
  {
    hide IsCopy, IsMarked;
    StillMarked(if |e.key| > HARD_LIMIT then r.omitted(|e.key|) else r.clean(e.key, KEY_LIMIT), before, out, i);
  }

  lemma StillMarked(name: string, before: seq<Entry>, out: seq<Entry>, i: nat)
    requires i < |before| <= |out| && out[..|before|] == before && IsMarked(name, before, i)
    ensures IsMarked(name, out, i) && out[i] == before[i]
  {
    assert out[i] == before[i] && out[..i] == before[..i];
    var n :| IsMarkedBy(name, n, before, i);
    assert IsMarkedBy(name, n, out, i);
  }

  lemma {:induction false} LastStandsFor(r: Rules, out: seq<Entry>, e: Entry, depth: nat, last: Entry)
    requires depth <= MAX_DEPTH
    requires
      var name := TextOf(r, e.key, KEY_LIMIT);
      last == Entry(name + Hashes(HashesNeeded(name, out, 0)),
                    if Hidden(r, e) then Str(REMOVED) else Transformed(r, e.value, e.key, depth + 1))
    ensures StandsFor(r, e, out + [last], |out|, depth)
    decreases Room(depth), 0, 0
  {
    hide IsCopy, Transformed;
    var name := TextOf(r, e.key, KEY_LIMIT);
    assert (out + [last])[..|out|] == out;
    assert IsMarkedBy(name, HashesNeeded(name, out, 0), out + [last], |out|);
    TransformedIsCopy(r, e.value, e.key, depth + 1);
  }

  /** Under a secret or a serial number stands the removal, null or a truth value, exactly unless a null or a truth value lies
      at the depth bound, where the remark on the depth is written. */
  lemma HiddenFieldShows(r: Rules, e: Entry, out: seq<Entry>, i: nat, depth: nat)
    requires depth <= MAX_DEPTH && i < |out| && StandsFor(r, e, out, i, depth) && (r.secret(e.key) || r.serial(e.key))
    ensures out[i].value in {Str(REMOVED), Null, Bool(true), Bool(false)}
       <==> !((e.value.Null? || e.value.Bool?) && depth == MAX_DEPTH)
    ensures (e.value.Null? || e.value.Bool?) && depth == MAX_DEPTH ==> out[i].value == Str(TOO_DEEP)
  {
    hide IsMarked;
    if e.value.Null? || e.value.Bool? {
      assert IsCopy(r, e.value, out[i].value, e.key, depth + 1);
      if e.value.Bool? { assert e.value.b || !e.value.b; }
    }
  }

  /** At the depth bound a null password is written as a remark on the depth. */
  lemma DeepNullIsRemarked(r: Rules)
    requires r.secret("password") && !r.raw("password")
    ensures
      var out := Transformed(r, Dict([Entry("password", Null)]), "", MAX_DEPTH);
      out.Dict? && |out.entries| == 1 && out.entries[0].value == Str(TOO_DEEP)
  {
    var e := Entry("password", Null);
    assert [e][..0] == [];
    assert Fields(r, [], MAX_DEPTH) == [];
    PlainStays(r, e.value, e.key, MAX_DEPTH + 1);
  }

  /** Every number in a tree. */
  function Numbers(v: Json): set<Json> {
    match v
    case Dict(entries) => set i, x | 0 <= i < |entries| && x in Numbers(entries[i].value) :: x
    case List(items) => set i, x | 0 <= i < |items| && x in Numbers(items[i]) :: x
    case Num(_, _) => {v}
    case _ => {}
  }

  /** A copy shows no number but finite ones of the original. */
  lemma {:induction false} OnlyItsNumbers(r: Rules, v: Json, out: Json, key: string, depth: nat)
    requires IsCopy(r, v, out, key, depth)
    ensures forall x :: x in Numbers(out) ==> x in Numbers(v) && x.Num? && x.finite
    decreases Room(depth)
  {
    hide IsMarked;
    if depth <= MAX_DEPTH && v.Dict? {
      var kept := if depth >= 1 && |v.entries| > MAX_DICT_KEYS then v.entries[..MAX_DICT_KEYS] else v.entries;
      forall i | 0 <= i < |out.entries|
        ensures forall x :: x in Numbers(out.entries[i].value) ==> x in Numbers(v) && x.Num? && x.finite
      {
        var e := Kept(r, kept)[i];
        assert StandsFor(r, e, out.entries, i, depth);
        KeptAre(r, kept);
        assert e in Kept(r, kept) && e in kept && e in v.entries;
        if out.entries[i].value != Str(REMOVED) { OnlyItsNumbers(r, e.value, out.entries[i].value, e.key, depth + 1); }
      }
    } else if depth <= MAX_DEPTH && v.List? {
      forall i | 0 <= i < |out.items|
        ensures forall x :: x in Numbers(out.items[i]) ==> x in Numbers(v) && x.Num? && x.finite
      {
        OnlyItsNumbers(r, v.items[i], out.items[i], key, depth + 1);
      }
    }
  }

  lemma {:induction false} KeptAre(r: Rules, entries: seq<Entry>)
    ensures forall e {:trigger e in Kept(r, entries)} :: e in Kept(r, entries) <==> e in entries && !r.raw(e.key)
  {
    if entries != [] {
      KeptAre(r, entries[..|entries| - 1]);
      assert entries == entries[..|entries| - 1] + [entries[|entries| - 1]];
    }
  }

  lemma PlainStays(r: Rules, v: Json, key: string, depth: nat)
    requires KeepsBool(v)
    ensures Transformed(r, v, key, depth) == if depth > MAX_DEPTH then Str(TOO_DEEP) else v
  {
  }

  // ------------------------------------------------------------------ what a hidden value can influence

  /** Two trees that agree except under raw fields, and under secret and serial-number fields. */
  ghost predicate SameButHidden(r: Rules, v: Json, w: Json)
    decreases v
  {
    match v
    case Dict(entries) =>
      && w.Dict? && |w.entries| == |entries|
      && forall i :: 0 <= i < |entries| ==>
           && entries[i].key == w.entries[i].key
           && (r.raw(entries[i].key) || (Hidden(r, entries[i]) && Hidden(r, w.entries[i]))
               || SameButHidden(r, entries[i].value, w.entries[i].value))
    case List(items) =>
      && w.List? && |w.items| == |items|
      && forall i :: 0 <= i < |items| ==> SameButHidden(r, items[i], w.items[i])
    case _ => v == w
  }

  /** With texts cleaned in one way, the copy does not depend on anything that stands in a raw, a secret or a serial-number
      field, at any depth. */
  lemma {:induction false} HiddenValuesHaveNoInfluence(r: Rules, v: Json, w: Json, key: string, depth: nat)
    requires SameButHidden(r, v, w)
    ensures Transformed(r, v, key, depth) == Transformed(r, w, key, depth)
    decreases Room(depth), 1, 0
  {
    if depth <= MAX_DEPTH && v.Dict? {
      var a, b := Trim(v.entries, MAX_DICT_KEYS, depth, 1), Trim(w.entries, MAX_DICT_KEYS, depth, 1);
      HiddenFieldsHaveNoInfluence(r, a, b, depth);
    } else if depth <= MAX_DEPTH && v.List? {
      var a, b := Trim(v.items, MAX_LIST_ITEMS, depth, 2), Trim(w.items, MAX_LIST_ITEMS, depth, 2);
      HiddenItemsHaveNoInfluence(r, a, b, key, depth);
    }
  }

  ghost predicate SameField(r: Rules, d: Entry, e: Entry) {
    && d.key == e.key
    && (r.raw(d.key) || (Hidden(r, d) && Hidden(r, e)) || SameButHidden(r, d.value, e.value))
  }

  lemma {:induction false} HiddenFieldsHaveNoInfluence(r: Rules, a: seq<Entry>, b: seq<Entry>, depth: nat)
    requires depth <= MAX_DEPTH && |a| == |b| && forall i :: 0 <= i < |a| ==> SameField(r, a[i], b[i])
    ensures Fields(r, a, depth) == Fields(r, b, depth)
    decreases Room(depth), 0, |a|
  {
    if a != [] {
      var n := |a| - 1;
      HiddenFieldsHaveNoInfluence(r, a[..n], b[..n], depth);
      assert SameField(r, a[n], b[n]);
      if SameButHidden(r, a[n].value, b[n].value) {
        HiddenValuesHaveNoInfluence(r, a[n].value, b[n].value, a[n].key, depth + 1);
        SameKind(r, a[n].value, b[n].value);
      }
    }
  }

  lemma SameKind(r: Rules, v: Json, w: Json)
    requires SameButHidden(r, v, w)
    ensures KeepsBool(v) <==> KeepsBool(w)
  {
  }

  lemma {:induction false} HiddenItemsHaveNoInfluence(r: Rules, a: seq<Json>, b: seq<Json>, key: string, depth: nat)
    requires depth <= MAX_DEPTH && |a| == |b| && forall i :: 0 <= i < |a| ==> SameButHidden(r, a[i], b[i])
    ensures Items(r, a, key, depth) == Items(r, b, key, depth)
    decreases Room(depth), 0, |a|
  {
    if a != [] {
      var n := |a| - 1;
      HiddenItemsHaveNoInfluence(r, a[..n], b[..n], key, depth);
      HiddenValuesHaveNoInfluence(r, a[n], b[n], key, depth + 1);
    }
  }

  /** What discovery found out about the members of a bundle. */
  datatype Learned = Learned(log: seq<Event>, secrets: set<string>)

  /** How texts are cleaned follows from what was learned. */
  datatype Program = Program(rules: Rules, cleaner: Learned -> (string, nat) -> string)

  function RulesAfter(p: Program, learned: Learned): Rules { p.rules.(clean := p.cleaner(learned)) }

  function LearnedFrom(r: Rules, tracked: set<string>, trees: seq<Json>): Learned {
    if trees == [] then Learned([], tracked)
    else
      var before, v := LearnedFrom(r, tracked, trees[..|trees| - 1]), trees[|trees| - 1];
      Learned(before.log + Log(r, v, "", 0), before.secrets + SecretsOf(r, v, 0))
  }

  function Copies(r: Rules, trees: seq<Json>): seq<Json> {
    seq(|trees|, i requires 0 <= i < |trees| => Transformed(r, trees[i], "", 0))
  }

  /** Discovers all members, then writes the copies of them and of the members that are built only after discovery. */
  method WriteMembers(p: Program, tracked: set<string>, trees: seq<Json>, late: seq<Json>) returns (copies: seq<Json>)
    ensures copies == Copies(RulesAfter(p, LearnedFrom(p.rules, tracked, trees)), trees + late)
    ensures forall i :: 0 <= i < |copies| ==>
              IsCopy(RulesAfter(p, LearnedFrom(p.rules, tracked, trees)), (trees + late)[i], copies[i], "", 0)
  {
    hide Log, SecretsOf, Transformed, IsCopy;
    var d := new Discovery(p.rules, tracked);
    for i := 0 to |trees|
      invariant Learned(d.log, d.secrets) == LearnedFrom(p.rules, tracked, trees[..i])
    {
      assert trees[..i + 1][..i] == trees[..i];
      d.Discover(trees[i], "", 0);
    }
    assert trees[..|trees|] == trees;
    var r, all := RulesAfter(p, Learned(d.log, d.secrets)), trees + late;
    copies := [];
    for i := 0 to |all|
      invariant |copies| == i && forall j :: 0 <= j < i ==> copies[j] == Transformed(r, all[j], "", 0)
      invariant forall j :: 0 <= j < i ==> IsCopy(r, all[j], copies[j], "", 0)
    {
      var copy := Transform(r, all[i], "", 0);
      copies := copies + [copy];
    }
  }

  /** Members that differ only in raw, secret and serial-number fields are copied alike, if the same was learned from them:
      hidden values count through the log and the collected values alone. */
  lemma HiddenValuesCountByWhatIsLearned(p: Program, tracked: set<string>, trees: seq<Json>, late: seq<Json>,
                                         trees': seq<Json>, late': seq<Json>)
    requires |trees| == |trees'| && |late| == |late'|
    requires LearnedFrom(p.rules, tracked, trees) == LearnedFrom(p.rules, tracked, trees')
    requires forall i :: 0 <= i < |trees| ==> SameButHidden(p.rules, trees[i], trees'[i])
    requires forall i :: 0 <= i < |late| ==> SameButHidden(p.rules, late[i], late'[i])
    ensures Copies(RulesAfter(p, LearnedFrom(p.rules, tracked, trees)), trees + late)
         == Copies(RulesAfter(p, LearnedFrom(p.rules, tracked, trees')), trees' + late')
  {
    hide Transformed, SameButHidden, LearnedFrom;
    var r := RulesAfter(p, LearnedFrom(p.rules, tracked, trees));
    var all, all' := trees + late, trees' + late';
    forall i | 0 <= i < |all| ensures Transformed(r, all[i], "", 0) == Transformed(r, all'[i], "", 0) {
      assert SameButHidden(p.rules, all[i], all'[i]);
      SameForAnyCleaner(p.rules, r, all[i], all'[i]);
      HiddenValuesHaveNoInfluence(r, all[i], all'[i], "", 0);
    }
  }

  lemma {:induction false} SameForAnyCleaner(r: Rules, s: Rules, v: Json, w: Json)
    requires s == r.(clean := s.clean) && SameButHidden(r, v, w)
    ensures SameButHidden(s, v, w)
    decreases v
  {
    match v
    case Dict(entries) =>
      forall i | 0 <= i < |entries| && SameButHidden(r, entries[i].value, w.entries[i].value)
        ensures SameButHidden(s, entries[i].value, w.entries[i].value)
      {
        SameForAnyCleaner(r, s, entries[i].value, w.entries[i].value);
      }
    case List(items) =>
      forall i | 0 <= i < |items| ensures SameButHidden(s, items[i], w.items[i]) {
        SameForAnyCleaner(r, s, items[i], w.items[i]);
      }
    case _ =>
  }

  /** The values that a copy withholds because of the name they stand under. */
  function Withheld(r: Rules, v: Json, depth: nat): set<string>
    decreases Room(depth), 1, 0
  {
    if depth > MAX_DEPTH then {}
    else
      match v
      case Dict(entries) => EntryWithheld(r, Trim(entries, MAX_DICT_KEYS, depth, 1), depth)
      case List(items) => ItemWithheld(r, Trim(items, MAX_LIST_ITEMS, depth, 2), depth)
      case _ => {}
  }

  function EntryWithheld(r: Rules, entries: seq<Entry>, depth: nat): set<string>
    requires depth <= MAX_DEPTH
    decreases Room(depth), 0, |entries|
  {
    if entries == [] then {}
    else
      var e := entries[|entries| - 1];
      EntryWithheld(r, entries[..|entries| - 1], depth)
      + if r.raw(e.key) then {}
        else if r.secret(e.key) && !KeepsBool(e.value) then Collected(r, e.value, 0)
        else if Hidden(r, e) then {}
        else Withheld(r, e.value, depth + 1)
  }

  function ItemWithheld(r: Rules, items: seq<Json>, depth: nat): set<string>
    requires depth <= MAX_DEPTH
    decreases Room(depth), 0, |items|
  {
    if items == [] then {}
    else ItemWithheld(r, items[..|items| - 1], depth) + Withheld(r, items[|items| - 1], depth + 1)
  }

  /** Whatever a copy withholds under a secret name was collected, to be removed from every other text. */
  lemma {:induction false} WithheldIsCollected(r: Rules, v: Json, depth: nat)
    ensures Withheld(r, v, depth) <= SecretsOf(r, v, depth)
    decreases Room(depth), 1, 0
  {
    if depth <= MAX_DEPTH && v.Dict? { EntryWithheldIsCollected(r, Trim(v.entries, MAX_DICT_KEYS, depth, 1), depth); }
    if depth <= MAX_DEPTH && v.List? { ItemWithheldIsCollected(r, Trim(v.items, MAX_LIST_ITEMS, depth, 2), depth); }
  }

  lemma {:induction false} EntryWithheldIsCollected(r: Rules, entries: seq<Entry>, depth: nat)
    requires depth <= MAX_DEPTH
    ensures EntryWithheld(r, entries, depth) <= EntrySecrets(r, entries, depth)
    decreases Room(depth), 0, |entries|
  {
    if entries != [] {
      EntryWithheldIsCollected(r, entries[..|entries| - 1], depth);
      WithheldIsCollected(r, entries[|entries| - 1].value, depth + 1);
    }
  }

  lemma {:induction false} ItemWithheldIsCollected(r: Rules, items: seq<Json>, depth: nat)
    requires depth <= MAX_DEPTH
    ensures ItemWithheld(r, items, depth) <= ItemSecrets(r, items, depth)
    decreases Room(depth), 0, |items|
  {
    if items != [] {
      ItemWithheldIsCollected(r, items[..|items| - 1], depth);
      WithheldIsCollected(r, items[|items| - 1], depth + 1);
    }
  }

  // ------------------------------------------------------------------ the two walks agree

  /** Every text in a tree, names and strings. */
  function Shown(v: Json): set<string> {
    match v
    case Dict(entries) => set i, s | 0 <= i < |entries| && s in {entries[i].key} + Shown(entries[i].value) :: s
    case List(items) => set i, s | 0 <= i < |items| && s in Shown(items[i]) :: s
    case Str(s) => {s}
    case _ => {}
  }

  /** The texts that the copy is made from for values that are not JSON: what lies within the bounds, and in no field that
      is dropped or hidden. */
  function WrittenOthers(r: Rules, v: Json, depth: nat): set<string>
    decreases Room(depth), 1, 0
  {
    if depth > MAX_DEPTH then {}
    else
      match v
      case Dict(entries) => EntryOthers(r, Trim(entries, MAX_DICT_KEYS, depth, 1), depth)
      case List(items) => ItemOthers(r, Trim(items, MAX_LIST_ITEMS, depth, 2), depth)
      case Other(text) => if |text| <= HARD_LIMIT then {text} else {}
      case _ => {}
  }

  function EntryOthers(r: Rules, entries: seq<Entry>, depth: nat): set<string>
    requires depth <= MAX_DEPTH
    decreases Room(depth), 0, |entries|
  {
    if entries == [] then {}
    else
      var e := entries[|entries| - 1];
      EntryOthers(r, entries[..|entries| - 1], depth)
      + if r.raw(e.key) || Hidden(r, e) then {} else WrittenOthers(r, e.value, depth + 1)
  }

  function ItemOthers(r: Rules, items: seq<Json>, depth: nat): set<string>
    requires depth <= MAX_DEPTH
    decreases Room(depth), 0, |items|
  {
    if items == [] then {}
    else ItemOthers(r, items[..|items| - 1], depth) + WrittenOthers(r, items[|items| - 1], depth + 1)
  }

  /** A text of the copy is a fixed remark or was made from one of the given texts. */
  ghost predicate MadeFrom(r: Rules, s: string, pool: set<string>) {
    || s == REMOVED || s == TOO_DEEP
    || (exists n, m :: s == r.omitted(n) + Hashes(m))
    || (exists x, limit, m :: x in pool && s == r.clean(x, limit) + Hashes(m))
  }

  ghost predicate AllMadeFrom(r: Rules, texts: set<string>, pool: set<string>) {
    forall s :: s in texts ==> MadeFrom(r, s, pool)
  }

  lemma MadeOf(r: Rules, text: string, limit: nat, m: nat, pool: set<string>)
    requires |text| > HARD_LIMIT || text in pool
    ensures MadeFrom(r, TextOf(r, text, limit) + Hashes(m), pool)
  {
    if |text| > HARD_LIMIT { assert TextOf(r, text, limit) == r.omitted(|text|); }
  }

  lemma MadePlainly(r: Rules, text: string, limit: nat, pool: set<string>)
    requires |text| > HARD_LIMIT || text in pool
    ensures MadeFrom(r, TextOf(r, text, limit), pool)
  {
    MadeOf(r, text, limit, 0, pool);
    assert TextOf(r, text, limit) + Hashes(0) == TextOf(r, text, limit);
  }

  lemma LargerPool(r: Rules, texts: set<string>, pool: set<string>, larger: set<string>)
    requires AllMadeFrom(r, texts, pool) && pool <= larger
    ensures AllMadeFrom(r, texts, larger)
  {
    forall s | s in texts ensures MadeFrom(r, s, larger) { assert MadeFrom(r, s, pool); }
  }

  /** Every name and string of the copy is a fixed remark, or was made from a text that discovery looked into, or from a
      value that is not JSON and is written. */
  lemma {:induction false} OnlyDiscoveredIsShown(r: Rules, v: Json, key: string, depth: nat)
    ensures AllMadeFrom(r, Shown(Transformed(r, v, key, depth)), Visits(v, depth) + WrittenOthers(r, v, depth))
    decreases Room(depth), 1, 0
  {
    var pool := Visits(v, depth) + WrittenOthers(r, v, depth);
    if depth > MAX_DEPTH { return; }
    match v
    case Dict(entries) =>
      var kept := Trim(entries, MAX_DICT_KEYS, depth, 1);
      OnlyDiscoveredFields(r, kept, depth, pool);
    case List(items) =>
      var kept := Trim(items, MAX_LIST_ITEMS, depth, 2);
      OnlyDiscoveredItems(r, kept, key, depth, pool);
    case Str(s) =>
      MadePlainly(r, s, if r.prose(key) then PROSE_LIMIT else TEXT_LIMIT, pool);
    case Other(text) =>
      MadePlainly(r, text, TEXT_LIMIT, pool);
    case _ =>
  }

  lemma {:induction false} OnlyDiscoveredFields(r: Rules, entries: seq<Entry>, depth: nat, pool: set<string>)
    requires depth <= MAX_DEPTH && EntryVisits(entries, depth) <= pool && EntryOthers(r, entries, depth) <= pool
    ensures AllMadeFrom(r, Shown(Dict(Fields(r, entries, depth))), pool)
    decreases Room(depth), 0, |entries|
  {
    if entries != [] {
      var init, e := entries[..|entries| - 1], entries[|entries| - 1];
      OnlyDiscoveredFields(r, init, depth, pool);
      if !r.raw(e.key) {
        var out := Fields(r, init, depth);
        var last := Fields(r, entries, depth)[|out|];
        MadeOf(r, e.key, KEY_LIMIT, HashesNeeded(TextOf(r, e.key, KEY_LIMIT), out, 0), pool);
        if !Hidden(r, e) {
          OnlyDiscoveredIsShown(r, e.value, e.key, depth + 1);
          LargerPool(r, Shown(Transformed(r, e.value, e.key, depth + 1)),
                     Visits(e.value, depth + 1) + WrittenOthers(r, e.value, depth + 1), pool);
        }
        ShownByOneMore(out, last);
      }
    }
  }

  lemma ShownByOneMore(out: seq<Entry>, last: Entry)
    ensures Shown(Dict(out + [last])) == Shown(Dict(out)) + {last.key} + Shown(last.value)
  {
    var more := out + [last];
    forall s ensures s in Shown(Dict(more)) <==> s in Shown(Dict(out)) + {last.key} + Shown(last.value) {
      if s in Shown(Dict(out)) {
        var i :| 0 <= i < |out| && s in {out[i].key} + Shown(out[i].value);
        assert more[i] == out[i];
      }
      if s in {last.key} + Shown(last.value) { assert more[|out|] == last; }
    }
  }

  lemma {:induction false} OnlyDiscoveredItems(r: Rules, items: seq<Json>, key: string, depth: nat, pool: set<string>)
    requires depth <= MAX_DEPTH && ItemVisits(items, depth) <= pool && ItemOthers(r, items, depth) <= pool
    ensures AllMadeFrom(r, Shown(List(Items(r, items, key, depth))), pool)
    decreases Room(depth), 0, |items|
  {
    if items != [] {
      var init, v := items[..|items| - 1], items[|items| - 1];
      OnlyDiscoveredItems(r, init, key, depth, pool);
      OnlyDiscoveredIsShown(r, v, key, depth + 1);
      LargerPool(r, Shown(Transformed(r, v, key, depth + 1)), Visits(v, depth + 1) + WrittenOthers(r, v, depth + 1), pool);
      ShownByOneItem(Items(r, init, key, depth), Transformed(r, v, key, depth + 1));
    }
  }

  lemma ShownByOneItem(out: seq<Json>, last: Json)
    ensures Shown(List(out + [last])) == Shown(List(out)) + Shown(last)
  {
    var more := out + [last];
    forall s ensures s in Shown(List(more)) <==> s in Shown(List(out)) + Shown(last) {
      if s in Shown(List(out)) {
        var i :| 0 <= i < |out| && s in Shown(out[i]);
        assert more[i] == out[i];
      }
      if s in Shown(last) { assert more[|out|] == last; }
    }
  }

  // ------------------------------------------------------------------ exactly when the walks agree

  /** What can reach a member was discovered, for one way of cleaning texts. */
  ghost predicate DiscoveredFor(r: Rules, clean: (string, nat) -> string, omitted: nat -> string, v: Json, key: string, depth: nat) {
    var s := r.(clean := clean, omitted := omitted);
    AllMadeFrom(s, Shown(Transformed(s, v, key, depth)), Visits(v, depth))
  }

  /** ... and for every way. */
  ghost predicate EverythingIsDiscovered(r: Rules, v: Json, key: string, depth: nat) {
    forall clean: (string, nat) -> string, omitted: nat -> string :: DiscoveredFor(r, clean, omitted, v, key, depth)
  }

  /** The promise holds of a tree exactly when every value that is not JSON and is written was discovered as a text
      elsewhere. */
  lemma DiscoveredExactly(r: Rules, v: Json, key: string, depth: nat)
    ensures EverythingIsDiscovered(r, v, key, depth) <==> WrittenOthers(r, v, depth) <= Visits(v, depth)
  {
    hide Visits, WrittenOthers, Transformed, Shown;
    if WrittenOthers(r, v, depth) <= Visits(v, depth) {
      forall clean: (string, nat) -> string, omitted: nat -> string ensures DiscoveredFor(r, clean, omitted, v, key, depth) {
        var s := r.(clean := clean, omitted := omitted);
        OnlyDiscoveredIsShown(s, v, key, depth);
        SameOthers(r, s, v, depth);
        assert Visits(v, depth) + WrittenOthers(s, v, depth) == Visits(v, depth);
      }
    } else {
      var x :| x in WrittenOthers(r, v, depth) && x !in Visits(v, depth);
      var s := r.(clean := TAG, omitted := REMARK);
      SameOthers(r, s, v, depth);
      OthersAreShown(s, v, key, depth, x);
      OnlyTaggedShowsIt(s, x, Visits(v, depth));
      assert !DiscoveredFor(r, TAG, REMARK, v, key, depth);
    }
  }

  /** A cleaner from whose output the text can be told. */
  const TAG: (string, nat) -> string := (x: string, limit: nat) => "=" + x + "."

  const REMARK: nat -> string := (n: nat) => "-"

  lemma OnlyTaggedShowsIt(r: Rules, x: string, pool: set<string>)
    requires r.clean == TAG && r.omitted == REMARK && x !in pool
    ensures !MadeFrom(r, "=" + x + ".", pool)
  {
    var s := "=" + x + ".";
    assert s[0] == '=' && s[|s| - 1] == '.';
    forall m ensures s != "-" + Hashes(m) { assert ("-" + Hashes(m))[0] == '-'; }
    forall y, limit, m | y in pool ensures s != r.clean(y, limit) + Hashes(m) {
      var t := "=" + y + ".";
      if m > 0 {
        assert (t + Hashes(m))[|t| + m - 1] == '#';
      } else {
        assert t + Hashes(0) == t && t[1..|t| - 1] == y && s[1..|s| - 1] == x;
      }
    }
  }

  /** What is written depends on the field names only, not on how texts are cleaned. */
  lemma {:induction false} SameOthers(r: Rules, s: Rules, v: Json, depth: nat)
    requires s == r.(clean := s.clean, omitted := s.omitted)
    ensures WrittenOthers(s, v, depth) == WrittenOthers(r, v, depth)
    decreases Room(depth), 1, 0
  {
    if depth <= MAX_DEPTH && v.Dict? { SameEntryOthers(r, s, Trim(v.entries, MAX_DICT_KEYS, depth, 1), depth); }
    if depth <= MAX_DEPTH && v.List? { SameItemOthers(r, s, Trim(v.items, MAX_LIST_ITEMS, depth, 2), depth); }
  }

  lemma {:induction false} SameEntryOthers(r: Rules, s: Rules, entries: seq<Entry>, depth: nat)
    requires s == r.(clean := s.clean, omitted := s.omitted) && depth <= MAX_DEPTH
    ensures EntryOthers(s, entries, depth) == EntryOthers(r, entries, depth)
    decreases Room(depth), 0, |entries|
  {
    if entries != [] {
      SameEntryOthers(r, s, entries[..|entries| - 1], depth);
      SameOthers(r, s, entries[|entries| - 1].value, depth + 1);
    }
  }

  lemma {:induction false} SameItemOthers(r: Rules, s: Rules, items: seq<Json>, depth: nat)
    requires s == r.(clean := s.clean, omitted := s.omitted) && depth <= MAX_DEPTH
    ensures ItemOthers(s, items, depth) == ItemOthers(r, items, depth)
    decreases Room(depth), 0, |items|
  {
    if items != [] {
      SameItemOthers(r, s, items[..|items| - 1], depth);
      SameOthers(r, s, items[|items| - 1], depth + 1);
    }
  }

  /** Each such text is in the copy, cleaned. */
  lemma {:induction false} OthersAreShown(r: Rules, v: Json, key: string, depth: nat, x: string)
    requires x in WrittenOthers(r, v, depth)
    ensures r.clean(x, TEXT_LIMIT) in Shown(Transformed(r, v, key, depth))
    decreases Room(depth), 1, 0
  {
    match v
    case Dict(entries) => EntryOthersAreShown(r, Trim(entries, MAX_DICT_KEYS, depth, 1), depth, x);
    case List(items) => ItemOthersAreShown(r, Trim(items, MAX_LIST_ITEMS, depth, 2), key, depth, x);
    case _ =>
  }

  lemma {:induction false} EntryOthersAreShown(r: Rules, entries: seq<Entry>, depth: nat, x: string)
    requires depth <= MAX_DEPTH && x in EntryOthers(r, entries, depth)
    ensures r.clean(x, TEXT_LIMIT) in Shown(Dict(Fields(r, entries, depth)))
    decreases Room(depth), 0, |entries|
  {
    var init, e := entries[..|entries| - 1], entries[|entries| - 1];
    if x in EntryOthers(r, init, depth) { EntryOthersAreShown(r, init, depth, x); }
    if !r.raw(e.key) {
      var out := Fields(r, init, depth);
      ShownByOneMore(out, Fields(r, entries, depth)[|out|]);
      if !Hidden(r, e) && x in WrittenOthers(r, e.value, depth + 1) { OthersAreShown(r, e.value, e.key, depth + 1, x); }
    }
  }

  lemma {:induction false} ItemOthersAreShown(r: Rules, items: seq<Json>, key: string, depth: nat, x: string)
    requires depth <= MAX_DEPTH && x in ItemOthers(r, items, depth)
    ensures r.clean(x, TEXT_LIMIT) in Shown(List(Items(r, items, key, depth)))
    decreases Room(depth), 0, |items|
  {
    var init, v := items[..|items| - 1], items[|items| - 1];
    if x in ItemOthers(r, init, depth) { ItemOthersAreShown(r, init, key, depth, x); }
    if x in WrittenOthers(r, v, depth + 1) { OthersAreShown(r, v, key, depth + 1, x); }
    ShownByOneItem(Items(r, init, key, depth), Transformed(r, v, key, depth + 1));
  }

  /** A value that is not JSON, such as a host name object under "note", is written without having been discovered. This is
      about the walk as a function of any value; the members of a bundle are projected to JSON before. */
  lemma UndiscoveredIsShown(r: Rules)
    requires !r.raw("note") && !r.secret("note") && !r.serial("note")
    ensures
      var v := Dict([Entry("note", Other("ws1"))]);
      var s := r.(clean := (x: string, limit: nat) => x, omitted := (n: nat) => "");
      && "ws1" in Shown(Transformed(s, v, "", 0)) && "ws1" !in Visits(v, 0)
      && !EverythingIsDiscovered(r, v, "", 0)
  {
    var e := Entry("note", Other("ws1"));
    var v := Dict([e]);
    var s := r.(clean := (x: string, limit: nat) => x, omitted := (n: nat) => "");
    assert [e][..0] == [];
    assert EntryOthers(s, [e], 0) == WrittenOthers(s, e.value, 1) == {"ws1"};
    assert EntryVisits([e], 0) == {"note"};
    assert WrittenOthers(s, v, 0) == {"ws1"};
    SameOthers(r, s, v, 0);
    OthersAreShown(s, v, "", 0, "ws1");
    DiscoveredExactly(r, v, "", 0);
  }
}
