/** What `verify` compares against: the saved baseline over any sequence of diagnose and verify runs. */
module Baseline {
  import opened Common
  import opened Engine

  /** A diagnosis as a report lists it: whether it is a primary or independent problem, and confidently diagnosed. */
  datatype Diag = Diag(id: string, pack: string, rule: string, root: bool, diagnosed: bool)

  /** What is saved of a fix that was shown. */
  datatype Fix = Fix(procedure: string, bindings: string, digest: string)

  /** A fresh report. `offered`: the diagnoses a fix is shown for, with the record to save for it; `errors`: the sources
      of the collection errors. */
  datatype Report = Report(
    host: string, replay: bool, diagnoses: seq<Diag>, errors: set<string>, healthcheckCollected: bool, complete: bool,
    offered: map<string, Option<Fix>>, status: OverallStatus)

  /** The saved state. `carried`: diagnoses kept only because a fix shown for them is not confirmed yet. */
  datatype Saved = Saved(
    host: string, replay: bool, diagnoses: seq<Diag>, carried: seq<Diag>, fixes: map<string, Fix>, offered: set<string>)

  /** What this version can diagnose, and which collectors each of its packs needs. */
  datatype Tool = Tool(known: string -> bool, collectors: string -> set<string>)

  /** The fresh read-only checks of a saved fix: rebuilt criteria and their results, `None` for one that could not run. */
  datatype FixCheck = CannotRebuild | TargetChanged | Checked(results: seq<Option<bool>>)

  datatype Outcome = RESOLVED | STILL_PRESENT | PARTIALLY_RESOLVED | UNABLE_TO_VERIFY | CHANGED

  datatype Item = Item(id: string, outcome: Outcome)

  function Ids(ds: seq<Diag>): (s: set<string>)
    ensures forall id {:trigger id in s} :: id in s <==> exists i :: 0 <= i < |ds| && ds[i].id == id
  {
    set i | 0 <= i < |ds| :: ds[i].id
  }

  /** The last entry with the id, as a dictionary built from the list keeps it. */
  function LastWith(ds: seq<Diag>, id: string): Option<Diag> {
    if ds == [] then None else if ds[|ds| - 1].id == id then Some(ds[|ds| - 1]) else LastWith(ds[..|ds| - 1], id)
  }

  function FirstWith(ds: seq<Diag>, id: string): Option<Diag> {
    if ds == [] then None else if ds[0].id == id then Some(ds[0]) else FirstWith(ds[1..], id)
  }

  lemma {:induction false} LastWithFinds(ds: seq<Diag>, id: string)
    ensures LastWith(ds, id).Some? <==> id in Ids(ds)
    ensures LastWith(ds, id).Some? ==> LastWith(ds, id).value.id == id && LastWith(ds, id).value in ds
  {
    if ds != [] {
      LastWithFinds(ds[..|ds| - 1], id);
      assert ds == ds[..|ds| - 1] + [ds[|ds| - 1]];
    }
  }

  lemma {:induction false} FirstWithFinds(ds: seq<Diag>, id: string)
    ensures FirstWith(ds, id).Some? <==> id in Ids(ds)
    ensures FirstWith(ds, id).Some? ==> FirstWith(ds, id).value.id == id
  {
    if ds != [] {
      FirstWithFinds(ds[1..], id);
      assert ds == [ds[0]] + ds[1..];
    }
  }

  // ------------------------------------------------------------------ the previous diagnoses

  /** Everything a verify answers for. */
  function PreviousIds(b: Saved): set<string> { Ids(b.diagnoses) + Ids(b.carried) }

  function Previous(b: Saved, id: string): Option<Diag> {
    if LastWith(b.diagnoses, id).Some? then LastWith(b.diagnoses, id) else FirstWith(b.carried, id)
  }

  method ReadPrevious(b: Saved) returns (byId: map<string, Diag>)
    ensures byId.Keys == PreviousIds(b)
    ensures forall id :: id in byId ==> Previous(b, id) == Some(byId[id])
  {
    byId := map[];
    for i := 0 to |b.diagnoses|
      invariant byId.Keys == Ids(b.diagnoses[..i])
      invariant forall id :: id in byId ==> LastWith(b.diagnoses[..i], id) == Some(byId[id])
    {
      assert b.diagnoses[..i + 1][..i] == b.diagnoses[..i];
      OneMore(b.diagnoses, i);
      byId := byId[b.diagnoses[i].id := b.diagnoses[i]];
    }
    assert b.diagnoses[..|b.diagnoses|] == b.diagnoses;
    ghost var saved := byId;
    for i := 0 to |b.carried|
      invariant byId.Keys == Ids(b.diagnoses) + Ids(b.carried[..i])
      invariant forall id :: id in saved ==> id in byId && byId[id] == saved[id]
      invariant forall id :: id in byId && id !in saved ==> FirstWith(b.carried[..i], id) == Some(byId[id])
    {
      OneMore(b.carried, i);
      forall id | id in byId && id !in saved ensures FirstWith(b.carried[..i + 1], id) == Some(byId[id]) {
        FirstStays(b.carried, i, id);
      }
      if b.carried[i].id !in byId {
        FirstAppears(b.carried, i);
        byId := byId[b.carried[i].id := b.carried[i]];
      }
    }
    assert b.carried[..|b.carried|] == b.carried;
    forall id | id in byId ensures Previous(b, id) == Some(byId[id]) { LastWithFinds(b.diagnoses, id); }
  }

  lemma OneMore(ds: seq<Diag>, i: nat)
    requires i < |ds|
    ensures Ids(ds[..i + 1]) == Ids(ds[..i]) + {ds[i].id}
  {
    assert ds[..i + 1] == ds[..i] + [ds[i]];
    forall id ensures id in Ids(ds[..i + 1]) <==> id in Ids(ds[..i]) + {ds[i].id} {
      if j :| 0 <= j < i && ds[..i][j].id == id { assert ds[..i + 1][j].id == id; }
      if id == ds[i].id { assert ds[..i + 1][i].id == id; }
    }
  }

  lemma {:induction false} FirstStays(ds: seq<Diag>, i: nat, id: string)
    requires i < |ds| && FirstWith(ds[..i], id).Some?
    ensures FirstWith(ds[..i + 1], id) == FirstWith(ds[..i], id)
  {
    if ds[0].id != id {
      assert ds[..i][1..] == ds[1..][..i - 1] && ds[..i + 1][1..] == ds[1..][..i];
      FirstStays(ds[1..], i - 1, id);
    }
  }

  lemma {:induction false} FirstAppears(ds: seq<Diag>, i: nat)
    requires i < |ds| && ds[i].id !in Ids(ds[..i])
    ensures FirstWith(ds[..i + 1], ds[i].id) == Some(ds[i])
  {
    if i > 0 {
      assert ds[..i][0].id in Ids(ds[..i]);
      assert ds[..i + 1][1..] == ds[1..][..i];
      assert ds[..i] == [ds[0]] + ds[1..][..i - 1];
      assert Ids(ds[1..][..i - 1]) <= Ids(ds[..i]);
      FirstAppears(ds[1..], i - 1);
    }
  }

  // ------------------------------------------------------------------ comparing with a fresh report

  predicate IsBlank(s: string) { forall i :: 0 <= i < |s| ==> IsSpace(s[i]) }

  /** The baseline is from this host and mode, and says which host it is from. */
  predicate Usable(b: Saved, r: Report) {
    && !(b.host != "" && r.host != "" && b.host != r.host)
    && b.replay == r.replay
    && !IsBlank(b.host)
  }

  predicate Contains(hay: string, needle: string) { exists i :: 0 <= i <= |hay| && needle <= hay[i..] }

  /** The full set of ipa-healthcheck checks was not run. */
  predicate HealthcheckMissing(r: Report) {
    !r.healthcheckCollected || exists e :: e in r.errors && StartsWith(e, "ipa-healthcheck-coverage")
  }

  predicate PackGap(tool: Tool, r: Report, pack: string) {
    pack != "" && ((exists e :: e in r.errors && Contains(e, pack)) || tool.collectors(pack) * r.errors != {})
  }

  predicate ChecksCrashed(r: Report) { exists d :: d in r.diagnoses && d.rule == "healthcheck-check-failed" }

  function FixOutcome(fix: Option<Fix>, check: Fix -> FixCheck): Outcome {
    if fix.None? then RESOLVED
    else
      match check(fix.value)
      case CannotRebuild => UNABLE_TO_VERIFY
      case TargetChanged => CHANGED
      case Checked(results) =>
        if results == [] || None in results then UNABLE_TO_VERIFY
        else if Some(false) !in results then RESOLVED
        else PARTIALLY_RESOLVED
  }

  function FixOf(b: Saved, id: string): Option<Fix> { if id in b.fixes then Some(b.fixes[id]) else None }

  function OutcomeOf(tool: Tool, b: Saved, r: Report, check: Fix -> FixCheck, id: string): Outcome
    requires Previous(b, id).Some?
  {
    var before, now := Previous(b, id).value, LastWith(r.diagnoses, id);
    if !Usable(b, r) then UNABLE_TO_VERIFY
    else if !tool.known(id) then UNABLE_TO_VERIFY
    else if HealthcheckMissing(r) || PackGap(tool, r, before.pack) then UNABLE_TO_VERIFY
    else if now.None? && ChecksCrashed(r) then UNABLE_TO_VERIFY
    else if now.None? && id in b.offered && id !in b.fixes then UNABLE_TO_VERIFY
    else if now.None? then FixOutcome(FixOf(b, id), check)
    else if before.root && !now.value.root then PARTIALLY_RESOLVED
    else if before.diagnosed && !now.value.diagnosed then PARTIALLY_RESOLVED
    else STILL_PRESENT
  }

  /** The baseline says which host it is from, and the report is of that host, if it says, and of the same mode. */
  ghost predicate Comparable(b: Saved, r: Report) {
    && (exists c :: c in b.host && !IsSpace(c))
    && (r.host == "" || r.host == b.host) && r.replay == b.replay
  }

  /** No collection error names the pack or one of its collectors. */
  ghost predicate Collected(tool: Tool, r: Report, pack: string) {
    pack == "" || forall e :: e in r.errors ==> e !in tool.collectors(pack) && !exists i :: Names(e, pack, i)
  }

  predicate Names(error: string, pack: string, i: nat) { i + |pack| <= |error| && error[i..i + |pack|] == pack }

  /** The baseline and the fresh evidence suffice to answer for this diagnosis: all checks were run, its pack was collected,
      and if it is gone then no check crashed, and of a fix that was shown for it the record is there. */
  ghost predicate Answerable(tool: Tool, b: Saved, r: Report, id: string)
    requires Previous(b, id).Some?
  {
    && Comparable(b, r) && tool.known(id) && Collected(tool, r, Previous(b, id).value.pack)
    && r.healthcheckCollected && (forall e :: e in r.errors ==> !("ipa-healthcheck-coverage" <= e))
    && (id !in Ids(r.diagnoses) ==>
          (forall d :: d in r.diagnoses ==> d.rule != "healthcheck-check-failed") && (id in b.offered ==> id in b.fixes))
  }

  lemma ComparableIs(b: Saved, r: Report)
    ensures Usable(b, r) <==> Comparable(b, r)
  {
    if !IsBlank(b.host) {
      var i :| 0 <= i < |b.host| && !IsSpace(b.host[i]);
      assert b.host[i] in b.host;
    }
  }

  lemma CollectedIs(tool: Tool, r: Report, pack: string)
    ensures PackGap(tool, r, pack) <==> !Collected(tool, r, pack)
  {
    forall e | e in r.errors ensures Contains(e, pack) <==> exists i :: Names(e, pack, i) {
      if i :| 0 <= i <= |e| && pack <= e[i..] { assert Names(e, pack, i); }
      if i: nat :| Names(e, pack, i) { assert pack <= e[i..]; }
    }
    if e :| e in tool.collectors(pack) * r.errors { assert e in r.errors; }
    if e :| e in r.errors && e in tool.collectors(pack) { assert e in tool.collectors(pack) * r.errors; }
  }

  /** The checks of the fix, if one was shown, could all be run. */
  predicate ChecksRun(c: FixCheck) { c.Checked? && c.results != [] && forall ok :: ok in c.results ==> ok.Some? }

  /** What the previous diagnosis and fresh evidence say about one diagnosis. */
  ghost predicate Deserves(tool: Tool, b: Saved, r: Report, check: Fix -> FixCheck, id: string, outcome: Outcome)
    requires Previous(b, id).Some?
  {
    var before, now := Previous(b, id).value, LastWith(r.diagnoses, id);
    var answerable, gone, fix := Answerable(tool, b, r, id), id !in Ids(r.diagnoses), id in b.fixes;
    match outcome
    case RESOLVED =>
      && answerable && gone
      && (fix ==> ChecksRun(check(b.fixes[id])) && forall ok :: ok in check(b.fixes[id]).results ==> ok.value)
    case STILL_PRESENT =>
      && answerable && now.Some? && (before.root ==> now.value.root) && (before.diagnosed ==> now.value.diagnosed)
    case PARTIALLY_RESOLVED =>
      && answerable
      && if now.Some? then (before.root && !now.value.root) || (before.diagnosed && !now.value.diagnosed)
         else fix && ChecksRun(check(b.fixes[id])) && Some(false) in check(b.fixes[id]).results
    case CHANGED => answerable && gone && fix && check(b.fixes[id]).TargetChanged?
    case UNABLE_TO_VERIFY =>
      !answerable || (gone && fix && !check(b.fixes[id]).TargetChanged? && !ChecksRun(check(b.fixes[id])))
  }

  /** Every outcome is reported exactly when it is deserved. */
  lemma OutcomesExactly(tool: Tool, b: Saved, r: Report, check: Fix -> FixCheck, id: string, outcome: Outcome)
    requires Previous(b, id).Some?
    ensures OutcomeOf(tool, b, r, check, id) == outcome <==> Deserves(tool, b, r, check, id, outcome)
  {
    hide Previous, Usable, Comparable, PackGap, Collected;
    ComparableIs(b, r);
    CollectedIs(tool, r, Previous(b, id).value.pack);
    LastWithFinds(r.diagnoses, id);
    if id in b.fixes && check(b.fixes[id]).Checked? { CheckResults(check(b.fixes[id]).results); }
  }

  lemma CheckResults(results: seq<Option<bool>>)
    ensures None !in results <==> forall ok :: ok in results ==> ok.Some?
    ensures None !in results ==> (Some(false) !in results <==> forall ok :: ok in results ==> ok.value)
  {
    forall ok | ok in results ensures ok in {None, Some(true), Some(false)} {
      if ok.Some? { assert ok.value || !ok.value; }
    }
  }

  /** A diagnosis is reported resolved exactly when fresh, sufficient evidence no longer shows it and every check of the
      fix that was shown for it passes. */
  lemma ResolvedExactly(tool: Tool, b: Saved, r: Report, check: Fix -> FixCheck, id: string)
    requires id in PreviousIds(b)
    ensures Previous(b, id).Some? && Previous(b, id).value.id == id
    ensures OutcomeOf(tool, b, r, check, id) == RESOLVED <==>
              && id !in Ids(r.diagnoses)
              && Usable(b, r) && tool.known(id) && !HealthcheckMissing(r) && !ChecksCrashed(r)
              && !PackGap(tool, r, Previous(b, id).value.pack)
              && (id in b.offered ==> id in b.fixes)
              && (id in b.fixes ==> check(b.fixes[id]).Checked? && check(b.fixes[id]).results != []
                                    && forall ok :: ok in check(b.fixes[id]).results ==> ok == Some(true))
  {
    PreviousFinds(b, id);
    hide Previous, Usable, Comparable, PackGap, Collected;
    ComparableIs(b, r);
    CollectedIs(tool, r, Previous(b, id).value.pack);
    OutcomesExactly(tool, b, r, check, id, RESOLVED);
    if id in b.fixes && check(b.fixes[id]).Checked? { CheckResults(check(b.fixes[id]).results); }
  }

  lemma PreviousFinds(b: Saved, id: string)
    requires id in PreviousIds(b)
    ensures Previous(b, id).Some? && Previous(b, id).value.id == id
  {
    LastWithFinds(b.diagnoses, id);
    FirstWithFinds(b.carried, id);
  }

  /** Fixes saved or shown for diagnoses that are not in the baseline. */
  function DamagedIds(b: Saved): set<string> { b.fixes.Keys + b.offered - PreviousIds(b) }

  ghost predicate AnswersEach(tool: Tool, b: Saved, r: Report, check: Fix -> FixCheck, items: seq<Item>, ids: set<string>) {
    && (forall id :: id in ids && id in PreviousIds(b) ==> AnswerIn(tool, b, r, check, items, id))
    && (forall id :: id in ids && id in DamagedIds(b) ==> Item(id, UNABLE_TO_VERIFY) in items)
    && (forall item {:trigger item in items} :: item in items ==> item.id in ids && Correct(tool, b, r, check, item))
  }

  ghost predicate AnswerIn(tool: Tool, b: Saved, r: Report, check: Fix -> FixCheck, items: seq<Item>, id: string) {
    Previous(b, id).Some? && Item(id, OutcomeOf(tool, b, r, check, id)) in items
  }

  predicate Correct(tool: Tool, b: Saved, r: Report, check: Fix -> FixCheck, item: Item) {
    || (item.id in PreviousIds(b) && Previous(b, item.id).Some? && item.outcome == OutcomeOf(tool, b, r, check, item.id))
    || (item.id in DamagedIds(b) && item.outcome == UNABLE_TO_VERIFY)
  }

  lemma NoAnswers(tool: Tool, b: Saved, r: Report, check: Fix -> FixCheck)
    ensures AnswersEach(tool, b, r, check, [], {})
  {
  }

  lemma OneMoreAnswer(tool: Tool, b: Saved, r: Report, check: Fix -> FixCheck, items: seq<Item>, ids: set<string>, item: Item)
    requires AnswersEach(tool, b, r, check, items, ids) && Correct(tool, b, r, check, item)
    ensures AnswersEach(tool, b, r, check, items + [item], ids + {item.id})
  {
    hide OutcomeOf, Previous;
    var more := items + [item];
    assert item in more && forall i :: i in items ==> i in more;
    forall id | id in ids && id in PreviousIds(b) ensures AnswerIn(tool, b, r, check, more, id) {
      assert AnswerIn(tool, b, r, check, items, id);
    }
  }

  predicate IsNewCondition(b: Saved, r: Report, d: Diag) {
    d.root && d.id !in PreviousIds(b) && LastWith(r.diagnoses, d.id) == Some(d)
  }

  /** One item for each previous diagnosis and for each damaged record, and the new root conditions. */
  method Compare(tool: Tool, b: Saved, r: Report, check: Fix -> FixCheck) returns (items: seq<Item>, news: seq<Diag>)
    ensures AnswersEach(tool, b, r, check, items, PreviousIds(b) + DamagedIds(b))
    // each previous diagnosis has exactly the outcome it deserves, and a damaged record none
    ensures forall item {:trigger item in items} :: item in items && item.id in PreviousIds(b) ==>
              Previous(b, item.id).Some? && Deserves(tool, b, r, check, item.id, item.outcome)
    ensures forall item {:trigger item in items} :: item in items && item.id !in PreviousIds(b) ==>
              (item.id in b.fixes || item.id in b.offered) && item.outcome == UNABLE_TO_VERIFY
    ensures forall d {:trigger d in news} :: d in news <==> IsNewCondition(b, r, d)
  {
    hide OutcomeOf, Previous, LastWith, AnswersEach, DamagedIds, Deserves;
    var byId := ReadPrevious(b);
    items := [];
    var todo := byId.Keys;
    NoAnswers(tool, b, r, check);
    assert byId.Keys - todo == {};
    while todo != {}
      invariant todo <= byId.Keys
      invariant AnswersEach(tool, b, r, check, items, byId.Keys - todo)
    {
      var id :| id in todo;
      ghost var was := todo;
      var item := Item(id, OutcomeOf(tool, b, r, check, id));
      OneMoreAnswer(tool, b, r, check, items, byId.Keys - todo, item);
      items := items + [item];
      todo := todo - {id};
      assert byId.Keys - todo == (byId.Keys - was) + {id};
    }
    todo := DamagedIds(b);
    assert byId.Keys - {} == byId.Keys + (DamagedIds(b) - todo);
    while todo != {}
      invariant todo <= DamagedIds(b)
      invariant AnswersEach(tool, b, r, check, items, byId.Keys + (DamagedIds(b) - todo))
    {
      var id :| id in todo;
      ghost var was := todo;
      OneMoreAnswer(tool, b, r, check, items, byId.Keys + (DamagedIds(b) - todo), Item(id, UNABLE_TO_VERIFY));
      items := items + [Item(id, UNABLE_TO_VERIFY)];
      todo := todo - {id};
      assert byId.Keys + (DamagedIds(b) - todo) == (byId.Keys + (DamagedIds(b) - was)) + {id};
    }
    assert byId.Keys + (DamagedIds(b) - todo) == PreviousIds(b) + DamagedIds(b);
    news := NewConditions(b, r);
    forall item | item in items
      ensures item.id in PreviousIds(b) ==> Previous(b, item.id).Some? && Deserves(tool, b, r, check, item.id, item.outcome)
      ensures item.id !in PreviousIds(b) ==> (item.id in b.fixes || item.id in b.offered) && item.outcome == UNABLE_TO_VERIFY
    {
      AnswerDeserved(tool, b, r, check, items, item);
    }
  }

  lemma AnswerDeserved(tool: Tool, b: Saved, r: Report, check: Fix -> FixCheck, items: seq<Item>, item: Item)
    requires AnswersEach(tool, b, r, check, items, PreviousIds(b) + DamagedIds(b)) && item in items
    ensures item.id in PreviousIds(b) ==> Previous(b, item.id).Some? && Deserves(tool, b, r, check, item.id, item.outcome)
    ensures item.id !in PreviousIds(b) ==> (item.id in b.fixes || item.id in b.offered) && item.outcome == UNABLE_TO_VERIFY
  {
    hide OutcomeOf, Previous, Deserves;
    if item.id in PreviousIds(b) {
      PreviousFinds(b, item.id);
      OutcomesExactly(tool, b, r, check, item.id, item.outcome);
    }
  }

  method NewConditions(b: Saved, r: Report) returns (news: seq<Diag>)
    ensures forall d {:trigger d in news} :: d in news <==> IsNewCondition(b, r, d)
  {
    news := [];
    for i := 0 to |r.diagnoses|
      invariant forall d {:trigger d in news} :: d in news <==> d in r.diagnoses[..i] && IsNewCondition(b, r, d)
    {
      var d := r.diagnoses[i];
      assert r.diagnoses[..i + 1] == r.diagnoses[..i] + [d];
      if d.root && d.id !in PreviousIds(b) && LastWith(r.diagnoses, d.id) == Some(d) { news := news + [d]; }
    }
    forall d | IsNewCondition(b, r, d) ensures d in r.diagnoses[..|r.diagnoses|] { LastWithFinds(r.diagnoses, d.id); }
  }

  // ------------------------------------------------------------------ what is carried into the next baseline

  /** A plain run checks a fix again when its diagnosis is gone: it is kept only while one of its checks still fails. */
  predicate StillUnfixed(fix: Fix, check: Fix -> FixCheck) {
    check(fix).Checked? && exists ok :: ok in check(fix).results && ok != Some(true)
  }

  /** The record of a fix shown earlier stays in the baseline. */
  predicate Carries(r: Report, confirmed: set<string>, check: Fix -> FixCheck, id: string, fix: Fix) {
    id !in r.offered && id !in confirmed && (id in Ids(r.diagnoses) || StillUnfixed(fix, check))
  }

  function CarriedFixes(previous: Option<Saved>, r: Report, confirmed: set<string>, check: Fix -> FixCheck): map<string, Fix> {
    if previous.None? || !Usable(previous.value, r) then map[]
    else
      var fixes := previous.value.fixes;
      map id | id in fixes && Carries(r, confirmed, check, id, fixes[id]) :: fixes[id]
  }

  method CarryForward(previous: Option<Saved>, r: Report, confirmed: set<string>, check: Fix -> FixCheck)
    returns (kept: map<string, Fix>)
    ensures kept == CarriedFixes(previous, r, confirmed, check)
  {
    kept := map[];
    if previous.None? || !Usable(previous.value, r) { return; }
    var fixes := previous.value.fixes;
    var todo := fixes.Keys;
    while todo != {}
      invariant todo <= fixes.Keys
      invariant kept == map id | id in fixes && id !in todo && Carries(r, confirmed, check, id, fixes[id]) :: fixes[id]
    {
      var id :| id in todo;
      todo := todo - {id};
      if id in r.offered || id in confirmed { continue; }
      if id !in Ids(r.diagnoses) && !StillUnfixed(fixes[id], check) { continue; }
      kept := kept[id := fixes[id]];
    }
  }

  /** The first entry of each wanted id. */
  function Picked(pool: seq<Diag>, wanted: set<string>): (out: seq<Diag>) {
    if pool == [] then []
    else
      var before, d := Picked(pool[..|pool| - 1], wanted), pool[|pool| - 1];
      if d.id in wanted && d.id !in Ids(before) then before + [d] else before
  }

  lemma {:induction false} PickedIds(pool: seq<Diag>, wanted: set<string>)
    ensures Ids(Picked(pool, wanted)) == wanted * Ids(pool)
  {
    if pool != [] {
      var before, d := Picked(pool[..|pool| - 1], wanted), pool[|pool| - 1];
      PickedIds(pool[..|pool| - 1], wanted);
      assert pool[..|pool|] == pool;
      OneMore(pool, |pool| - 1);
      if d.id in wanted && d.id !in Ids(before) {
        assert (before + [d])[..|before|] == before && (before + [d])[..|before| + 1] == before + [d];
        OneMore(before + [d], |before|);
      }
    }
  }

  /** Each entry picked is the first one of its id, and no id is picked twice. */
  lemma {:induction false} PickedAreFirst(pool: seq<Diag>, wanted: set<string>)
    ensures var out := Picked(pool, wanted);
            && (forall d {:trigger d in out} :: d in out ==> FirstWith(pool, d.id) == Some(d))
            && (forall i, j :: 0 <= i < j < |out| ==> out[i].id != out[j].id)
  {
    if pool != [] {
      var n := |pool| - 1;
      var before, d := Picked(pool[..n], wanted), pool[n];
      PickedAreFirst(pool[..n], wanted);
      PickedIds(pool[..n], wanted);
      assert pool[..n + 1] == pool;
      forall p | p in before ensures FirstWith(pool, p.id) == Some(p) { FirstStays(pool, n, p.id); }
      if d.id in wanted && d.id !in Ids(before) { FirstAppears(pool, n); }
    }
  }

  /** The saved entries of carried fixes whose diagnosis is not in this run's results. */
  function CarriedDiagnoses(previous: Option<Saved>, r: Report, carried: map<string, Fix>): seq<Diag> {
    if previous.None? then []
    else Picked(previous.value.diagnoses + previous.value.carried, carried.Keys - Ids(r.diagnoses))
  }

  method CarryDiagnoses(previous: Option<Saved>, r: Report, carried: map<string, Fix>) returns (out: seq<Diag>)
    ensures out == CarriedDiagnoses(previous, r, carried)
  {
    out := [];
    if previous.None? { return; }
    var wanted := carried.Keys - Ids(r.diagnoses);
    var pool := previous.value.diagnoses + previous.value.carried;
    var seen := {};
    for i := 0 to |pool|
      invariant out == Picked(pool[..i], wanted) && seen == Ids(out)
    {
      assert pool[..i + 1][..i] == pool[..i];
      var d := pool[i];
      if d.id in wanted && d.id !in seen {
        assert (out + [d])[..|out|] == out && (out + [d])[..|out| + 1] == out + [d];
        OneMore(out + [d], |out|);
        seen := seen + {d.id};
        out := out + [d];
      }
    }
    assert pool[..|pool|] == pool;
  }

  // ------------------------------------------------------------------ the runs

  /** Each run comes with its fresh report and the fresh checks of saved fixes. */
  datatype Run = Diagnose(r: Report, check: Fix -> FixCheck) | Verify(r: Report, check: Fix -> FixCheck)

  function ShownRecords(r: Report): map<string, Fix> {
    map id | id in r.offered && r.offered[id].Some? :: r.offered[id].value
  }

  /** An incomplete run leaves the saved state alone. */
  function SaveBaseline(state: Option<Saved>, r: Report, confirmed: set<string>, check: Fix -> FixCheck): Option<Saved> {
    if !r.healthcheckCollected then state
    else
      var carried := CarriedFixes(state, r, confirmed, check);
      Some(Saved(r.host, r.replay, r.diagnoses, CarriedDiagnoses(state, r, carried), ShownRecords(r) + carried,
                 r.offered.Keys))
  }

  /** Something was neither confirmed resolved nor found again: the old baseline stays. */
  ghost predicate KeepBaseline(tool: Tool, b: Saved, r: Report, check: Fix -> FixCheck) {
    exists id :: id !in Ids(r.diagnoses)
      && (id in DamagedIds(b) || (id in PreviousIds(b) && Previous(b, id).Some? && OutcomeOf(tool, b, r, check, id) != RESOLVED))
  }

  predicate IsConfirmed(tool: Tool, b: Saved, r: Report, check: Fix -> FixCheck, id: string) {
    Previous(b, id).Some? && OutcomeOf(tool, b, r, check, id) == RESOLVED
  }

  function Confirmed(tool: Tool, b: Saved, r: Report, check: Fix -> FixCheck): set<string> {
    set id | id in PreviousIds(b) && IsConfirmed(tool, b, r, check, id)
  }

  ghost function Next(tool: Tool, state: Option<Saved>, run: Run): Option<Saved> {
    match run
    case Diagnose(r, check) => SaveBaseline(state, r, {}, check)
    case Verify(r, check) =>
      if state.None? then SaveBaseline(state, r, {}, check)
      else if KeepBaseline(tool, state.value, r, check) then state
      else SaveBaseline(state, r, Confirmed(tool, state.value, r, check), check)
  }

  ghost function After(tool: Tool, state: Option<Saved>, runs: seq<Run>): Option<Saved> {
    if runs == [] then state else Next(tool, After(tool, state, runs[..|runs| - 1]), runs[|runs| - 1])
  }

  /** Fixes are shown only for diagnoses of the same report. */
  predicate WellFormed(r: Report) { r.offered.Keys <= Ids(r.diagnoses) }

  // ------------------------------------------------------------------ nothing damaged

  /** Every saved fix, and every fix shown, has its diagnosis in the baseline. */
  predicate Whole(state: Option<Saved>) { state.Some? ==> DamagedIds(state.value) == {} }

  lemma SaveKeepsWhole(state: Option<Saved>, r: Report, confirmed: set<string>, check: Fix -> FixCheck)
    requires Whole(state) && WellFormed(r)
    ensures Whole(SaveBaseline(state, r, confirmed, check))
  {
    if r.healthcheckCollected && state.Some? {
      var b := state.value;
      var carried := CarriedFixes(state, r, confirmed, check);
      PickedIds(b.diagnoses + b.carried, carried.Keys - Ids(r.diagnoses));
      IdsJoin(b.diagnoses, b.carried);
      assert carried.Keys <= b.fixes.Keys;
    }
  }

  lemma IdsJoin(a: seq<Diag>, b: seq<Diag>)
    ensures Ids(a + b) == Ids(a) + Ids(b)
  {
    forall id ensures id in Ids(a + b) <==> id in Ids(a) + Ids(b) {
      if i :| 0 <= i < |a| && a[i].id == id { assert (a + b)[i].id == id; }
      if i :| 0 <= i < |b| && b[i].id == id { assert (a + b)[|a| + i].id == id; }
    }
  }

  /** From an empty state, over any sequence of diagnose and verify runs: a saved fix is never without its diagnosis, so a
      verify never has to report the record as damaged. */
  lemma {:induction false} NoRunDamagesTheBaseline(tool: Tool, runs: seq<Run>)
    requires forall i :: 0 <= i < |runs| ==> WellFormed(runs[i].r)
    ensures Whole(After(tool, None, runs))
  {
    if runs != [] {
      var before := runs[..|runs| - 1];
      NoRunDamagesTheBaseline(tool, before);
      var state, run := After(tool, None, before), runs[|runs| - 1];
      SaveKeepsWhole(state, run.r, {}, run.check);
      if state.Some? { SaveKeepsWhole(state, run.r, Confirmed(tool, state.value, run.r, run.check), run.check); }
    }
  }

  // ------------------------------------------------------------------ nothing unresolved is lost

  /** After a verify a previous diagnosis is missing from the stored baseline exactly when it was reported resolved and
      everything else was resolved or found again. */
  lemma VerifyLosesOnlyResolved(tool: Tool, b: Saved, r: Report, check: Fix -> FixCheck, id: string)
    requires id in PreviousIds(b)
    ensures Previous(b, id).Some?
    ensures
      var next := Next(tool, Some(b), Verify(r, check));
      && next.Some?
      && (id !in PreviousIds(next.value)
          <==> OutcomeOf(tool, b, r, check, id) == RESOLVED && !KeepBaseline(tool, b, r, check))
  {
    ResolvedExactly(tool, b, r, check, id);
    if !KeepBaseline(tool, b, r, check) && r.healthcheckCollected {
      var carried := CarriedFixes(Some(b), r, Confirmed(tool, b, r, check), check);
      PickedIds(b.diagnoses + b.carried, carried.Keys - Ids(r.diagnoses));
      if OutcomeOf(tool, b, r, check, id) == RESOLVED { assert id in Confirmed(tool, b, r, check); }
    }
  }

  /** Why a run may drop the record of a fix shown earlier. */
  ghost predicate Releases(tool: Tool, b: Saved, run: Run, id: string)
    requires id in b.fixes
  {
    var r := run.r;
    && r.healthcheckCollected
    && (run.Verify? ==> !KeepBaseline(tool, b, r, run.check))
    && !(id in r.offered && r.offered[id].Some?)
    && (|| !Usable(b, r)
        || id in r.offered
        || (run.Verify? && IsConfirmed(tool, b, r, run.check, id))
        || (run.Diagnose? && id !in Ids(r.diagnoses)
            && (run.check(b.fixes[id]).Checked? ==> forall ok :: ok in run.check(b.fixes[id]).results ==> ok == Some(true))))
  }

  /** A run keeps a record for a fix unless it releases it: the one shown again, or else the old one. */
  lemma FixIsReleasedExactly(tool: Tool, b: Saved, run: Run, id: string)
    requires Whole(Some(b)) && id in b.fixes
    ensures
      var next := Next(tool, Some(b), run);
      && next.Some? && (id !in next.value.fixes <==> Releases(tool, b, run, id))
      && (id in next.value.fixes && next != Some(b) ==>
            next.value.fixes[id] == if id in run.r.offered && run.r.offered[id].Some? then run.r.offered[id].value else b.fixes[id])
  {
    var r, check := run.r, run.check;
    assert id in PreviousIds(b) by { assert id !in DamagedIds(b); }
    ResolvedExactly(tool, b, r, check, id);
    if run.Verify? && !KeepBaseline(tool, b, r, check) {
      assert id in Ids(r.diagnoses) || OutcomeOf(tool, b, r, check, id) == RESOLVED;
      assert id in Confirmed(tool, b, r, check) <==> IsConfirmed(tool, b, r, check, id);
    }
  }

  /** Over any runs a fix that was shown stays on record until one of them releases it. */
  lemma {:induction false} FixStaysUntilReleased(tool: Tool, b: Saved, runs: seq<Run>, id: string)
    requires Whole(Some(b)) && id in b.fixes && forall i :: 0 <= i < |runs| ==> WellFormed(runs[i].r)
    ensures
      var state := After(tool, Some(b), runs);
      || (state.Some? && Whole(state) && id in state.value.fixes)
      || exists i {:trigger runs[i]} :: 0 <= i < |runs| && ReleasedAt(tool, b, runs, i, id)
  {
    hide Next, Releases, Whole;
    if runs != [] {
      var before, run := runs[..|runs| - 1], runs[|runs| - 1];
      FixStaysUntilReleased(tool, b, before, id);
      var state := After(tool, Some(b), before);
      if i :| 0 <= i < |before| && ReleasedAt(tool, b, before, i, id) {
        assert before[..i] == runs[..i];
        assert ReleasedAt(tool, b, runs, i, id) && runs[i] == before[i];
      } else {
        FixIsReleasedExactly(tool, state.value, run, id);
        if Releases(tool, state.value, run, id) {
          assert ReleasedAt(tool, b, runs, |before|, id);
        } else {
          NextIsWhole(tool, state, run);
        }
      }
    }
  }

  ghost predicate ReleasedAt(tool: Tool, b: Saved, runs: seq<Run>, i: nat, id: string)
    requires i < |runs|
  {
    var state := After(tool, Some(b), runs[..i]);
    state.Some? && id in state.value.fixes && Releases(tool, state.value, runs[i], id)
  }

  lemma NextIsWhole(tool: Tool, state: Option<Saved>, run: Run)
    requires Whole(state) && WellFormed(run.r)
    ensures Whole(Next(tool, state, run))
  {
    SaveKeepsWhole(state, run.r, {}, run.check);
    if state.Some? { SaveKeepsWhole(state, run.r, Confirmed(tool, state.value, run.r, run.check), run.check); }
  }

  /** On another host a verify can drop a record without having checked the fix: the same diagnosis is found there too, so
      nothing keeps the old baseline. */
  lemma VerifyElsewhereForgetsTheFix(tool: Tool, d: Diag, fix: Fix, check: Fix -> FixCheck)
    ensures
      var b := Saved("ipa1", false, [d], [], map[d.id := fix], {d.id});
      var r := Report("ipa2", false, [d], {}, true, true, map[], DEGRADED);
      var next := Next(tool, Some(b), Verify(r, check));
      && Previous(b, d.id).Some? && OutcomeOf(tool, b, r, check, d.id) == UNABLE_TO_VERIFY
      && next.Some? && d.id !in next.value.fixes
  {
    var b := Saved("ipa1", false, [d], [], map[d.id := fix], {d.id});
    var r := Report("ipa2", false, [d], {}, true, true, map[], DEGRADED);
    assert "ipa1"[0] == 'i';
    assert [d][0].id in Ids([d]);
    assert LastWith([d], d.id) == Some(d);
    assert PreviousIds(b) <= {d.id};
    assert !KeepBaseline(tool, b, r, check);
  }

  /** A run that saves stores what it found: a verify against it on the same host and in the same mode, whose fresh
      evidence is the same and has no gap, finds every diagnosis still present. */
  lemma SavedIsFoundAgain(tool: Tool, state: Option<Saved>, r: Report, check: Fix -> FixCheck, check': Fix -> FixCheck, id: string)
    requires id in Ids(r.diagnoses) && tool.known(id) && !IsBlank(r.host) && !HealthcheckMissing(r)
    requires forall d :: d in r.diagnoses && d.id == id ==> !PackGap(tool, r, d.pack)
    ensures
      var next := Next(tool, state, Diagnose(r, check));
      && next.Some? && next.value.host == r.host && next.value.replay == r.replay && next.value.diagnoses == r.diagnoses
      && next.value.offered == r.offered.Keys
      && Previous(next.value, id).Some? && Previous(next.value, id) == LastWith(r.diagnoses, id)
      && Deserves(tool, next.value, r, check', id, STILL_PRESENT)
  {
    LastWithFinds(r.diagnoses, id);
    CollectedIs(tool, r, LastWith(r.diagnoses, id).value.pack);
    ComparableIs(Next(tool, state, Diagnose(r, check)).value, r);
  }

  // ------------------------------------------------------------------ the exit code

  function ExitCodeFor(status: OverallStatus): nat {
    match status
    case HEALTHY => 0
    case DEGRADED => 1
    case CRITICAL_STATUS => 2
    case UNKNOWN_STATUS => 3
    case NOT_FULLY_VERIFIED => 4
  }

  class Cli {
    var saved: Option<Saved>
    const tool: Tool

    constructor (tool: Tool)
      ensures saved == None && this.tool == tool
    {
      saved := None;
      this.tool := tool;
    }

    method Save(r: Report, confirmed: set<string>, check: Fix -> FixCheck)
      modifies this
      ensures saved == SaveBaseline(old(saved), r, confirmed, check)
    {
      if r.healthcheckCollected {
        var carried := CarryForward(saved, r, confirmed, check);
        var diagnoses := CarryDiagnoses(saved, r, carried);
        saved := Some(Saved(r.host, r.replay, r.diagnoses, diagnoses, ShownRecords(r) + carried, r.offered.Keys));
      }
    }

    method CmdDiagnose(r: Report, check: Fix -> FixCheck) returns (code: nat)
      modifies this
      ensures saved == Next(tool, old(saved), Diagnose(r, check)) && code == ExitCodeFor(r.status)
      ensures (code == 0 <==> r.status == HEALTHY) && (code == 1 <==> r.status == DEGRADED) && (code == 2 <==> r.status == CRITICAL_STATUS)
      ensures (code == 3 <==> r.status == UNKNOWN_STATUS) && (code == 4 <==> r.status == NOT_FULLY_VERIFIED)
    {
      Save(r, {}, check);
      code := ExitCodeFor(r.status);
    }

    /** Exit code 0 says: everything found before is resolved, nothing new was found, and the evidence is complete. */
    method CmdVerify(r: Report, check: Fix -> FixCheck) returns (code: nat)
      modifies this
      ensures saved == Next(tool, old(saved), Verify(r, check))
      ensures old(saved).None? ==> code == ExitCodeFor(r.status)
      ensures old(saved).Some? ==>
                (code == 0 <==>
                  && r.status == HEALTHY && r.complete && DamagedIds(old(saved).value) == {}
                  && (forall id :: id in PreviousIds(old(saved).value) ==> IsConfirmed(tool, old(saved).value, r, check, id))
                  && !exists d :: IsNewCondition(old(saved).value, r, d))
      // a problem that remains is told by the fresh status or 1; if none does, a verification that is incomplete by 4
      ensures old(saved).Some? ==>
                var b := old(saved).value;
                var remains := (exists d :: IsNewCondition(b, r, d)) || AnyDeserves(tool, b, r, check, {STILL_PRESENT, PARTIALLY_RESOLVED});
                var unsure := !r.complete || DamagedIds(b) != {} || AnyDeserves(tool, b, r, check, {UNABLE_TO_VERIFY, CHANGED});
                code == if remains then (match r.status
                                         case CRITICAL_STATUS => 2
                                         case UNKNOWN_STATUS => 3
                                         case _ => 1)
                        else if unsure then 4
                        else ExitCodeFor(r.status)
    {
      hide AnyDeserves, Deserves, AnswersEach, OutcomeOf, Previous, IsNewCondition, IsConfirmed, KeepBaseline, SaveBaseline,
           Confirmed, PreviousIds, DamagedIds, ExitCodeFor;
      if saved.None? {
        Save(r, {}, check);
        return ExitCodeFor(r.status);
      }
      var b := saved.value;
      var items, news := Compare(tool, b, r, check);
      var found := Ids(r.diagnoses);
      KeptExactly(tool, b, r, check, items);
      if !(exists item :: item in items && item.outcome != RESOLVED && item.id !in found) {
        var confirmed := set item | item in items && item.outcome == RESOLVED :: item.id;
        ConfirmedExactly(tool, b, r, check, items);
        Save(r, confirmed, check);
      }
      AllResolvedExactly(tool, b, r, check, items);
      OutcomesAmong(tool, b, r, check, items, {STILL_PRESENT, PARTIALLY_RESOLVED});
      OutcomesAmong(tool, b, r, check, items, {UNABLE_TO_VERIFY, CHANGED});
      code := VerifyCode(r, items, news);
      assert news != [] <==> exists d :: IsNewCondition(b, r, d) by {
        if news != [] { assert news[0] in news && IsNewCondition(b, r, news[0]); }
        if d :| IsNewCondition(b, r, d) { assert d in news; }
      }
    }
  }

  method VerifyCode(r: Report, items: seq<Item>, news: seq<Diag>) returns (code: nat)
    ensures code == 0 <==>
              r.status == HEALTHY && r.complete && news == [] && forall item :: item in items ==> item.outcome == RESOLVED
    // a problem remains; or the verification is incomplete; or the fresh report decides
    ensures var remains := news != [] || exists item :: item in items && item.outcome in {STILL_PRESENT, PARTIALLY_RESOLVED};
            var unsure := !r.complete || exists item :: item in items && item.outcome in {UNABLE_TO_VERIFY, CHANGED};
            code == if remains then (match r.status
                                     case CRITICAL_STATUS => 2
                                     case UNKNOWN_STATUS => 3
                                     case _ => 1)
                    else if unsure then 4
                    else ExitCodeFor(r.status)
  {
    code := ExitCodeFor(r.status);
    if (exists item :: item in items && item.outcome in {STILL_PRESENT, PARTIALLY_RESOLVED}) || news != [] {
      code := if code in {1, 2, 3} then code else 1;
    } else if (exists item :: item in items && item.outcome in {UNABLE_TO_VERIFY, CHANGED}) || !r.complete {
      code := 4;
    }
  }

  /** Some previous diagnosis has one of these outcomes. */
  ghost predicate AnyDeserves(tool: Tool, b: Saved, r: Report, check: Fix -> FixCheck, outcomes: set<Outcome>) {
    exists id, o :: id in PreviousIds(b) && o in outcomes && Previous(b, id).Some? && Deserves(tool, b, r, check, id, o)
  }

  lemma OutcomesAmong(tool: Tool, b: Saved, r: Report, check: Fix -> FixCheck, items: seq<Item>, outcomes: set<Outcome>)
    requires AnswersEach(tool, b, r, check, items, PreviousIds(b) + DamagedIds(b))
    ensures (exists item :: item in items && item.outcome in outcomes) <==>
              AnyDeserves(tool, b, r, check, outcomes) || (UNABLE_TO_VERIFY in outcomes && DamagedIds(b) != {})
  {
    hide OutcomeOf, Previous, Deserves;
    if item :| item in items && item.outcome in outcomes {
      AnswerDeserved(tool, b, r, check, items, item);
    }
    if id, o :| id in PreviousIds(b) && o in outcomes && Previous(b, id).Some? && Deserves(tool, b, r, check, id, o) {
      OutcomesExactly(tool, b, r, check, id, o);
      assert AnswerIn(tool, b, r, check, items, id);
      assert Item(id, o) in items;
    }
    if UNABLE_TO_VERIFY in outcomes && DamagedIds(b) != {} {
      var id :| id in DamagedIds(b);
      assert Item(id, UNABLE_TO_VERIFY) in items;
    }
  }

  lemma KeptExactly(tool: Tool, b: Saved, r: Report, check: Fix -> FixCheck, items: seq<Item>)
    requires AnswersEach(tool, b, r, check, items, PreviousIds(b) + DamagedIds(b))
    ensures KeepBaseline(tool, b, r, check)
       <==> exists item :: item in items && item.outcome != RESOLVED && item.id !in Ids(r.diagnoses)
  {
    hide OutcomeOf, Previous;
    if KeepBaseline(tool, b, r, check) {
      var id :| id !in Ids(r.diagnoses)
        && (id in DamagedIds(b) || (id in PreviousIds(b) && Previous(b, id).Some? && OutcomeOf(tool, b, r, check, id) != RESOLVED));
      if id in DamagedIds(b) {
        assert Item(id, UNABLE_TO_VERIFY) in items;
      } else {
        assert AnswerIn(tool, b, r, check, items, id);
      }
    }
  }

  lemma ConfirmedExactly(tool: Tool, b: Saved, r: Report, check: Fix -> FixCheck, items: seq<Item>)
    requires AnswersEach(tool, b, r, check, items, PreviousIds(b) + DamagedIds(b))
    ensures (set item | item in items && item.outcome == RESOLVED :: item.id) == Confirmed(tool, b, r, check)
  {
    hide OutcomeOf, Previous;
    forall id | id in Confirmed(tool, b, r, check)
      ensures id in set item | item in items && item.outcome == RESOLVED :: item.id
    {
      assert AnswerIn(tool, b, r, check, items, id);
      assert Item(id, RESOLVED) in items;
    }
  }

  lemma AllResolvedExactly(tool: Tool, b: Saved, r: Report, check: Fix -> FixCheck, items: seq<Item>)
    requires AnswersEach(tool, b, r, check, items, PreviousIds(b) + DamagedIds(b))
    ensures (forall item :: item in items ==> item.outcome == RESOLVED)
       <==> DamagedIds(b) == {} && forall id :: id in PreviousIds(b) ==> IsConfirmed(tool, b, r, check, id)
  {
    hide OutcomeOf, Previous;
    if forall item :: item in items ==> item.outcome == RESOLVED {
      forall id | id in PreviousIds(b) ensures IsConfirmed(tool, b, r, check, id) {
        assert AnswerIn(tool, b, r, check, items, id);
      }
      assert forall id :: id in DamagedIds(b) ==> Item(id, UNABLE_TO_VERIFY) in items;
    }
  }
}
