/** Client mode: which checks count as missing. A step that an observed failure blocked is explained; one that was blocked
    by something that did not answer is not. */
module ClientGaps {
  import opened Common
  import opened Client

  /** Why a step was skipped. `notClient`: the plan stopped because this host is not an IPA client. */
  datatype Skip = Privilege | NotApplicable | Stopped(notClient: bool) | Blocked(blocker: Option<Step>) | OtherReason

  datatype StepResult = StepResult(outcome: Outcome, skip: Skip)

  type Results = map<Step, StepResult>

  const MAX_BLOCKERS: nat := 20

  /** Follows the steps that blocked each other. */
  function UnexplainedGap(rs: Results, r: StepResult, depth: nat): bool
    decreases if depth > MAX_BLOCKERS then 0 else MAX_BLOCKERS + 1 - depth
  {
    if r.outcome == UNKNOWN then true
    else if r.outcome != SKIPPED || depth > MAX_BLOCKERS then false
    else
      match r.skip
      case Privilege => true
      case NotApplicable => true
      case Stopped(notClient) => !notClient
      case Blocked(b) => b.Some? && b.value in rs && UnexplainedGap(rs, rs[b.value], depth + 1)
      case OtherReason => false
  }

  /** A gap in itself: no answer, or not run for a reason other than a failure. */
  predicate OwnGap(r: StepResult) {
    r.outcome == UNKNOWN || (r.outcome == SKIPPED && (r.skip in {Privilege, NotApplicable} || r.skip == Stopped(false)))
  }

  function BlockerOf(rs: Results, r: StepResult): Option<StepResult> {
    if r.outcome == SKIPPED && r.skip.Blocked? && r.skip.blocker.Some? && r.skip.blocker.value in rs then Some(rs[r.skip.blocker.value])
    else None
  }

  /** The step reached after `n` blockers. */
  function Behind(rs: Results, r: StepResult, n: nat): Option<StepResult>
    decreases n
  {
    if n == 0 then Some(r) else if BlockerOf(rs, r).None? then None else Behind(rs, BlockerOf(rs, r).value, n - 1)
  }

  /** The step behind `n` blockers makes this one a gap. At the very end of the bound only a missing answer counts. */
  predicate GapBehind(rs: Results, r: StepResult, depth: nat, n: nat) {
    var b := Behind(rs, r, n);
    b.Some? && (if depth + n > MAX_BLOCKERS then b.value.outcome == UNKNOWN else OwnGap(b.value))
  }

  /** A step is a gap exactly when following its blockers reaches one, within the bound. */
  lemma {:induction false} GapExactly(rs: Results, r: StepResult, depth: nat)
    requires depth <= MAX_BLOCKERS + 1
    ensures UnexplainedGap(rs, r, depth) <==> exists n: nat :: depth + n <= MAX_BLOCKERS + 1 && GapBehind(rs, r, depth, n)
    decreases MAX_BLOCKERS + 1 - depth
  {
    var next := BlockerOf(rs, r);
    if depth <= MAX_BLOCKERS && next.Some? {
      GapExactly(rs, next.value, depth + 1);
      if n: nat :| depth + n <= MAX_BLOCKERS + 1 && GapBehind(rs, r, depth, n) {
        assert n > 0;
        assert GapBehind(rs, next.value, depth + 1, n - 1);
      }
      if UnexplainedGap(rs, r, depth) {
        var n: nat :| (depth + 1) + n <= MAX_BLOCKERS + 1 && GapBehind(rs, next.value, depth + 1, n);
        assert Behind(rs, r, n + 1) == Behind(rs, next.value, n);
        assert GapBehind(rs, r, depth, n + 1);
      }
    } else {
      assert GapBehind(rs, r, depth, 0) <==> UnexplainedGap(rs, r, depth);
      if n: nat :| depth + n <= MAX_BLOCKERS + 1 && GapBehind(rs, r, depth, n) { assert n == 0; }
    }
  }

  /** Steps that block each other without end are not a gap: none of them is one of its own. */
  lemma CirclesAreNoGap(rs: Results, r: StepResult)
    requires forall n: nat :: Behind(rs, r, n).Some? && BlockerOf(rs, Behind(rs, r, n).value).Some?
    ensures !UnexplainedGap(rs, r, 0)
  {
    GapExactly(rs, r, 0);
    forall n: nat ensures !GapBehind(rs, r, 0, n) { assert BlockerOf(rs, Behind(rs, r, n).value).Some?; }
  }
}
