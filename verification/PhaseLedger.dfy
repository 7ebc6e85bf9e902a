/** The phase state machine of a run, as a function of its operations
    (internal/restore/result.go). */
module PhaseLedger {
  import opened Wrappers
  import opened Nanoseconds
  import opened RestoreDomain

  datatype Status = Success | Failure
  datatype PhaseSummary = PhaseSummary(status: Status, duration: nat)
  datatype RecoveryStatus = NoRecovery | RecoverySuccess | RecoveryError

  datatype Ledger = Ledger(
    startAt: nat,
    currentPhase: Option<Phase>, currentPhaseStart: nat,
    nextPhase: nat, initialized: bool,
    failedPhase: Option<Phase>, firstErr: Option<Err>,
    recoveryErrs: seq<Err>, recoveryStatus: RecoveryStatus, recoveryAttempted: bool,
    phases: map<Phase, PhaseSummary>)

  function New(start: nat): Ledger {
    Ledger(start, None, 0, 0, false, None, None, [], NoRecovery, false, map[])
  }

  function Elapsed(start: nat, end: nat): nat {
    if end < start then 0 else end - start
  }

  // ----- the operations

  predicate RecoveryRequired(s: Ledger) {
    s.initialized && s.failedPhase.Some? && s.failedPhase != Some(Preflight) && !s.recoveryAttempted
  }

  function BeginError(s: Ledger, phase: Phase): Option<StateError> {
    if s.currentPhase.Some? then Some(AlreadyActive(s.currentPhase.value))
    else if s.failedPhase.Some? then
      if phase != Cleanup || !RecoveryRequired(s) then Some(AfterFailure(phase, s.failedPhase.value)) else None
    else if Index(phase) != s.nextPhase then Some(OutOfOrder(phase))
    else None
  }

  function Begin(s: Ledger, phase: Phase, at: nat): Ledger {
    if BeginError(s, phase).Some? then s
    else s.(currentPhase := Some(phase), currentPhaseStart := at,
            recoveryAttempted := s.recoveryAttempted || s.failedPhase.Some?)
  }

  predicate Recovering(s: Ledger, phase: Phase) {
    s.recoveryAttempted && phase == Cleanup
  }

  function CompleteError(s: Ledger): Option<StateError> {
    if s.currentPhase.None? then Some(NoneActive) else None
  }

  function Complete(s: Ledger, at: nat): Ledger {
    if s.currentPhase.None? then s
    else
      var phase := s.currentPhase.value;
      var closed := s.(currentPhase := None, currentPhaseStart := 0);
      if Recovering(s, phase) then closed.(recoveryStatus := RecoverySuccess)
      else closed.(phases := s.phases[phase := PhaseSummary(Success, Elapsed(s.currentPhaseStart, at))],
                   nextPhase := if Index(phase) == s.nextPhase then s.nextPhase + 1 else s.nextPhase)
  }

  function FailError(s: Ledger, phase: Phase): Option<StateError> {
    if s.currentPhase != Some(phase) then Some(NotActive(phase))
    else if !Recovering(s, phase) && s.failedPhase.Some? then Some(AlreadyFailed(s.failedPhase.value))
    else None
  }

  function RecordRecoveryError(s: Ledger, err: Err): Ledger {
    s.(recoveryStatus := RecoveryError, recoveryErrs := s.recoveryErrs + [err])
  }

  function Fail(s: Ledger, phase: Phase, at: nat, err: Err): Ledger {
    if s.currentPhase != Some(phase) then s
    else
      var closed := s.(currentPhase := None, currentPhaseStart := 0);
      if Recovering(s, phase) then RecordRecoveryError(closed, err)
      else
        var noted := closed.(phases := s.phases[phase := PhaseSummary(Failure, Elapsed(s.currentPhaseStart, at))]);
        if s.failedPhase.None? then noted.(failedPhase := Some(phase), firstErr := Some(err)) else noted
  }

  function DurationOf(s: Ledger, p: Phase): nat {
    if p in s.phases then s.phases[p].duration else 0
  }

  function FailCompleted(s: Ledger, phase: Phase, err: Err): Ledger {
    if s.failedPhase.Some? then RecordRecoveryError(s, err)
    else s.(failedPhase := Some(phase), firstErr := Some(err),
            phases := s.phases[phase := PhaseSummary(Failure, DurationOf(s, phase))])
  }

  // ----- what every reachable state looks like

  /** Before any failure: exactly the phases before nextPhase are done, all successfully. */
  ghost predicate Advancing(s: Ledger) {
    && s.firstErr.None? && s.recoveryErrs == [] && s.recoveryStatus == NoRecovery && !s.recoveryAttempted
    && (forall p: Phase :: p in s.phases <==> Index(p) < s.nextPhase)
    && (forall p: Phase :: p in s.phases ==> s.phases[p].status == Success)
    && (s.currentPhase.Some? ==> Index(s.currentPhase.value) == s.nextPhase)
  }

  /** After a failure: success up to the failed phase, the failure there, nothing later;
      and only recovery can be active. */
  ghost predicate Stopped(s: Ledger)
    requires s.failedPhase.Some?
  {
    var f := Index(s.failedPhase.value);
    && s.firstErr.Some?
    && (s.nextPhase == f || s.nextPhase == f + 1)
    && (forall p: Phase :: p in s.phases <==> Index(p) <= f)
    && (forall p: Phase :: p in s.phases ==> s.phases[p].status == if Index(p) < f then Success else Failure)
    && (s.currentPhase.Some? ==> s.currentPhase == Some(Cleanup) && s.recoveryAttempted)
    && (s.recoveryAttempted ==> s.initialized && s.failedPhase != Some(Preflight))
  }

  ghost predicate WellFormed(s: Ledger) {
    s.nextPhase <= |ORDER| && if s.failedPhase.None? then Advancing(s) else Stopped(s)
  }

  datatype Op =
    | BeginOp(phase: Phase, at: nat)
    | CompleteOp(at: nat)
    | FailOp(phase: Phase, at: nat, err: Err)
    | FailCompletedOp(phase: Phase, err: Err)
    | RecordRecoveryErrorOp(err: Err)
    | MarkInitializedOp

  function Apply(s: Ledger, op: Op): Ledger {
    match op
    case BeginOp(phase, at) => Begin(s, phase, at)
    case CompleteOp(at) => Complete(s, at)
    case FailOp(phase, at, err) => Fail(s, phase, at, err)
    case FailCompletedOp(phase, err) => FailCompleted(s, phase, err)
    case RecordRecoveryErrorOp(err) => RecordRecoveryError(s, err)
    case MarkInitializedOp => s.(initialized := true)
  }

  /** When the two unguarded operations may be used: a phase may be failed late only while
      none is active and it is the last completed phase or the one after it, and recovery
      errors may be recorded only after a failure. Everything else may be called at any time. */
  predicate Permitted(s: Ledger, op: Op) {
    match op
    case FailCompletedOp(phase, _) =>
      s.failedPhase.Some? || (s.currentPhase.None? && (Index(phase) + 1 == s.nextPhase || Index(phase) == s.nextPhase))
    case RecordRecoveryErrorOp(_) => s.failedPhase.Some?
    case _ => true
  }

  lemma IndexInjective(p: Phase, q: Phase)
    ensures Index(p) == Index(q) <==> p == q
  {
    assert ORDER[Index(p)] == p && ORDER[Index(q)] == q;
  }

  lemma CompletingShape(s: Ledger, at: nat)
    requires WellFormed(s)
    ensures WellFormed(Complete(s, at))
  {
    if s.currentPhase.Some? && !Recovering(s, s.currentPhase.value) {
      forall p: Phase
        ensures p in Complete(s, at).phases <==> Index(p) < s.nextPhase + 1
      {
        IndexInjective(p, s.currentPhase.value);
      }
    }
  }

  lemma FailingShape(s: Ledger, phase: Phase, at: nat, err: Err)
    requires WellFormed(s)
    ensures WellFormed(Fail(s, phase, at, err))
  {
    if s.currentPhase == Some(phase) && !Recovering(s, phase) {
      forall p: Phase
        ensures p in Fail(s, phase, at, err).phases <==> Index(p) <= s.nextPhase
      {
        IndexInjective(p, phase);
      }
    }
  }

  lemma LateFailureShape(s: Ledger, phase: Phase, err: Err)
    requires WellFormed(s) && s.failedPhase.None?
    ensures WellFormed(FailCompleted(s, phase, err)) <==>
      s.currentPhase.None? && (Index(phase) + 1 == s.nextPhase || Index(phase) == s.nextPhase)
  {
    var t := FailCompleted(s, phase, err);
    if s.currentPhase.None? && (Index(phase) + 1 == s.nextPhase || Index(phase) == s.nextPhase) {
      forall p: Phase
        ensures p in t.phases <==> Index(p) <= Index(phase)
      {
        IndexInjective(p, phase);
      }
    }
  }

  /** An operation keeps the shape exactly when it is permitted. */
  lemma ShapeKeptIff(s: Ledger, op: Op)
    requires WellFormed(s)
    ensures WellFormed(Apply(s, op)) <==> Permitted(s, op)
  {
    match op
    case CompleteOp(at) => CompletingShape(s, at);
    case FailOp(phase, at, err) => FailingShape(s, phase, at, err);
    case FailCompletedOp(phase, err) =>
      if s.failedPhase.None? {
        LateFailureShape(s, phase, err);
      }
    case _ =>
  }

  // ----- every run of operations

  function Run(s: Ledger, ops: seq<Op>): Ledger
    decreases |ops|
  {
    if ops == [] then s else Run(Apply(s, ops[0]), ops[1..])
  }

  predicate AllPermitted(s: Ledger, ops: seq<Op>)
    decreases |ops|
  {
    ops == [] || (Permitted(s, ops[0]) && AllPermitted(Apply(s, ops[0]), ops[1..]))
  }

  lemma {:induction false} RunKeepsShape(s: Ledger, ops: seq<Op>)
    requires WellFormed(s) && AllPermitted(s, ops)
    ensures WellFormed(Run(s, ops))
    decreases |ops|
  {
    if ops != [] {
      ShapeKeptIff(s, ops[0]);
      RunKeepsShape(Apply(s, ops[0]), ops[1..]);
    }
  }

  /** What a recorded failure fixes for good. */
  predicate SameFailure(s: Ledger, t: Ledger) {
    t.failedPhase == s.failedPhase && t.firstErr == s.firstErr && t.phases == s.phases && t.nextPhase == s.nextPhase
  }

  lemma FailureStep(s: Ledger, op: Op)
    requires WellFormed(s) && s.failedPhase.Some?
    ensures SameFailure(s, Apply(s, op))
  {
    if s.currentPhase.Some? {
      assert Recovering(s, s.currentPhase.value);
    }
  }

  /** The first failure is final: over any further operations the failed phase, its error
      and every recorded phase outcome stay as they are, recovery and all. */
  lemma {:induction false} FailureIsFinal(s: Ledger, ops: seq<Op>)
    requires WellFormed(s) && s.failedPhase.Some?
    ensures SameFailure(s, Run(s, ops))
    decreases |ops|
  {
    if ops != [] {
      ShapeKeptIff(s, ops[0]);
      FailureStep(s, ops[0]);
      FailureIsFinal(Apply(s, ops[0]), ops[1..]);
    }
  }

  predicate BeginsRecovery(s: Ledger, op: Op) {
    op.BeginOp? && BeginError(s, op.phase).None? && s.failedPhase.Some?
  }

  function RecoveryBegins(s: Ledger, ops: seq<Op>): nat
    decreases |ops|
  {
    if ops == [] then 0
    else (if BeginsRecovery(s, ops[0]) then 1 else 0) + RecoveryBegins(Apply(s, ops[0]), ops[1..])
  }

  /** Recovery begins at most once, as cleanup, and only after an initialised run failed
      outside preflight. */
  lemma {:induction false} RecoveryAtMostOnce(s: Ledger, ops: seq<Op>)
    ensures RecoveryBegins(s, ops) <= if s.recoveryAttempted then 0 else 1
    ensures ops != [] && BeginsRecovery(s, ops[0]) ==>
      ops[0].phase == Cleanup && s.initialized && s.failedPhase != Some(Preflight) && !s.recoveryAttempted
    decreases |ops|
  {
    if ops != [] {
      RecoveryAtMostOnce(Apply(s, ops[0]), ops[1..]);
    }
  }

  // ----- what the report says of a state

  datatype RowStatus = Succeeded | Failed | Skipped
  datatype Verdict = Incomplete | SuccessVerdict | FailureVerdict

  function RowOf(s: Ledger, p: Phase): RowStatus {
    if p !in s.phases then Skipped else if s.phases[p].status == Success then Succeeded else Failed
  }

  function VerdictOf(s: Ledger): Verdict {
    if s.failedPhase.Some? then FailureVerdict
    else if s.currentPhase.None? && s.nextPhase == |ORDER| then SuccessVerdict
    else Incomplete
  }

  /** The first k rows succeeded, row k failed if the run did, and the rest were skipped. */
  ghost predicate RowsCutAt(s: Ledger, k: nat) {
    forall p: Phase :: RowOf(s, p) ==
      if Index(p) < k then Succeeded else if Index(p) == k && s.failedPhase.Some? then Failed else Skipped
  }

  /** The rows read success* failure? skipped*, with a failure exactly at the failed phase. */
  lemma RowsShape(s: Ledger)
    requires WellFormed(s)
    ensures RowsCutAt(s, if s.failedPhase.Some? then Index(s.failedPhase.value) else s.nextPhase)
  {
    var k := if s.failedPhase.Some? then Index(s.failedPhase.value) else s.nextPhase;
    forall p: Phase
      ensures RowOf(s, p) ==
        if Index(p) < k then Succeeded else if Index(p) == k && s.failedPhase.Some? then Failed else Skipped
    {
      assert p in s.phases <==> if s.failedPhase.Some? then Index(p) <= k else Index(p) < k;
    }
  }

  /** The verdict is success exactly when all five phases succeeded. */
  lemma SuccessIffAllSucceeded(s: Ledger)
    requires WellFormed(s)
    ensures VerdictOf(s) == SuccessVerdict <==> forall p: Phase :: RowOf(s, p) == Succeeded
  {
    if s.nextPhase == |ORDER| && s.failedPhase.None? {
      assert s.currentPhase.None?;
    } else if s.failedPhase.None? {
      assert Index(ORDER[s.nextPhase]) == s.nextPhase;
      assert RowOf(s, ORDER[s.nextPhase]) == Skipped;
    } else {
      assert RowOf(s, s.failedPhase.value) == Failed;
    }
  }

  // ----- time

  /** Time recorded for the five phases together. */
  function Spent(s: Ledger): nat {
    DurationOf(s, Preflight) + DurationOf(s, Prepare) + DurationOf(s, Restore) + DurationOf(s, Verify) +
      DurationOf(s, Cleanup)
  }

  /** At time now, the recorded intervals are disjoint and lie inside the run. */
  predicate TimeOk(s: Ledger, now: nat) {
    s.startAt <= now && Spent(s) <= now - s.startAt
    && (s.currentPhase.Some? ==> s.startAt <= s.currentPhaseStart <= now && Spent(s) <= s.currentPhaseStart - s.startAt)
  }

  /** Durations are reported in truncated milliseconds. */
  function Ms(d: nat): nat {
    d / MILLISECOND
  }

  lemma MsAdds(a: nat, b: nat)
    ensures Ms(a) + Ms(b) <= Ms(a + b)
  {
  }

  predicate Timed(op: Op, t: nat) {
    (op.BeginOp? || op.CompleteOp? || op.FailOp?) ==> op.at == t
  }

  lemma SpentAdds(s: Ledger, t: Ledger, p: Phase, row: PhaseSummary)
    requires t.phases == s.phases[p := row]
    ensures Spent(t) == Spent(s) - DurationOf(s, p) + row.duration
  {
    assert DurationOf(t, p) == row.duration;
    assert forall q: Phase :: q != p ==> DurationOf(t, q) == DurationOf(s, q);
  }

  /** Closing the active phase, or failing one late, charges it no more than the time it took. */
  lemma ClosingKeepsTime(s: Ledger, op: Op, now: nat, t: nat)
    requires WellFormed(s) && TimeOk(s, now) && now <= t && Timed(op, t)
    requires op.CompleteOp? || op.FailOp? || op.FailCompletedOp?
    requires op.FailCompletedOp? && s.failedPhase.None? ==> s.currentPhase.None?
    ensures TimeOk(Apply(s, op), t)
  {
    var u := Apply(s, op);
    if op.FailCompletedOp? {
      if s.failedPhase.None? {
        SpentAdds(s, u, op.phase, u.phases[op.phase]);
      }
    } else if s.currentPhase.Some? && u.phases != s.phases {
      var phase := s.currentPhase.value;
      SpentAdds(s, u, phase, u.phases[phase]);
      assert DurationOf(s, phase) == 0;
    }
  }

  /** An operation at a time not before `now` keeps the accounts straight. */
  lemma TimeKept(s: Ledger, op: Op, now: nat, t: nat)
    requires WellFormed(s) && TimeOk(s, now) && now <= t && Timed(op, t)
    requires op.FailCompletedOp? && s.failedPhase.None? ==> s.currentPhase.None?
    ensures TimeOk(Apply(s, op), t)
  {
    if op.CompleteOp? || op.FailOp? || op.FailCompletedOp? {
      ClosingKeepsTime(s, op, now, t);
    }
  }

  // ----- a phase, and the recovery, from beginning to end

  /** Ready to begin the given phase, nothing having failed. */
  ghost predicate Ready(s: Ledger, phase: Phase, now: nat) {
    WellFormed(s) && s.failedPhase.None? && s.currentPhase.None? && s.nextPhase == Index(phase) && TimeOk(s, now)
  }

  /** Idle at time now, in a reachable state. */
  ghost predicate Idle(s: Ledger, now: nat) {
    WellFormed(s) && s.currentPhase.None? && TimeOk(s, now)
  }

  /** What running a phase leaves alone. */
  predicate SameRun(s: Ledger, t: Ledger) {
    t.startAt == s.startAt && t.initialized == s.initialized && t.recoveryErrs == s.recoveryErrs
    && t.recoveryStatus == s.recoveryStatus && t.recoveryAttempted == s.recoveryAttempted
  }

  lemma PhaseCompletes(s: Ledger, phase: Phase, now: nat, at: nat, end: nat)
    requires Ready(s, phase, now) && now <= at <= end
    ensures BeginError(s, phase).None?
    ensures var b := Begin(s, phase, at);
            var t := Complete(b, end);
            CompleteError(b).None? && Idle(t, end) && SameRun(s, t)
            && t.failedPhase.None? && t.firstErr.None? && t.nextPhase == s.nextPhase + 1
  {
    var b := Begin(s, phase, at);
    ShapeKeptIff(s, BeginOp(phase, at));
    TimeKept(s, BeginOp(phase, at), now, at);
    ShapeKeptIff(b, CompleteOp(end));
    TimeKept(b, CompleteOp(end), at, end);
  }

  lemma PhaseFails(s: Ledger, phase: Phase, now: nat, at: nat, end: nat, err: Err)
    requires Ready(s, phase, now) && now <= at <= end
    ensures var b := Begin(s, phase, at);
            var t := Fail(b, phase, end, err);
            FailError(b, phase).None? && Idle(t, end) && SameRun(s, t)
            && t.failedPhase == Some(phase) && t.firstErr == Some(err)
  {
    var b := Begin(s, phase, at);
    ShapeKeptIff(s, BeginOp(phase, at));
    TimeKept(s, BeginOp(phase, at), now, at);
    ShapeKeptIff(b, FailOp(phase, end, err));
    TimeKept(b, FailOp(phase, end, err), at, end);
  }

  /** Recovery that begins when it is required runs to its end, and changes nothing of the
      recorded failure. */
  lemma RecoveryRuns(s: Ledger, now: nat, at: nat, end: nat, err: Err)
    requires Idle(s, now) && RecoveryRequired(s) && now <= at <= end
    ensures BeginError(s, Cleanup).None?
    ensures var b := Begin(s, Cleanup, at);
            var t, u := Complete(b, end), Fail(b, Cleanup, end, err);
            && Idle(t, end) && SameFailure(s, t) && t.recoveryAttempted
            && t.startAt == s.startAt && Spent(t) == Spent(s)
            && t.recoveryStatus == RecoverySuccess && t.recoveryErrs == s.recoveryErrs
            && Idle(u, end) && SameFailure(s, u) && u.recoveryAttempted
            && u.startAt == s.startAt && Spent(u) == Spent(s)
            && u.recoveryStatus == RecoveryError && u.recoveryErrs == s.recoveryErrs + [err]
  {
    var b := Begin(s, Cleanup, at);
    ShapeKeptIff(s, BeginOp(Cleanup, at));
    TimeKept(s, BeginOp(Cleanup, at), now, at);
    ShapeKeptIff(b, CompleteOp(end));
    TimeKept(b, CompleteOp(end), at, end);
    ShapeKeptIff(b, FailOp(Cleanup, end, err));
    TimeKept(b, FailOp(Cleanup, end, err), at, end);
  }
}
