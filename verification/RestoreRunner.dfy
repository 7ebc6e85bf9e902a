/** The restore-test workflow: phases, recovery and the deferred removal of the dump
    (internal/restore/runner.go). Logging, and the clock readings made only for it, are
    not modelled. */
module RestoreRunner {
  import opened Wrappers
  import opened RestoreDomain
  import opened PhaseLedger
  import opened RestoreScript
  import opened RestoreWorld
  import opened ExecutionRecord
  import opened RunClock

  /** The files staged now are those before, plus the dump's own file if there is one. */
  predicate Owns(files: set<string>, before: set<string>, dump: Option<Dump>) {
    if dump.None? then files == before
    else dump.value.path != "" && dump.value.path !in before && files == before + {dump.value.path}
  }

  /** The error of the dump's removal in a run's trace, if it was tried and failed. */
  function RemovalError(t: seq<Call>, k: nat): Option<Err> {
    if k < |t| then t[k].err else None
  }

  /** The calls went through, or stopped at the mandatory one that failed with this cause. */
  predicate Ended(calls: seq<Call>, effects: seq<Effect>, cause: Option<Err>) {
    if cause.None? then Performed(calls, effects) else CutShort(calls, effects) && calls[|calls| - 1].err == cause
  }

  /** Only fetching touches the staged files: it stages one new file and holds it, or, unless
      removing a partial file was refused, leaves them as they were. */
  predicate Staged(fetching: bool, before: set<string>, refusedBefore: bool, dump: Option<Dump>,
                   files: set<string>, refused: bool, newDump: Option<Dump>, err: Option<Err>)
  {
    && (refusedBefore ==> refused)
    && (!fetching ==> newDump == dump && files == before && refused == refusedBefore)
    && (fetching && dump.None? ==>
        (newDump.Some? <==> err.None?) && (newDump.Some? || !refused ==> Owns(files, before, newDump)))
  }

  /** While the steps go through, only a download, which comes last, has touched the files. */
  predicate StagedSoFar(fetched: bool, before: set<string>, refusedBefore: bool, dump: Option<Dump>,
                        files: set<string>, refused: bool, held: Option<Dump>)
  {
    && (refusedBefore ==> refused)
    && if fetched then dump.None? ==> held.Some? && Owns(files, before, held)
       else held == dump && files == before && refused == refusedBefore
  }

  predicate EndsInDownload(steps: seq<Step>) {
    steps != [] && steps[|steps| - 1] == Download
  }

  lemma StagedStep(steps: seq<Step>, i: nat, before: set<string>, refusedBefore: bool, dump: Option<Dump>,
                   files: set<string>, refused: bool, held: Option<Dump>,
                   files': set<string>, refused': bool, newDump: Option<Dump>, cause: Option<Err>)
    requires i < |steps| && forall j :: 0 <= j < |steps| - 1 ==> steps[j] != Download
    requires StagedSoFar(false, before, refusedBefore, dump, files, refused, held)
    requires Staged(steps[i] == Download, files, refused, held, files', refused', newDump, cause)
    ensures cause.None? ==>
      StagedSoFar(i + 1 == |steps| && EndsInDownload(steps), before, refusedBefore, dump, files', refused', newDump)
    ensures cause.Some? ==>
      Staged(EndsInDownload(steps), before, refusedBefore, dump, files', refused', newDump, cause)
  {
  }

  /** The state tells how the phase ended: done, or failed with the error of one of its steps. */
  predicate PhaseRecorded(s: Ledger, s': Ledger, phase: Phase, err: Option<Err>) {
    && s'.firstErr == err
    && s'.failedPhase == (if err.None? then None else Some(phase))
    && (err.None? ==> s'.nextPhase == s.nextPhase + 1)
    && (err.Some? ==> err.value.StepFailed? && err.value.phase == phase)
  }

  /** Step number i makes call number c of the list's, counted from 1. */
  predicate Makes(cfg: Config, steps: seq<Step>, i: nat, c: int) {
    i < |steps| && |EffectsOf(cfg, steps[..i])| < c <= |EffectsOf(cfg, steps[..i + 1])|
  }

  /** The step is the one of the list whose calls, counted from `from`, the last call is among. */
  ghost predicate Blames(cfg: Config, steps: seq<Step>, step: Step, t: seq<Call>, from: nat) {
    && from < |t| && t[|t| - 1].effect in EffectsOfStep(cfg, step)
    && exists i: nat :: Makes(cfg, steps, i, |t| - from) && steps[i] == step
  }

  function CauseOf(err: Option<Err>): Option<Err> {
    if err.Some? && err.value.StepFailed? then Some(err.value.cause) else None
  }

  /** The call was made and succeeded. */
  predicate Done(t: seq<Call>, e: Effect) {
    Call(e, false, None) in t
  }

  /** What a run has measured: the object fetched, whether the database size was asked for,
      and the size if it was told. */
  datatype Metrics = Metrics(stored: Option<Dump>, attempted: bool, size: Option<int>)

  function MetricsOf(result: ExecutionResult): Metrics
    reads result
  {
    Metrics(result.stored, result.databaseSizeAttempted,
            if result.databaseSizeAvailable then Some(result.databaseSize) else None)
  }

  /** The dump is what a successful fetch was answered with. */
  ghost predicate FetchedBy(t: seq<Call>, answers: nat -> Answer, dump: Dump) {
    exists i: nat :: i < |t| && t[i] == Call(Fetch, false, None) && dump == Fetched(answers(i).fetch)
  }

  /** The size is what a successful size query was answered with. */
  ghost predicate SizedBy(t: seq<Call>, answers: nat -> Answer, size: int) {
    exists i: nat :: i < |t| && t[i] == Call(Size, false, None) && size == answers(i).size
  }

  /** The measurements are exactly those of the calls that succeeded. */
  ghost predicate Measured(t: seq<Call>, answers: nat -> Answer, m: Metrics) {
    && (m.stored.Some? <==> Done(t, Fetch)) && (m.stored.Some? ==> FetchedBy(t, answers, m.stored.value))
    && (m.attempted <==> Done(t, Load))
    && (m.size.Some? <==> Done(t, Size)) && (m.size.Some? ==> SizedBy(t, answers, m.size.value))
  }

  /** What one more call, answered so, adds to the measurements. */
  function Updated(m: Metrics, c: Call, answer: Answer): Metrics {
    if c.err.Some? || c.detached then m
    else if c.effect == Fetch then m.(stored := Some(Fetched(answer.fetch)))
    else if c.effect == Load then m.(attempted := true)
    else if c.effect == Size then m.(size := Some(answer.size))
    else m
  }

  lemma FetchedLater(t: seq<Call>, t': seq<Call>, answers: nat -> Answer, dump: Dump)
    requires t <= t' && FetchedBy(t, answers, dump)
    ensures FetchedBy(t', answers, dump)
  {
    var i: nat :| i < |t| && t[i] == Call(Fetch, false, None) && dump == Fetched(answers(i).fetch);
    assert t'[i] == t[i];
  }

  lemma SizedLater(t: seq<Call>, t': seq<Call>, answers: nat -> Answer, size: int)
    requires t <= t' && SizedBy(t, answers, size)
    ensures SizedBy(t', answers, size)
  {
    var i: nat :| i < |t| && t[i] == Call(Size, false, None) && size == answers(i).size;
    assert t'[i] == t[i];
  }

  lemma MeasuredStep(t: seq<Call>, answers: nat -> Answer, m: Metrics, c: Call)
    requires Measured(t, answers, m)
    ensures Measured(t + [c], answers, Updated(m, c, answers(|t|)))
  {
    var t', m' := t + [c], Updated(m, c, answers(|t|));
    assert t'[|t|] == c;
    if m'.stored.Some? && m'.stored == m.stored {
      FetchedLater(t, t', answers, m.stored.value);
    }
    if m'.size.Some? && m'.size == m.size {
      SizedLater(t, t', answers, m.size.value);
    }
  }

  /** Recovering and removing the dump measure nothing. */
  lemma NothingMeasured(before: seq<Call>, after: seq<Call>, answers: nat -> Answer, m: Metrics)
    requires |after| == |before| + 1 && before <= after && Measured(before, answers, m)
    requires after[|before|].detached || after[|before|].effect == RemoveDump
    ensures Measured(after, answers, m)
  {
    MeasuredStep(before, answers, m, after[|before|]);
    assert after == before + [after[|before|]];
  }

  /** The error wraps the error of the last call made, and names the step that call belongs to
      and the phase whose part of the script it is. */
  ghost predicate IsStepFailure(cfg: Config, err: Err, failed: Option<Phase>, calls: seq<Call>) {
    err.StepFailed? && failed == Some(err.phase) && err.phase != Preflight
    && Boundary(Index(err.phase) - 1) < |calls| <= Boundary(Index(err.phase))
    && calls[|calls| - 1].err == Some(err.cause)
    && Blames(cfg, Script(err.phase), err.step, calls, Boundary(Index(err.phase) - 1))
  }

  lemma StepFailureInOrder(cfg: Config, script: seq<Effect>, phase: Phase, err: Err, t: seq<Call>)
    requires phase != Preflight && err.StepFailed? && err.phase == phase
    requires Boundary(Index(phase) - 1) < |t| <= Boundary(Index(phase)) && Ended(t, script, Some(err.cause))
    requires Blames(cfg, Script(phase), err.step, t, Boundary(Index(phase) - 1))
    ensures CutShort(t, script) && IsStepFailure(cfg, err, Some(phase), t)
  {
  }

  /** The call is the recovery call, and the error list and status say how it went. */
  predicate IsRecovery(cfg: Config, call: Call, errs: seq<Err>, status: RecoveryStatus) {
    call.effect == Scale(cfg.web, 0) && call.detached
    && errs == (if call.err.Some? then [RecoveryFailed(call.err.value)] else [])
    && status == if call.err.None? then RecoverySuccess else RecoveryError
  }

  /** What the phases and the recovery, n calls and perhaps one more, leave behind. */
  ghost predicate WorkflowOutcome(t: seq<Call>, cfg: Config, n: nat, s: Ledger, own: RecoveryStatus) {
    n <= |t| && (s.firstErr.Some? <==> s.failedPhase.Some?)
    && if s.firstErr.None? then
         n == |t| && Performed(t[..n], Canon(cfg)) && s.nextPhase == |ORDER|
         && !s.recoveryAttempted && s.recoveryErrs == [] && s.recoveryStatus == NoRecovery && own == NoRecovery
       else
         |t| == n + 1 && CutShort(t[..n], Canon(cfg)) && IsStepFailure(cfg, s.firstErr.value, s.failedPhase, t[..n])
         && s.recoveryAttempted && IsRecovery(cfg, t[n], s.recoveryErrs, s.recoveryStatus) && own == s.recoveryStatus
  }

  /** What a run says it did: its error and failed phase; whether recovery was tried, how the
      recovery call went, the overall recovery status and errors; and the dump's removal. */
  datatype Account = Account(
    err: Option<Err>, failed: Option<Phase>,
    attempted: bool, own: RecoveryStatus, overall: RecoveryStatus, errs: seq<Err>, cleanup: CleanupStatus)

  function AccountOf(s: Ledger, own: RecoveryStatus, cleanup: CleanupStatus): Account {
    Account(s.firstErr, s.failedPhase, s.recoveryAttempted, own, s.recoveryStatus, s.recoveryErrs, cleanup)
  }

  /** The removal's error, from the trace: the call after the workflow and any recovery. */
  function RemovalCall(t: seq<Call>, cfg: Config, n: nat): Option<Err>
    requires n <= |t|
  {
    RemovalError(t, if CutShort(t[..n], Canon(cfg)) then n + 1 else n)
  }

  /** The returned error is the first one that occurred: the failed step of a workflow cut
      short, or else the refused removal, charged to cleanup. */
  ghost predicate FailureExplained(t: seq<Call>, cfg: Config, n: nat, err: Option<Err>, failed: Option<Phase>)
    requires n <= |t|
  {
    if CutShort(t[..n], Canon(cfg)) then err.Some? && IsStepFailure(cfg, err.value, failed, t[..n])
    else match RemovalCall(t, cfg, n)
      case Some(e) => err == Some(RemovalFailed(e)) && failed == Some(Cleanup)
      case None => err.None? && failed.None?
  }

  /** Recovery happened exactly if the workflow was cut short. Its own status reflects the
      recovery call only; the overall status also turns to error if the removal then failed;
      and the recorded recovery errors are exactly those that occurred, in order. */
  predicate RecoveryExplained(t: seq<Call>, cfg: Config, n: nat, a: Account)
    requires n <= |t|
  {
    if !CutShort(t[..n], Canon(cfg)) then
      !a.attempted && a.own == NoRecovery && a.overall == NoRecovery && a.errs == []
    else
      n < |t| && a.attempted
      && a.own == (if t[n].err.None? then RecoverySuccess else RecoveryError)
      && a.overall == (if RemovalCall(t, cfg, n).Some? then RecoveryError else a.own)
      && a.errs == (if t[n].err.Some? then [RecoveryFailed(t[n].err.value)] else [])
                   + (if RemovalCall(t, cfg, n).Some? then [RemovalFailed(RemovalCall(t, cfg, n).value)] else [])
  }

  /** The account is exactly what the calls show. */
  ghost predicate TrueTo(t: seq<Call>, cfg: Config, n: nat, a: Account) {
    && RunTrace(t, cfg, n)
    && FailureExplained(t, cfg, n, a.err, a.failed)
    && RecoveryExplained(t, cfg, n, a)
    && a.cleanup == (if !(n > 4 && t[4].err.None?) then NotTried
                     else if RemovalCall(t, cfg, n).None? then CleanupSuccess else CleanupError)
  }

  /** The final state accounts for the calls, and without an error every phase is done. */
  ghost predicate RunOutcome(t: seq<Call>, cfg: Config, n: nat, s: Ledger, own: RecoveryStatus, cleanup: CleanupStatus)
  {
    && TrueTo(t, cfg, n, AccountOf(s, own, cleanup))
    && (s.firstErr.None? ==> s.failedPhase.None? && s.nextPhase == |ORDER|)
  }

  /** How the removal call changed the state: not at all if it succeeded, else by failing
      the completed cleanup of a successful run or adding a recovery error. */
  predicate RemovalRecorded(s: Ledger, t: Ledger, call: Call, status: CleanupStatus) {
    call.effect == RemoveDump
    && status == (if call.err.None? then CleanupSuccess else CleanupError)
    && t == if call.err.None? then s
            else if s.failedPhase.None? then FailCompleted(s, Cleanup, RemovalFailed(call.err.value))
            else RecordRecoveryError(s, RemovalFailed(call.err.value))
  }

  /** With a dump, one more call; without, nothing at all. */
  ghost predicate RemovalDone(body: seq<Call>, t: seq<Call>, dump: Option<Dump>, s: Ledger, s': Ledger,
                              status: CleanupStatus)
  {
    if dump.None? then t == body && s' == s && status == NotTried
    else |t| == |body| + 1 && body <= t && RemovalRecorded(s, s', t[|body|], status)
  }

  /** A removal adds two readings and no removal none; no phase's time changes. */
  lemma RemovalTimed(st: seq<Stamp>, st': seq<Stamp>, body: seq<Call>, t: seq<Call>, dump: Option<Dump>, s: Ledger,
                     s': Ledger, status: CleanupStatus, n: nat, recovery: nat, spent: nat)
    requires WellFormed(s) && (s.failedPhase.None? ==> s.nextPhase == |ORDER|)
    requires RemovalDone(body, t, dump, s, s', status) && RunTimed(st, s, n, |body|, recovery, false, 0)
    requires if dump.None? then st' == st && spent == 0 else RemovalAround(st, st', |body|, spent)
    ensures RunTimed(st', s', n, |t|, recovery, status != NotTried, spent)
  {
    if dump.Some? {
      ThenRemoval(st, s, st', s', n, |body|, recovery, spent);
    }
  }

  ghost predicate FilesAfter(before: set<string>, files: set<string>, dump: Option<Dump>, refused: bool) {
    if dump.None? then files == before
    else refused || files == before - (if dump.value.path == "" then {} else {dump.value.path})
  }

  lemma LateFailure(s: Ledger, err: Err, now: nat)
    requires Idle(s, now) && s.failedPhase.None? && s.nextPhase == |ORDER|
    ensures var t := FailCompleted(s, Cleanup, err); Idle(t, now) && Spent(t) == Spent(s) && t.firstErr == Some(err)
  {
    ShapeKeptIff(s, FailCompletedOp(Cleanup, err));
  }

  lemma LateRecoveryError(s: Ledger, err: Err, now: nat)
    requires Idle(s, now) && s.failedPhase.Some?
    ensures var t := RecordRecoveryError(s, err); Idle(t, now) && Spent(t) == Spent(s) && t.firstErr == s.firstErr
  {
    ShapeKeptIff(s, RecordRecoveryErrorOp(err));
  }

  /** The trace of the workflow and its recovery, with or without the removal call, is a run's trace. */
  lemma AfterWorkflow(mid: seq<Call>, t: seq<Call>, cfg: Config, n: nat)
    requires n <= |mid| <= |t| <= |mid| + 1 && mid <= t
    requires if Performed(mid[..n], Canon(cfg)) then |mid| == n
             else CutShort(mid[..n], Canon(cfg)) && |mid| == n + 1
                  && mid[n].effect == Scale(cfg.web, 0) && mid[n].detached
    requires |t| > |mid| <==> n > 4 && mid[4].err.None?
    requires |t| > |mid| ==> t[|mid|].effect == RemoveDump
    ensures t[..n] == mid[..n] && RunTrace(t, cfg, n)
    ensures RemovalCall(t, cfg, n) == RemovalError(t, |mid|)
    ensures CutShort(t[..n], Canon(cfg)) <==> |mid| == n + 1
  {
    NotBoth(mid[..n], Canon(cfg));
    assert t[..n] == mid[..n];
  }

  /** A failed workflow and its recovery call. */
  lemma RecoveredOutcome(body: seq<Call>, t: seq<Call>, cfg: Config, s: Ledger, s': Ledger, own: RecoveryStatus)
    requires s.firstErr.Some? && s.failedPhase.Some? && SameFailure(s, s')
    requires CutShort(body, Canon(cfg)) && IsStepFailure(cfg, s.firstErr.value, s.failedPhase, body)
    requires |t| == |body| + 1 && body <= t
    requires s'.recoveryAttempted && IsRecovery(cfg, t[|body|], s'.recoveryErrs, s'.recoveryStatus)
    requires own == s'.recoveryStatus
    ensures t[..|body|] == body && WorkflowOutcome(t, cfg, |body|, s', own)
  {
    assert t[..|body|] == body;
  }

  /** From what the workflow left and what the removal changed, the whole run is explained. */
  lemma RunExplained(body: seq<Call>, t: seq<Call>, cfg: Config, n: nat, dump: Option<Dump>,
                     s: Ledger, s': Ledger, own: RecoveryStatus, status: CleanupStatus)
    requires WorkflowOutcome(body, cfg, n, s, own) && RemovalDone(body, t, dump, s, s', status)
    requires dump.Some? <==> n > 4 && body[4].err.None?
    ensures RunOutcome(t, cfg, n, s', own, status) && s'.startAt == s.startAt
  {
    AfterWorkflow(body, t, cfg, n);
  }

  /** The one file a run may own is gone after its removal. */
  lemma StagingRestored(before: set<string>, mid: set<string>, after: set<string>, dump: Option<Dump>,
        midRefused: bool, refused: bool)
    requires dump.Some? || !midRefused ==> Owns(mid, before, dump)
    requires FilesAfter(mid, after, dump, refused) && (dump.None? ==> refused == midRefused)
    ensures !refused ==> after == before
  {
  }

  lemma SameSpent(s: Ledger, t: Ledger)
    requires SameFailure(s, t)
    ensures Spent(s) == Spent(t)
  {
  }

  lemma ScriptFacts(cfg: Config, phase: Phase)
    requires phase != Preflight
    ensures EndsInDownload(Script(phase)) <==> phase == Prepare
    ensures forall i :: 0 <= i < |Script(phase)| - 1 ==> Script(phase)[i] != Download
    ensures 1 <= Index(phase) <= 4
  {
  }

  lemma SlicesJoin(script: seq<Effect>, b0: nat, b1: nat)
    requires b0 <= b1 <= |script|
    ensures script[..b0] + script[b0..b1] == script[..b1] && script[..b1] + script[b1..] == script
  {
  }

  /** Calls that end a part of a script end the script followed so far. */
  lemma OnScript(script: seq<Effect>, b0: nat, b1: nat, before: seq<Call>, t: seq<Call>, cause: Option<Err>)
    requires b0 <= b1 <= |script| && Performed(before, script[..b0])
    requires before <= t && Ended(t[|before|..], script[b0..b1], cause)
    ensures cause.None? ==> Performed(t, script[..b1])
    ensures cause.Some? ==> b0 < |t| <= b1 && Ended(t, script, cause)
  {
    var calls := t[|before|..];
    assert t == before + calls;
    PerformedConcat(before, script[..b0], calls, script[b0..b1]);
    SlicesJoin(script, b0, b1);
    if cause.Some? {
      CutShortExtends(t, script[..b1], script[b1..]);
    }
  }

  /** The fetch is the fifth call and mandatory, so it succeeded exactly if the run went past it. */
  lemma FetchOutcome(cfg: Config, t: seq<Call>, b: nat)
    requires b <= 20
    ensures Performed(t, Canon(cfg)[..b]) && b > 4 ==> |t| > 4 && t[4].err.None?
    ensures CutShort(t, Canon(cfg)) ==> ((|t| > 4 && t[4].err.None?) <==> |t| > 5)
  {
  }

  lemma AllFour(cfg: Config, t: seq<Call>)
    requires Performed(t, Canon(cfg)[..20])
    ensures Performed(t, Canon(cfg)) && |t| > 4 && t[4].err.None?
  {
    FetchOutcome(cfg, t, 20);
    assert Canon(cfg)[..20] == Canon(cfg);
  }

  lemma Later(s: Ledger, now: nat, later: nat)
    requires Idle(s, now) && now <= later
    ensures Idle(s, later)
  {
  }

  /** Recovery is presumed failed until it has succeeded. */
  lemma Presumed(s: Ledger, now: nat, started: nat)
    requires Idle(s, now) && RecoveryRequired(s) && now <= started
    ensures var t := s.(recoveryStatus := RecoveryError); Idle(t, started) && RecoveryRequired(t) && SameFailure(s, t)
  {
  }

  lemma SplitTrace(before: seq<Call>, after: seq<Call>, from: nat)
    requires from <= |before| && before <= after
    ensures after[from..] == before[from..] + after[|before|..]
  {
  }

  lemma EffectsOfParts(cfg: Config, front: seq<Step>, step: Step, back: seq<Step>, steps: seq<Step>)
    requires steps == (front + [step]) + back
    ensures EffectsOf(cfg, front + [step]) == EffectsOf(cfg, front) + EffectsOfStep(cfg, step)
    ensures EffectsOf(cfg, steps) == EffectsOf(cfg, front) + EffectsOfStep(cfg, step) + EffectsOf(cfg, back)
  {
    StepsOfTwo(cfg, front, step);
    EffectsConcat(cfg, front + [step], back);
  }

  lemma SplitEffects(cfg: Config, steps: seq<Step>, i: nat)
    requires i < |steps|
    ensures EffectsOf(cfg, steps[..i + 1]) == EffectsOf(cfg, steps[..i]) + EffectsOfStep(cfg, steps[i])
    ensures EffectsOf(cfg, steps) == EffectsOf(cfg, steps[..i]) + EffectsOfStep(cfg, steps[i]) + EffectsOf(cfg,
              steps[i + 1..])
  {
    assert steps[..i + 1] == steps[..i] + [steps[i]];
    assert steps == steps[..i] + [steps[i]] + steps[i + 1..];
    EffectsOfParts(cfg, steps[..i], steps[i], steps[i + 1..], steps);
  }

  lemma StepGoesThrough(cfg: Config, before: seq<Call>, after: seq<Call>, from: nat, steps: seq<Step>, i: nat)
    requires from <= |before| && before <= after && i < |steps|
    requires Performed(before[from..], EffectsOf(cfg, steps[..i]))
    requires Performed(after[|before|..], EffectsOfStep(cfg, steps[i]))
    ensures Performed(after[from..], EffectsOf(cfg, steps[..i + 1]))
  {
    SplitTrace(before, after, from);
    SplitEffects(cfg, steps, i);
    PerformedConcat(before[from..], EffectsOf(cfg, steps[..i]), after[|before|..], EffectsOfStep(cfg, steps[i]));
  }

  lemma CutAndExtend(a: seq<Call>, x: seq<Effect>, b: seq<Call>, y: seq<Effect>, z: seq<Effect>)
    requires Performed(a, x) && CutShort(b, y)
    ensures CutShort(a + b, x + y + z)
    ensures |b| > 0 && (a + b)[|a + b| - 1] == b[|b| - 1]
  {
    PerformedConcat(a, x, b, y);
    CutShortExtends(a + b, x + y, z);
  }

  lemma StepCutsShort(cfg: Config, before: seq<Call>, after: seq<Call>, from: nat, steps: seq<Step>, i: nat,
        cause: Option<Err>)
    requires from <= |before| && before <= after && i < |steps| && cause.Some?
    requires Performed(before[from..], EffectsOf(cfg, steps[..i]))
    requires Ended(after[|before|..], EffectsOfStep(cfg, steps[i]), cause)
    ensures Ended(after[from..], EffectsOf(cfg, steps), cause) && Blames(cfg, steps, steps[i], after, from)
  {
    SplitTrace(before, after, from);
    SplitEffects(cfg, steps, i);
    var calls := after[|before|..];
    CutAndExtend(before[from..], EffectsOf(cfg, steps[..i]), calls, EffectsOfStep(cfg, steps[i]),
        EffectsOf(cfg, steps[i + 1..]));
    assert after[|after| - 1] == calls[|calls| - 1];
    assert Makes(cfg, steps, i, |after| - from);
  }

  /** A failed workflow had fetched the dump exactly if it failed after Prepare. */
  lemma FetchedIff(cfg: Config, err: Err, failed: Option<Phase>, t: seq<Call>)
    requires CutShort(t, Canon(cfg)) && IsStepFailure(cfg, err, failed, t)
    ensures (|t| > 4 && t[4].err.None?) <==> err.phase != Prepare
  {
    FetchOutcome(cfg, t, 0);
  }

  /** The phase has been opened from state s0, whose readings were st. */
  ghost predicate Opened(s0: Ledger, s: Ledger, phase: Phase, now0: nat, st: seq<Stamp>, st': seq<Stamp>, first: Stamp)
  {
    && Ready(s0, phase, now0) && now0 <= first.time && s == Begin(s0, phase, first.time)
    && PhasesTimed(st, s0) && st' == st + [first]
  }

  /** The phase begun from state s0 has been closed with this outcome, and timed. */
  ghost predicate Closed(s0: Ledger, s: Ledger, phase: Phase, err: Option<Err>, now: nat, st: seq<Stamp>) {
    Idle(s, now) && SameRun(s0, s) && PhaseRecorded(s0, s, phase, err) && PhasesTimed(st, s)
  }

  lemma TwoReadings(st: seq<Stamp>, first: Stamp, end: Stamp)
    ensures Around(st, st + [first] + [end], first.calls, end.calls)
  {
  }

  lemma PhaseClosed(s0: Ledger, phase: Phase, now0: nat, st: seq<Stamp>, first: Stamp, end: Stamp, err: Option<Err>)
    requires Ready(s0, phase, now0) && now0 <= first.time <= end.time && PhasesTimed(st, s0)
    requires err.Some? ==> err.value.StepFailed? && err.value.phase == phase
    ensures var b, st' := Begin(s0, phase, first.time), st + [first] + [end];
            && CompleteError(b).None? && FailError(b, phase).None?
            && Closed(s0, if err.None? then Complete(b, end.time) else Fail(b, phase, end.time, err.value),
                 phase, err, end.time, st')
            && Around(st, st', first.calls, end.calls)
  {
    var e := if err.None? then External(0) else err.value;
    PhaseCompletes(s0, phase, now0, first.time, end.time);
    PhaseFails(s0, phase, now0, first.time, end.time, e);
    PhaseTimed(st, s0, phase, first, end, e);
    TwoReadings(st, first, end);
  }

  class Runner {
    const cfg: Config
    const world: World

    constructor (cfg: Config, world: World)
      ensures this.cfg == cfg && this.world == world
    {
      this.cfg, this.world := cfg, world;
    }

    method RecordReplicas(ghost m: Metrics)
      requires Measured(world.trace, world.answers, m)
      modifies world`trace
      ensures |world.trace| == |old(world.trace)| + 2 && old(world.trace) <= world.trace
      ensures Performed(world.trace[|old(world.trace)|..], EffectsOfStep(cfg, Step.RecordReplicas))
      ensures Measured(world.trace, world.answers, m)
    {
      ghost var t0 := world.trace;
      var err, size := world.Perform(GetReplicas(cfg.web), false);
      MeasuredStep(t0, world.answers, m, Call(GetReplicas(cfg.web), false, err));
      ghost var t1 := world.trace;
      err, size := world.Perform(GetReplicas(cfg.db), false);
      MeasuredStep(t1, world.answers, m, Call(GetReplicas(cfg.db), false, err));
    }

    /** One mandatory call. */
    method Mandatory(effect: Effect, ghost m: Metrics) returns (err: Option<Err>)
      requires !BestEffort(effect) && effect != Fetch && effect != Load
      requires Measured(world.trace, world.answers, m)
      modifies world`trace
      ensures Measured(world.trace, world.answers, m)
      ensures old(world.trace) <= world.trace
      ensures Ended(world.trace[|old(world.trace)|..], [effect], err)
    {
      ghost var before := world.trace;
      var size;
      err, size := world.Perform(effect, false);
      MeasuredStep(before, world.answers, m, Call(effect, false, err));
    }

    /** Asks for the database size, which may fail without consequence. */
    method QuerySize(result: ExecutionResult)
      requires Measured(world.trace, world.answers, MetricsOf(result))
      modifies world`trace, result
      ensures result.State() == old(result.State())
      ensures unchanged(result`tempCleanupDuration, result`tempCleanupStatus,
                        result`recoveryDuration, result`recoveryPhaseStatus)
      ensures unchanged(result`stored, result`databaseSizeAttempted)
      ensures |world.trace| == |old(world.trace)| + 1 && old(world.trace) <= world.trace
      ensures WentThrough(world.trace[|old(world.trace)|], Size)
      ensures Measured(world.trace, world.answers, MetricsOf(result))
      ensures if world.trace[|old(world.trace)|].err.None?
              then result.databaseSizeAvailable && result.databaseSize == world.answers(|old(world.trace)|).size
              else unchanged(result`databaseSize, result`databaseSizeAvailable)
    {
      ghost var before, m := world.trace, MetricsOf(result);
      var sizeErr, size := world.Perform(Size, false);
      MeasuredStep(before, world.answers, m, Call(Size, false, sizeErr));
      if sizeErr.None? {
        result.databaseSize, result.databaseSizeAvailable := size, true;
      }
    }

    method LoadDump(result: ExecutionResult) returns (err: Option<Err>)
      requires Measured(world.trace, world.answers, MetricsOf(result))
      modifies world`trace, result
      ensures unchanged(world`now, world`stamps, world`files, world`removalRefused)
      ensures result.State() == old(result.State())
      ensures unchanged(result`tempCleanupDuration, result`tempCleanupStatus,
                        result`recoveryDuration, result`recoveryPhaseStatus)
      ensures unchanged(result`stored)
      ensures old(world.trace) <= world.trace && Measured(world.trace, world.answers, MetricsOf(result))
      ensures Ended(world.trace[|old(world.trace)|..], [Load, Size], err)
      ensures err.Some? ==> unchanged(result`databaseSize, result`databaseSizeAvailable, result`databaseSizeAttempted)
      ensures err.None? ==> result.databaseSizeAttempted
    {
      ghost var before, m := world.trace, MetricsOf(result);
      var size;
      err, size := world.Perform(Load, false);
      MeasuredStep(before, world.answers, m, Call(Load, false, err));
      if err.Some? {
        return;
      }
      result.databaseSizeAttempted := true;
      QuerySize(result);
    }

    /** Fetches the dump, and notes it. */
    method FetchDump(result: ExecutionResult) returns (err: Option<Err>, dump: Option<Dump>)
      requires Measured(world.trace, world.answers, MetricsOf(result))
      modifies world`trace, world`files, world`removalRefused, result
      ensures unchanged(world`now, world`stamps)
      ensures result.State() == old(result.State())
      ensures unchanged(result`tempCleanupDuration, result`tempCleanupStatus,
                        result`recoveryDuration, result`recoveryPhaseStatus)
      ensures unchanged(result`databaseSize, result`databaseSizeAvailable, result`databaseSizeAttempted)
      ensures Measured(world.trace, world.answers, MetricsOf(result))
      ensures old(world.trace) <= world.trace && Ended(world.trace[|old(world.trace)|..], [Fetch], err)
      ensures Staged(true, old(world.files), old(world.removalRefused), None,
                     world.files, world.removalRefused, dump, err)
      ensures result.stored == if err.None? then dump else old(result.stored)
    {
      ghost var before, m := world.trace, MetricsOf(result);
      dump, err := world.DownloadAndExtract();
      MeasuredStep(before, world.answers, m, Call(Fetch, false, err));
      if err.None? {
        result.stored := dump;
      }
    }

    /** The steps that note nothing: recording the replicas, and those of one mandatory call. */
    method CallStep(step: Step, ghost m: Metrics) returns (err: Option<Err>)
      requires !step.Download? && !step.RestoreDb?
      requires Measured(world.trace, world.answers, m)
      modifies world`trace
      ensures unchanged(world`now, world`stamps, world`files, world`removalRefused)
      ensures Measured(world.trace, world.answers, m)
      ensures old(world.trace) <= world.trace && Ended(world.trace[|old(world.trace)|..], EffectsOfStep(cfg, step), err)
    {
      err := None;
      match step
      case RecordReplicas => RecordReplicas(m);
      case CheckS3 => err := Mandatory(S3Check, m);
      case CheckKubernetes => err := Mandatory(K8sCheck, m);
      case ScaleWeb(n) => err := Mandatory(Scale(cfg.web, n), m);
      case ScaleDb(n) => err := Mandatory(Scale(cfg.db, n), m);
      case WaitWeb(n) => err := Mandatory(WaitFor(cfg.web, n), m);
      case WaitDb(n) => err := Mandatory(WaitFor(cfg.db, n), m);
      case CheckDb => err := Mandatory(DbCheck, m);
      case ResetDb => err := Mandatory(Reset, m);
      case AnalyzeDb => err := Mandatory(Analyze, m);
      case AwaitReadiness => err := Mandatory(Readiness, m);
      case CheckTimeline => err := Mandatory(Timeline, m);
    }

    /** One step: its calls go through, or stop at the call whose error is returned. */
    method DoStep(step: Step, result: ExecutionResult, dump: Option<Dump>)
      returns (err: Option<Err>, newDump: Option<Dump>)
      requires Measured(world.trace, world.answers, MetricsOf(result))
      modifies world, result
      ensures result.State() == old(result.State())
      ensures unchanged(result`tempCleanupDuration, result`tempCleanupStatus,
                        result`recoveryDuration, result`recoveryPhaseStatus)
      ensures unchanged(world`now, world`stamps)
      ensures Measured(world.trace, world.answers, MetricsOf(result))
      ensures old(world.trace) <= world.trace
      ensures Ended(world.trace[|old(world.trace)|..], EffectsOfStep(cfg, step), err)
      ensures Staged(step == Download, old(world.files), old(world.removalRefused), dump,
                     world.files, world.removalRefused, newDump, err)
      ensures result.stored == if step == Download && err.None? then newDump else old(result.stored)
      ensures result.databaseSizeAttempted ==
              if step == RestoreDb && err.None? then true else old(result.databaseSizeAttempted)
    {
      newDump, err := dump, None;
      match step
      case Download => err, newDump := FetchDump(result);
      case RestoreDb => err := LoadDump(result);
      case _ => err := CallStep(step, MetricsOf(result));
    }

    /** The steps of a phase in order, up to the first that fails. */
    method RunSteps(steps: seq<Step>, result: ExecutionResult, dump: Option<Dump>)
      returns (failed: Option<Step>, cause: Option<Err>, newDump: Option<Dump>)
      requires forall i :: 0 <= i < |steps| - 1 ==> steps[i] != Download
      requires Measured(world.trace, world.answers, MetricsOf(result))
      modifies world, result
      ensures result.State() == old(result.State())
      ensures unchanged(result`tempCleanupDuration, result`tempCleanupStatus,
                        result`recoveryDuration, result`recoveryPhaseStatus)
      ensures unchanged(world`now, world`stamps)
      ensures Measured(world.trace, world.answers, MetricsOf(result))
      ensures old(world.trace) <= world.trace && (failed.Some? <==> cause.Some?)
      ensures failed.Some? ==> Blames(cfg, steps, failed.value, world.trace, |old(world.trace)|)
      ensures Ended(world.trace[|old(world.trace)|..], EffectsOf(cfg, steps), cause)
      ensures Staged(EndsInDownload(steps), old(world.files), old(world.removalRefused), dump,
                     world.files, world.removalRefused, newDump, cause)
    {
      newDump, failed, cause := dump, None, None;
      ghost var from := |world.trace|;
      for i := 0 to |steps|
        invariant from <= |world.trace| && old(world.trace) <= world.trace && cause.None?
        invariant result.State() == old(result.State())
        invariant unchanged(result`tempCleanupDuration, result`tempCleanupStatus,
                            result`recoveryDuration, result`recoveryPhaseStatus)
        invariant unchanged(world`now, world`stamps) && Measured(world.trace, world.answers, MetricsOf(result))
        invariant Performed(world.trace[from..], EffectsOf(cfg, steps[..i]))
        invariant StagedSoFar(i == |steps| && EndsInDownload(steps), old(world.files), old(world.removalRefused), dump,
                              world.files, world.removalRefused, newDump)
      {
        ghost var before, files, refused, held := world.trace, world.files, world.removalRefused, newDump;
        cause, newDump := DoStep(steps[i], result, newDump);
        ghost var after := world.trace;
        StagedStep(steps, i, old(world.files), old(world.removalRefused), dump, files, refused, held,
                   world.files, world.removalRefused, newDump, cause);
        if cause.Some? {
          failed := Some(steps[i]);
          StepCutsShort(cfg, before, after, from, steps, i, cause);
          return;
        }
        StepGoesThrough(cfg, before, after, from, steps, i);
      }
      assert EffectsOf(cfg, steps[..|steps|]) == EffectsOf(cfg, steps) by {
        assert steps[..|steps|] == steps;
      }
    }

    /** Opens a phase; the state machine cannot object. */
    method OpenPhase(result: ExecutionResult, phase: Phase) returns (stateErr: Option<StateError>, ghost at: nat)
      requires Ready(result.State(), phase, world.now)
      modifies world`now, world`readings, world`stamps, result
      ensures unchanged(result`tempCleanupDuration, result`tempCleanupStatus,
                        result`recoveryDuration, result`recoveryPhaseStatus)
      ensures unchanged(result`stored, result`databaseSize, result`databaseSizeAvailable, result`databaseSizeAttempted)
      ensures stateErr.None? && old(world.now) <= at == world.now
      ensures world.stamps == old(world.stamps) + [Stamp(at, |world.trace|)]
      ensures result.State() == Begin(old(result.State()), phase, at)
    {
      var t := world.Now();
      PhaseCompletes(result.State(), phase, old(world.now), t, t);
      stateErr := result.BeginPhase(phase, t);
      at := t;
    }

    /** Records the failure of the phase opened from state s0; the state machine cannot object. */
    method CloseFailed(result: ExecutionResult, phase: Phase, err: Err,
                       ghost s0: Ledger, ghost now0: nat, ghost st: seq<Stamp>, ghost first: Stamp)
      returns (stateErr: Option<StateError>)
      requires Opened(s0, result.State(), phase, now0, st, world.stamps, first) && first.time <= world.now
      requires err.StepFailed? && err.phase == phase
      modifies world`now, world`readings, world`stamps
      modifies result`currentPhase, result`currentPhaseStart, result`recoveryStatus, result`recoveryErrs
      modifies result`phases, result`failedPhase, result`firstErr
      ensures result.Aside() == old(result.Aside())
      ensures unchanged(world`trace, world`files, world`removalRefused)
      ensures stateErr.None? && Closed(s0, result.State(), phase, Some(err), world.now, world.stamps)
      ensures Around(st, world.stamps, first.calls, |world.trace|)
    {
      var end := world.Now();
      assert result.Aside() == old(result.Aside());
      PhaseClosed(s0, phase, now0, st, first, Stamp(end, |world.trace|), Some(err));
      stateErr := result.FailPhase(phase, end, err);
    }

    /** Records the completion of the phase opened from state s0; the state machine cannot object. */
    method CloseDone(result: ExecutionResult, phase: Phase,
                     ghost s0: Ledger, ghost now0: nat, ghost st: seq<Stamp>, ghost first: Stamp)
      returns (stateErr: Option<StateError>)
      requires Opened(s0, result.State(), phase, now0, st, world.stamps, first) && first.time <= world.now
      modifies world`now, world`readings, world`stamps
      modifies result`currentPhase, result`currentPhaseStart, result`recoveryStatus, result`phases, result`nextPhase
      ensures result.Aside() == old(result.Aside())
      ensures unchanged(world`trace, world`files, world`removalRefused)
      ensures stateErr.None? && Closed(s0, result.State(), phase, None, world.now, world.stamps)
      ensures Around(st, world.stamps, first.calls, |world.trace|)
    {
      var end := world.Now();
      assert result.Aside() == old(result.Aside());
      PhaseClosed(s0, phase, now0, st, first, Stamp(end, |world.trace|), None);
      stateErr := result.CompletePhase(end);
    }

    /** Closes the phase opened from state s0, recording a failed step as its failure. */
    method ClosePhase(result: ExecutionResult, phase: Phase, failed: Option<Step>, cause: Option<Err>,
                      ghost s0: Ledger, ghost now0: nat, ghost st: seq<Stamp>, ghost first: Stamp)
      returns (err: Option<Err>)
      requires Opened(s0, result.State(), phase, now0, st, world.stamps, first) && first.time <= world.now
      requires failed.Some? <==> cause.Some?
      modifies world`now, world`readings, world`stamps
      modifies result`currentPhase, result`currentPhaseStart, result`recoveryStatus, result`recoveryErrs
      modifies result`phases, result`nextPhase, result`failedPhase, result`firstErr
      ensures result.Aside() == old(result.Aside())
      ensures unchanged(world`trace, world`files, world`removalRefused)
      ensures err == if failed.None? then None else Some(StepFailed(phase, failed.value, cause.value))
      ensures Closed(s0, result.State(), phase, err, world.now, world.stamps)
      ensures Around(st, world.stamps, first.calls, |world.trace|)
    {
      var stateErr;
      if failed.Some? {
        err := Some(StepFailed(phase, failed.value, cause.value));
        stateErr := CloseFailed(result, phase, err.value, s0, now0, st, first);
      } else {
        err := None;
        stateErr := CloseDone(result, phase, s0, now0, st, first);
      }
      if stateErr.Some? {
        assert false;
      }
    }

    /** A phase: its steps run, and how they ended is recorded. None of the state machine's
        own errors can occur. */
    method RunPhase(result: ExecutionResult, phase: Phase, steps: seq<Step>, dump: Option<Dump>)
      returns (err: Option<Err>, newDump: Option<Dump>)
      requires Ready(result.State(), phase, world.now) && PhasesTimed(world.stamps, result.State())
      requires forall i :: 0 <= i < |steps| - 1 ==> steps[i] != Download
      requires Measured(world.trace, world.answers, MetricsOf(result))
      modifies world, result
      ensures unchanged(result`tempCleanupDuration, result`tempCleanupStatus,
                        result`recoveryDuration, result`recoveryPhaseStatus)
      ensures Measured(world.trace, world.answers, MetricsOf(result))
      ensures PhasesTimed(world.stamps, result.State())
      ensures Around(old(world.stamps), world.stamps, |old(world.trace)|, |world.trace|)
      ensures Idle(result.State(), world.now) && SameRun(old(result.State()), result.State())
      ensures err.Some? && err.value.StepFailed? ==> Blames(cfg, steps, err.value.step, world.trace, |old(world.trace)|)
      ensures PhaseRecorded(old(result.State()), result.State(), phase, err)
      ensures old(world.trace) <= world.trace
              && Ended(world.trace[|old(world.trace)|..], EffectsOf(cfg, steps), CauseOf(err))
      ensures Staged(EndsInDownload(steps), old(world.files), old(world.removalRefused), dump,
                     world.files, world.removalRefused, newDump, err)
    {
      ghost var s0, now0, st, calls := result.State(), world.now, world.stamps, |world.trace|;
      var stateErr;
      ghost var at;
      stateErr, at := OpenPhase(result, phase);
      if stateErr.Some? {
        assert false;
      }
      var failed, cause;
      failed, cause, newDump := RunSteps(steps, result, dump);
      err := ClosePhase(result, phase, failed, cause, s0, now0, st, Stamp(at, calls));
    }

    /** Closes cleanup, opened as recovery from state s, with the outcome of the recovery call. */
    method CloseRecovery(result: ExecutionResult, err: Option<Err>, ghost s: Ledger, ghost now0: nat, ghost at: nat)
      requires Idle(s, now0) && RecoveryRequired(s) && s.recoveryErrs == []
      requires now0 <= at <= world.now && result.State() == Begin(s, Cleanup, at)
      modifies world`now, world`readings, world`stamps
      modifies result`currentPhase, result`currentPhaseStart, result`recoveryStatus, result`recoveryErrs
      modifies result`phases, result`nextPhase, result`failedPhase, result`firstErr
      ensures Idle(result.State(), world.now) && world.now >= old(world.now)
      ensures SameFailure(s, result.State()) && result.recoveryAttempted && result.startAt == s.startAt
      ensures result.recoveryErrs == if err.Some? then [RecoveryFailed(err.value)] else []
      ensures result.recoveryStatus == if err.None? then RecoverySuccess else RecoveryError
      ensures world.stamps == old(world.stamps) + [Stamp(world.now, |world.trace|)]
    {
      var end := world.Now();
      if err.Some? {
        RecoveryRuns(s, now0, at, end, RecoveryFailed(err.value));
        var _ := result.FailPhase(Cleanup, end, RecoveryFailed(err.value));
      } else {
        RecoveryRuns(s, now0, at, end, External(0));
        var _ := result.CompletePhase(end);
      }
    }

    /** The recovery call, between opening and closing cleanup as recovery: presumed failed
        until it has succeeded. */
    method ScaleWebDown(result: ExecutionResult, ghost now0: nat)
      requires Idle(result.State(), now0) && now0 <= world.now
      requires RecoveryRequired(result.State()) && result.recoveryErrs == []
      modifies world`trace, world`now, world`readings, world`stamps
      modifies result`currentPhase, result`currentPhaseStart, result`recoveryAttempted
      modifies result`recoveryStatus, result`recoveryErrs
      modifies result`phases, result`nextPhase, result`failedPhase, result`firstErr
      ensures Idle(result.State(), world.now) && world.now >= old(world.now)
      ensures SameFailure(old(result.State()), result.State()) && result.recoveryAttempted
      ensures result.startAt == old(result.startAt)
      ensures |world.trace| == |old(world.trace)| + 1 && old(world.trace) <= world.trace
      ensures IsRecovery(cfg, world.trace[|old(world.trace)|], result.recoveryErrs, result.recoveryStatus)
      ensures Around(old(world.stamps), world.stamps, |old(world.trace)|, |old(world.trace)| + 1)
    {
      Presumed(result.State(), now0, now0);
      result.recoveryStatus := RecoveryError;
      ghost var s := result.State();
      var at := world.Now();
      RecoveryRuns(s, now0, at, at, External(0));
      var stateErr := result.BeginPhase(Cleanup, at);
      if stateErr.Some? {
        assert false;
      }
      var err, _ := world.Perform(Scale(cfg.web, 0), true);
      assert world.trace[|old(world.trace)|] == Call(Scale(cfg.web, 0), true, err);
      CloseRecovery(result, err, s, now0, at);
    }

    /** Recovery when it is required, timed. */
    method RunRecovery(result: ExecutionResult)
      requires Idle(result.State(), world.now) && RecoveryRequired(result.State()) && result.recoveryErrs == []
      modifies world`trace, world`now, world`readings, world`stamps
      modifies result`currentPhase, result`currentPhaseStart, result`recoveryAttempted, result`recoveryStatus,
               result`recoveryErrs
      modifies result`phases, result`nextPhase, result`failedPhase, result`firstErr, result`recoveryDuration,
               result`recoveryPhaseStatus
      ensures Idle(result.State(), world.now) && result.recoveryDuration <= world.now - old(world.now)
      ensures RecoveryAround(old(world.stamps), world.stamps, |old(world.trace)|, result.recoveryDuration)
      ensures SameFailure(old(result.State()), result.State()) && result.recoveryAttempted
              && result.startAt == old(result.startAt)
      ensures |world.trace| == |old(world.trace)| + 1 && old(world.trace) <= world.trace
      ensures IsRecovery(cfg, world.trace[|old(world.trace)|], result.recoveryErrs, result.recoveryStatus)
      ensures result.recoveryPhaseStatus == result.recoveryStatus
    {
      var started := world.Now();
      ScaleWebDown(result, old(world.now));
      ghost var s, done, mid := result.State(), world.now, world.stamps;
      var finished := world.Now();
      RecoverySpans(old(world.stamps), mid, |old(world.trace)|, started, finished);
      Later(s, done, finished);
      result.recoveryDuration := Elapsed(started, finished);
      result.recoveryPhaseStatus := result.recoveryStatus;
      assert result.State() == s;
    }

    /** Recovers if the state requires it, and does nothing otherwise. */
    method Recover(result: ExecutionResult)
      requires Idle(result.State(), world.now) && (RecoveryRequired(result.State()) ==> result.recoveryErrs == [])
      modifies world, result
      ensures unchanged(world`files, world`removalRefused, result`tempCleanupDuration, result`tempCleanupStatus)
      ensures unchanged(result`stored, result`databaseSize, result`databaseSizeAvailable, result`databaseSizeAttempted)
      ensures !old(RecoveryRequired(result.State())) ==>
        result.State() == old(result.State()) && world.trace == old(world.trace) && world.stamps == old(world.stamps)
        && result.recoveryDuration == old(result.recoveryDuration)
        && result.recoveryPhaseStatus == old(result.recoveryPhaseStatus)
      ensures Idle(result.State(), world.now) && SameFailure(old(result.State()), result.State())
              && result.startAt == old(result.startAt)
      ensures old(RecoveryRequired(result.State())) ==>
        result.recoveryAttempted && result.recoveryDuration <= world.now - old(world.now)
        && |world.trace| == |old(world.trace)| + 1 && old(world.trace) <= world.trace
        && IsRecovery(cfg, world.trace[|old(world.trace)|], result.recoveryErrs, result.recoveryStatus)
        && result.recoveryPhaseStatus == result.recoveryStatus
        && RecoveryAround(old(world.stamps), world.stamps, |old(world.trace)|, result.recoveryDuration)
    {
      if !RecoveryRequired(result.State()) {
        return;
      }
      RunRecovery(result);
    }

    /** One phase whose effects are the part b0..b1 of a longer script that the trace has
        followed up to b0. */
    method PhaseOnScript(result: ExecutionResult, phase: Phase, steps: seq<Step>, dump: Option<Dump>,
                         ghost script: seq<Effect>, ghost b0: nat, ghost b1: nat)
      returns (err: Option<Err>, newDump: Option<Dump>)
      requires Ready(result.State(), phase, world.now) && PhasesTimed(world.stamps, result.State())
      requires forall i :: 0 <= i < |steps| - 1 ==> steps[i] != Download
      requires b0 <= b1 <= |script| && EffectsOf(cfg, steps) == script[b0..b1] && Performed(world.trace, script[..b0])
      requires Measured(world.trace, world.answers, MetricsOf(result))
      modifies world, result
      ensures Measured(world.trace, world.answers, MetricsOf(result))
      ensures unchanged(result`tempCleanupDuration, result`tempCleanupStatus,
                        result`recoveryDuration, result`recoveryPhaseStatus)
      ensures Idle(result.State(), world.now) && SameRun(old(result.State()), result.State())
      ensures err.Some? && err.value.StepFailed? ==> Blames(cfg, steps, err.value.step, world.trace, |old(world.trace)|)
      ensures PhaseRecorded(old(result.State()), result.State(), phase, err)
      ensures PhasesTimed(world.stamps, result.State())
      ensures Around(old(world.stamps), world.stamps, |old(world.trace)|, |world.trace|)
      ensures err.None? ==> Performed(world.trace, script[..b1])
      ensures err.Some? ==> b0 < |world.trace| <= b1 && Ended(world.trace, script, CauseOf(err))
      ensures Staged(EndsInDownload(steps), old(world.files), old(world.removalRefused), dump,
                     world.files, world.removalRefused, newDump, err)
    {
      ghost var before := world.trace;
      err, newDump := RunPhase(result, phase, steps, dump);
      OnScript(script, b0, b1, before, world.trace, CauseOf(err));
    }

    /** The phases before number g have gone through, and the dump is held from Prepare on. */
    ghost predicate ReachedPhase(script: seq<Effect>, g: nat, dump: Option<Dump>, files0: set<string>)
      reads world
    {
      1 <= g <= 5 && |script| == 20 && Performed(world.trace, script[..Boundary(g - 1)])
      && (dump.Some? <==> g > 1) && Owns(world.files, files0, dump)
    }

    /** One phase of the four, at its place in the canonical order. */
    method PhaseInOrder(result: ExecutionResult, phase: Phase, dump: Option<Dump>,
                        ghost script: seq<Effect>, ghost files0: set<string>)
      returns (err: Option<Err>, newDump: Option<Dump>)
      requires phase != Preflight && Ready(result.State(), phase, world.now)
      requires ReachedPhase(script, Index(phase), dump, files0)
      requires OnTime(world.stamps, result.State(), |world.trace|)
      requires EffectsOf(cfg, Script(phase)) == script[Boundary(Index(phase) - 1)..Boundary(Index(phase))]
      requires Measured(world.trace, world.answers, MetricsOf(result))
      modifies world, result
      ensures Measured(world.trace, world.answers, MetricsOf(result))
      ensures unchanged(result`tempCleanupDuration, result`tempCleanupStatus,
                        result`recoveryDuration, result`recoveryPhaseStatus)
      ensures Idle(result.State(), world.now) && SameRun(old(result.State()), result.State())
      ensures err == result.firstErr && (err.Some? <==> result.failedPhase.Some?)
      ensures err.None? ==> result.nextPhase == old(result.nextPhase) + 1
                            && ReachedPhase(script, Index(phase) + 1, newDump, files0)
      ensures err.Some? ==> CutShort(world.trace, script)
                            && IsStepFailure(cfg, err.value, result.failedPhase, world.trace)
      ensures err.Some? ==> (newDump.Some? <==> err.value.phase != Prepare)
      ensures newDump.Some? || !world.removalRefused ==> Owns(world.files, files0, newDump)
      ensures OnTime(world.stamps, result.State(), |world.trace|)
    {
      ghost var st, s, before := world.stamps, result.State(), |world.trace|;
      ScriptFacts(cfg, phase);
      err, newDump := PhaseOnScript(result, phase, Script(phase), dump,
                                    script, Boundary(Index(phase) - 1), Boundary(Index(phase)));
      if err.Some? {
        StepFailureInOrder(cfg, script, phase, err.value, world.trace);
      }
      ThenPhase(st, s, world.stamps, result.State(), before, |world.trace|);
    }

    /** What the phases before number g leave behind. */
    ghost predicate UpTo(g: nat, dump: Option<Dump>, files0: set<string>)
      reads world
    {
      ReachedPhase(Canon(cfg), g, dump, files0)
    }

    lemma AllReached(dump: Option<Dump>, files0: set<string>)
      requires UpTo(5, dump, files0)
      ensures Performed(world.trace, Canon(cfg)) && |world.trace| > 4 && world.trace[4].err.None?
      ensures dump.Some? && Owns(world.files, files0, dump)
    {
      AllFour(cfg, world.trace);
    }

    /** The calls stopped at one that failed, and the dump is held if it was fetched. */
    ghost predicate StoppedWith(err: Err, failedPhase: Option<Phase>, dump: Option<Dump>)
      reads world
    {
      CutShort(world.trace, Canon(cfg)) && IsStepFailure(cfg, err, failedPhase, world.trace)
      && (dump.Some? <==> |world.trace| > 4 && world.trace[4].err.None?)
    }

    /** One phase of the four in the canonical order of calls. */
    method PhaseOfCanon(result: ExecutionResult, g: nat, dump: Option<Dump>, ghost files0: set<string>)
      returns (err: Option<Err>, newDump: Option<Dump>)
      requires 1 <= g < |ORDER| && Idle(result.State(), world.now) && result.failedPhase.None? && result.nextPhase == g
      requires UpTo(g, dump, files0) && OnTime(world.stamps, result.State(), |world.trace|)
      requires Measured(world.trace, world.answers, MetricsOf(result))
      modifies world, result
      ensures Measured(world.trace, world.answers, MetricsOf(result))
      ensures unchanged(result`tempCleanupDuration, result`tempCleanupStatus,
                        result`recoveryDuration, result`recoveryPhaseStatus)
      ensures Idle(result.State(), world.now) && SameRun(old(result.State()), result.State())
      ensures err == result.firstErr && (err.Some? <==> result.failedPhase.Some?)
      ensures OnTime(world.stamps, result.State(), |world.trace|)
      ensures err.None? ==> result.nextPhase == g + 1 && UpTo(g + 1, newDump, files0)
      ensures err.Some? ==> StoppedWith(err.value, result.failedPhase, newDump)
      ensures newDump.Some? || !world.removalRefused ==> Owns(world.files, files0, newDump)
    {
      var phase := ORDER[g];
      ScriptIsCanon(cfg, phase);
      err, newDump := PhaseInOrder(result, phase, dump, Canon(cfg), files0);
      if err.Some? {
        FetchedIff(cfg, err.value, result.failedPhase, world.trace);
      }
    }

    /** The four phases in order; the first failure stops them. */
    method RunPhases(result: ExecutionResult) returns (err: Option<Err>, dump: Option<Dump>)
      requires Ready(result.State(), Prepare, world.now) && world.trace == []
      requires OnTime(world.stamps, result.State(), 0)
      requires Measured(world.trace, world.answers, MetricsOf(result))
      modifies world, result
      ensures Measured(world.trace, world.answers, MetricsOf(result))
      ensures unchanged(result`tempCleanupDuration, result`tempCleanupStatus,
                        result`recoveryDuration, result`recoveryPhaseStatus)
      ensures Idle(result.State(), world.now) && SameRun(old(result.State()), result.State())
      ensures err == result.firstErr && (err.Some? <==> result.failedPhase.Some?)
      ensures if err.None? then Performed(world.trace, Canon(cfg)) && result.nextPhase == |ORDER|
              else CutShort(world.trace, Canon(cfg)) && IsStepFailure(cfg, err.value, result.failedPhase, world.trace)
      ensures OnTime(world.stamps, result.State(), |world.trace|)
      ensures dump.Some? <==> |world.trace| > 4 && world.trace[4].err.None?
      ensures dump.Some? || !world.removalRefused ==> Owns(world.files, old(world.files), dump)
    {
      dump, err := None, None;
      for g := 1 to |ORDER|
        invariant Measured(world.trace, world.answers, MetricsOf(result))
        invariant unchanged(result`tempCleanupDuration, result`tempCleanupStatus,
                            result`recoveryDuration, result`recoveryPhaseStatus)
        invariant err.None? && Idle(result.State(), world.now) && SameRun(old(result.State()), result.State())
        invariant result.failedPhase.None? && result.firstErr.None? && result.nextPhase == g
        invariant UpTo(g, dump, old(world.files))
        invariant OnTime(world.stamps, result.State(), |world.trace|)
      {
        err, dump := PhaseOfCanon(result, g, dump, old(world.files));
        if err.Some? {
          return;
        }
      }
      AllReached(dump, old(world.files));
    }

    /** The phases, and recovery if they failed. The workflow proper makes n calls. */
    method Workflow(result: ExecutionResult) returns (err: Option<Err>, dump: Option<Dump>, ghost n: nat)
      requires Ready(result.State(), Prepare, world.now) && result.initialized && world.trace == []
      requires result.recoveryDuration == 0 && result.recoveryPhaseStatus == NoRecovery
      requires OnTime(world.stamps, result.State(), 0)
      requires Measured(world.trace, world.answers, MetricsOf(result))
      modifies world, result
      ensures Measured(world.trace, world.answers, MetricsOf(result))
      ensures RunTimed(world.stamps, result.State(), n, |world.trace|, result.recoveryDuration, false, 0)
      ensures Idle(result.State(), world.now) && result.firstErr == err
      ensures WorkflowOutcome(world.trace, cfg, n, result.State(), result.recoveryPhaseStatus)
      ensures Spent(result.State()) + result.recoveryDuration <= world.now - result.startAt
              && result.startAt == old(result.startAt)
      ensures unchanged(result`tempCleanupDuration, result`tempCleanupStatus)
      ensures dump.Some? <==> n > 4 && world.trace[4].err.None?
      ensures dump.Some? || !world.removalRefused ==> Owns(world.files, old(world.files), dump)
    {
      err, dump := RunPhases(result);
      n := |world.trace|;
      assert world.trace[..n] == world.trace;
      ghost var m, body := MetricsOf(result), world.trace;
      ghost var st, s := world.stamps, result.State();
      if err.Some? {
        assert RecoveryRequired(result.State());
        Recover(result);
        SameSpent(s, result.State());
        RecoveredOutcome(body, world.trace, cfg, s, result.State(), result.recoveryPhaseStatus);
        NothingMeasured(body, world.trace, world.answers, m);
      }
      PhasesThenRecovery(st, s, world.stamps, result.State(), n, |world.trace|, result.recoveryDuration);
    }

    /** Removes the staged dump, and takes the time. */
    method TimeRemoval(dump: Dump) returns (err: Option<Err>, spent: nat)
      modifies world
      ensures world.trace == old(world.trace) + [Call(RemoveDump, false, err)] && old(world.now) + spent <= world.now
      ensures RemovalAround(old(world.stamps), world.stamps, |old(world.trace)|, spent)
      ensures err.Some? ==> world.removalRefused
      ensures err.None? ==> world.removalRefused == old(world.removalRefused)
                            && world.files == old(world.files) - (if dump.path == "" then {} else {dump.path})
    {
      var started := world.Now();
      err := world.RemoveStaged(dump);
      var ended := world.Now();
      spent := Elapsed(started, ended);
    }

    /** Writes down how the removal went. */
    method RecordRemoval(result: ExecutionResult, cleanupErr: Option<Err>, err: Option<Err>, ghost now: nat)
      returns (out: Option<Err>)
      requires Idle(result.State(), now) && err == result.firstErr && (err.Some? <==> result.failedPhase.Some?)
      requires err.None? ==> result.nextPhase == |ORDER|
      modifies result
      ensures unchanged(result`tempCleanupDuration, result`recoveryDuration, result`recoveryPhaseStatus)
      ensures unchanged(result`stored, result`databaseSize, result`databaseSizeAvailable, result`databaseSizeAttempted)
      ensures Idle(result.State(), now) && Spent(result.State()) == Spent(old(result.State()))
      ensures out == result.firstErr
      ensures RemovalRecorded(old(result.State()), result.State(), Call(RemoveDump, false, cleanupErr),
                result.tempCleanupStatus)
    {
      out := err;
      result.tempCleanupStatus := CleanupSuccess;
      if cleanupErr.None? {
        return;
      }
      result.tempCleanupStatus := CleanupError;
      var failure := RemovalFailed(cleanupErr.value);
      if err.None? && result.failedPhase.None? {
        LateFailure(result.State(), failure, now);
        result.FailCompletedPhase(Cleanup, failure);
        return Some(failure);
      }
      LateRecoveryError(result.State(), failure, now);
      result.NoteRecoveryError(failure);
    }

    /** The deferred removal of the staged dump, which can still fail a run that had
        succeeded; after a failure its error is only added to the recovery errors. */
    method RemoveStagedDump(result: ExecutionResult, dump: Option<Dump>, err: Option<Err>) returns (out: Option<Err>)
      requires Idle(result.State(), world.now) && err == result.firstErr && (err.Some? <==> result.failedPhase.Some?)
      requires err.None? ==> result.nextPhase == |ORDER|
      requires result.tempCleanupDuration == 0 && result.tempCleanupStatus == NotTried
      modifies world, result
      ensures RemovalDone(old(world.trace), world.trace, dump, old(result.State()), result.State(),
                result.tempCleanupStatus)
      ensures Idle(result.State(), world.now) && Spent(result.State()) == Spent(old(result.State()))
              && out == result.firstErr
      ensures old(world.now) + result.tempCleanupDuration <= world.now
      ensures if dump.None? then world.stamps == old(world.stamps) && result.tempCleanupDuration == 0
              else RemovalAround(old(world.stamps), world.stamps, |old(world.trace)|, result.tempCleanupDuration)
      ensures FilesAfter(old(world.files), world.files, dump, world.removalRefused)
      ensures unchanged(result`recoveryDuration, result`recoveryPhaseStatus)
      ensures unchanged(result`stored, result`databaseSize, result`databaseSizeAvailable, result`databaseSizeAttempted)
      ensures dump.None? ==> world.removalRefused == old(world.removalRefused)
    {
      out := err;
      if dump.None? {
        return;
      }
      ghost var before := world.now;
      var cleanupErr, spent := TimeRemoval(dump.value);
      Later(result.State(), before, world.now);
      result.tempCleanupDuration := spent;
      out := RecordRemoval(result, cleanupErr, err, world.now);
    }

    /** The whole workflow: phases, recovery, deferred removal. For every way the world can
        answer: the trace is the canonical order cut at the first mandatory failure and its
        fixed aftermath; the state, the returned error and the recovery fields say exactly
        what happened; all measured intervals fit in the elapsed time; and unless a removal
        was refused, the staged files are those of before. */
    method RunWithResult(result: ExecutionResult) returns (err: Option<Err>, ghost n: nat)
      requires Ready(result.State(), Prepare, world.now) && result.initialized && world.trace == []
      requires result.recoveryDuration == 0 && result.recoveryPhaseStatus == NoRecovery
      requires result.tempCleanupDuration == 0 && result.tempCleanupStatus == NotTried
      requires OnTime(world.stamps, result.State(), 0)
      requires Measured(world.trace, world.answers, MetricsOf(result))
      modifies world, result
      ensures Measured(world.trace, world.answers, MetricsOf(result))
      ensures Idle(result.State(), world.now) && result.firstErr == err && result.startAt == old(result.startAt)
      ensures RunOutcome(world.trace, cfg, n, result.State(), result.recoveryPhaseStatus, result.tempCleanupStatus)
      ensures RunTimed(world.stamps, result.State(), n, |world.trace|, result.recoveryDuration,
                       result.tempCleanupStatus != NotTried, result.tempCleanupDuration)
      ensures Spent(result.State()) + result.recoveryDuration + result.tempCleanupDuration <= world.now - result.startAt
      ensures !world.removalRefused ==> world.files == old(world.files)
    {
      var dump;
      err, dump, n := Workflow(result);
      ghost var body, s, own := world.trace, result.State(), result.recoveryPhaseStatus;
      ghost var mid, midRefused, m := world.files, world.removalRefused, MetricsOf(result);
      ghost var taken, st := Spent(s) + result.recoveryDuration, world.stamps;
      err := RemoveStagedDump(result, dump, err);
      assert MetricsOf(result) == m;
      if dump.Some? {
        NothingMeasured(body, world.trace, world.answers, m);
      }
      StagingRestored(old(world.files), mid, world.files, dump, midRefused, world.removalRefused);
      RunExplained(body, world.trace, cfg, n, dump, s, result.State(), result.recoveryPhaseStatus,
          result.tempCleanupStatus);
      RemovalTimed(st, world.stamps, body, world.trace, dump, s, result.State(), result.tempCleanupStatus, n,
          result.recoveryDuration, result.tempCleanupDuration);
      assert Spent(result.State()) + result.recoveryDuration == taken;
    }
  }
}
