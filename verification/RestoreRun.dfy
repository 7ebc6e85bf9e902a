/** A whole restore-test run: preflight, the workflow, and the final report and summary
    (internal/restore/restore.go). */
module RestoreRun {
  import opened Wrappers
  import opened RestoreDomain
  import opened PhaseLedger
  import opened RestoreScript
  import opened RestoreWorld
  import opened ExecutionRecord
  import opened RestoreRunner
  import opened RunClock

  /** How the three preflight checks go, in the order they are made, and the configuration
      that passes them. */
  datatype Checks = Checks(flags: Option<int>, configuration: Option<int>, construction: Option<int>, cfg: Config)
  {
    predicate Pass() {
      flags.None? && configuration.None? && construction.None?
    }

    /** The first check that fails decides. */
    function Refusal(): Err
      requires !Pass()
    {
      if flags.Some? then PreflightFailed(Flags, flags.value)
      else if configuration.Some? then PreflightFailed(Configuration, configuration.value)
      else PreflightFailed(Construction, construction.value)
    }
  }

  /** A finished run: idle, and either all phases done or a first error recorded and returned. */
  ghost predicate Finished(s: Ledger, err: Option<Err>) {
    && WellFormed(s) && s.currentPhase.None? && s.firstErr == err
    && (err.Some? <==> s.failedPhase.Some?) && (err.None? ==> s.nextPhase == |ORDER|)
  }

  /** The account is exactly what happened: no call and the refusal if preflight refused the
      run, else a run of the script. */
  ghost predicate Explained(checks: Checks, t: seq<Call>, n: nat, a: Account) {
    if checks.Pass() then TrueTo(t, checks.cfg, n, a)
    else t == [] && n == 0
         && a == Account(Some(checks.Refusal()), Some(Preflight), false, NoRecovery, NoRecovery, [], NotTried)
  }

  /** As preflight opens, the run's start and its own are the readings so far. */
  predicate Opening(st: seq<Stamp>, start: nat, at: nat) {
    st == [Stamp(start, 0), Stamp(at, 0)] && start <= at
  }

  /** Preflight closes at the third reading; no call is made. */
  lemma PreflightTimed(st: seq<Stamp>, start: nat, at: nat, end: nat, err: Err)
    requires Opening(st, start, at) && at <= end
    ensures OnTime(st + [Stamp(end, 0)], Complete(Begin(New(start), Preflight, at).(initialized := true), end), 0)
    ensures RunTimed(st + [Stamp(end, 0)], Fail(Begin(New(start), Preflight, at), Preflight, end, err),
                     0, 0, 0, false, 0)
  {
    var b, st0, st' := Begin(New(start), Preflight, at), [Stamp(start, 0)], st + [Stamp(end, 0)];
    assert st' == st0 + [Stamp(at, 0)] + [Stamp(end, 0)];
    PhaseTimed(st0, New(start), Preflight, Stamp(at, 0), Stamp(end, 0), err);
    ThenPhase(st0, New(start), st', Fail(b, Preflight, end, err), 0, 0);
    ThenPhase(st0, New(start), st', Complete(b, end), 0, 0);
    assert Complete(b.(initialized := true), end) == Complete(b, end).(initialized := true);
    PhasesThenRecovery(st', Fail(b, Preflight, end, err), st', Fail(b, Preflight, end, err), 0, 0, 0);
  }

  /** Ends preflight with its failure. */
  method Refuse(world: World, result: ExecutionResult, err: Err, ghost at: nat)
    requires at <= world.now && result.startAt <= at && result.State() == Begin(New(result.startAt), Preflight, at)
    requires result.recoveryDuration == 0 && result.tempCleanupDuration == 0 && result.tempCleanupStatus == NotTried
    requires world.trace == [] && Opening(world.stamps, result.startAt, at)
    modifies world, result
    ensures unchanged(world`trace, world`files, world`removalRefused, result`startAt)
    ensures unchanged(result`recoveryDuration, result`recoveryPhaseStatus)
    ensures unchanged(result`tempCleanupDuration, result`tempCleanupStatus)
    ensures unchanged(result`stored, result`databaseSize, result`databaseSizeAvailable, result`databaseSizeAttempted)
    ensures Idle(result.State(), world.now) && SameRun(New(result.startAt), result.State())
    ensures result.failedPhase == Some(Preflight) && result.firstErr == Some(err)
    ensures RunTimed(world.stamps, result.State(), 0, |world.trace|, result.recoveryDuration,
                     result.tempCleanupStatus != NotTried, result.tempCleanupDuration)
  {
    var end := world.Now();
    PreflightTimed(old(world.stamps), result.startAt, at, end, err);
    PhaseFails(New(result.startAt), Preflight, result.startAt, at, end, err);
    var stateErr := result.FailPhase(Preflight, end, err);
  }

  lemma PreflightPasses(start: nat, at: nat, end: nat)
    requires start <= at <= end
    ensures var s := Complete(Begin(New(start), Preflight, at).(initialized := true), end);
            Ready(s, Prepare, end) && s.initialized && !s.recoveryAttempted && s.recoveryErrs == []
              && s.recoveryStatus == NoRecovery
  {
    PhaseCompletes(New(start), Preflight, start, at, end);
    var s := Complete(Begin(New(start), Preflight, at), end);
    assert Complete(Begin(New(start), Preflight, at).(initialized := true), end) == s.(initialized := true);
  }

  /** Ends preflight successfully; the run then counts as initialised. */
  method Admit(world: World, result: ExecutionResult, ghost at: nat) returns (stateErr: Option<StateError>)
    requires at <= world.now && result.startAt <= at && result.State() == Begin(New(result.startAt), Preflight, at)
    requires world.trace == [] && Opening(world.stamps, result.startAt, at)
    modifies world, result
    ensures unchanged(world`trace, world`files, world`removalRefused, result`startAt)
    ensures unchanged(result`recoveryDuration, result`recoveryPhaseStatus)
    ensures unchanged(result`tempCleanupDuration, result`tempCleanupStatus)
    ensures unchanged(result`stored, result`databaseSize, result`databaseSizeAvailable, result`databaseSizeAttempted)
    ensures stateErr.None? && Ready(result.State(), Prepare, world.now) && result.initialized
    ensures !result.recoveryAttempted && result.recoveryErrs == [] && result.recoveryStatus == NoRecovery
    ensures OnTime(world.stamps, result.State(), 0)
  {
    result.MarkInitialized();
    var end := world.Now();
    PreflightTimed(old(world.stamps), result.startAt, at, end, External(0));
    PreflightPasses(result.startAt, at, end);
    stateErr := result.CompletePhase(end);
  }

  /** The record of a finished run: its error and phases, its times, and its recovery fields. */
  ghost predicate Accounted(world: World, result: ExecutionResult, err: Option<Err>, n: nat)
    reads world, result
  {
    && Finished(result.State(), err) && result.startAt <= world.now
    && RunTimed(world.stamps, result.State(), n, |world.trace|, result.recoveryDuration,
                result.tempCleanupStatus != NotTried, result.tempCleanupDuration)
    && Spent(result.State()) + result.recoveryDuration + result.tempCleanupDuration <= world.now - result.startAt
    && (result.recoveryPhaseStatus == NoRecovery ==> result.recoveryStatus == NoRecovery)
    && (err.None? ==> result.recoveryStatus == NoRecovery && result.recoveryErrs == [])
  }

  /** Preflight and the workflow. Beginning and completing preflight cannot be objected to. */
  method Attempt(world: World, result: ExecutionResult, checks: Checks) returns (err: Option<Err>, ghost n: nat)
    requires result.State() == New(result.startAt) && result.startAt <= world.now && world.trace == []
    requires world.stamps == [Stamp(result.startAt, 0)]
    requires result.recoveryDuration == 0 && result.recoveryPhaseStatus == NoRecovery
    requires result.tempCleanupDuration == 0 && result.tempCleanupStatus == NotTried
    requires MetricsOf(result) == Metrics(None, false, None)
    modifies world, result
    ensures Measured(world.trace, world.answers, MetricsOf(result))
    ensures Accounted(world, result, err, n)
    ensures Explained(checks, world.trace, n,
                      AccountOf(result.State(), result.recoveryPhaseStatus, result.tempCleanupStatus))
    ensures !world.removalRefused ==> world.files == old(world.files)
  {
    n := 0;
    var at := world.Now();
    var stateErr := result.BeginPhase(Preflight, at);
    if stateErr.Some? {
      assert false;
    }
    err := None;
    if checks.flags.Some? {
      err := Some(PreflightFailed(Flags, checks.flags.value));
    } else if checks.configuration.Some? {
      err := Some(PreflightFailed(Configuration, checks.configuration.value));
    } else if checks.construction.Some? {
      err := Some(PreflightFailed(Construction, checks.construction.value));
    }
    if err.Some? {
      Refuse(world, result, err.value, at);
      return;
    }
    stateErr := Admit(world, result, at);
    if stateErr.Some? {
      assert false;
    }
    var runner := new Runner(checks.cfg, world);
    assert world.files == old(world.files);
    err, n := runner.RunWithResult(result);
  }

  // ----- the report and the summary

  /** The account given to the outside: the report's error and overall recovery, and the
      summary's view of the recovery call and the removal. */
  function ReportedAccount(report: Report, summary: Summary): Account {
    Account(report.error, report.failedPhase, summary.recoveryAttempted, summary.recoveryStatus,
            report.recoveryStatus, report.recoveryErrs, summary.tempCleanupStatus)
  }

  /** The measurements the report and the summary pass on. */
  function MetricsReported(report: Report, summary: Summary): Metrics {
    Metrics(report.stored, summary.databaseSizeAttempted,
            if summary.databaseSizeAvailable then Some(summary.databaseSize) else None)
  }

  /** Exactly what the calls that succeeded were answered: the object the fetch, the fifth
      call, was answered with, and the size the size query, the thirteenth, was. */
  ghost predicate Answered(t: seq<Call>, answers: nat -> Answer, m: Metrics) {
    && m.stored == (if Done(t, Fetch) then Some(Fetched(answers(4).fetch)) else None)
    && m.attempted == Done(t, Load)
    && m.size == (if Done(t, Size) then Some(answers(12).size) else None)
  }

  /** In a run's trace the fetch can only be the fifth call and the size query the thirteenth. */
  lemma InPlace(t: seq<Call>, cfg: Config, n: nat, i: nat)
    requires RunTrace(t, cfg, n) && i < |t|
    ensures t[i].effect == Fetch ==> i == 4
    ensures t[i].effect == Size ==> i == 12
  {
    if i < n {
      CallsAreCanon(t, cfg, n, i);
    } else {
      TailTouchesNothing(t, cfg, n, i);
    }
  }

  lemma AnsweredInPlace(t: seq<Call>, answers: nat -> Answer, m: Metrics)
    requires Measured(t, answers, m)
    requires forall i: nat :: i < |t| ==> (t[i].effect == Fetch ==> i == 4) && (t[i].effect == Size ==> i == 12)
    ensures Answered(t, answers, m)
  {
  }

  lemma MeasurementsAnswered(checks: Checks, t: seq<Call>, n: nat, a: Account, answers: nat -> Answer, m: Metrics)
    requires Explained(checks, t, n, a) && Measured(t, answers, m)
    ensures Answered(t, answers, m)
  {
    forall i: nat | i < |t|
      ensures (t[i].effect == Fetch ==> i == 4) && (t[i].effect == Size ==> i == 12)
    {
      InPlace(t, checks.cfg, n, i);
    }
    AnsweredInPlace(t, answers, m);
  }

  /** How many calls the steps of a phase before number i make. */
  lemma StepWidth(cfg: Config, steps: seq<Step>, i: nat)
    requires i < |steps|
    ensures |EffectsOf(cfg, steps[..i + 1])| == |EffectsOf(cfg, steps[..i])| + |EffectsOfStep(cfg, steps[i])|
  {
    assert steps[..i + 1] == steps[..i] + [steps[i]];
    StepsOfTwo(cfg, steps[..i], steps[i]);
  }

  /** How many calls of a phase are made before its step number i: recording the replicas and
      restoring the database make two each, every other step one. */
  function Offset(phase: Phase, i: nat): nat {
    i + if (phase == Prepare && i > 0) || (phase == Restore && i > 6) then 1 else 0
  }

  lemma WidthAt(cfg: Config, phase: Phase, i: nat)
    requires i < |Script(phase)|
    ensures |EffectsOfStep(cfg, Script(phase)[i])| == Offset(phase, i + 1) - Offset(phase, i)
  {
  }

  lemma {:induction false} OffsetIs(cfg: Config, phase: Phase, i: nat)
    requires i <= |Script(phase)|
    ensures |EffectsOf(cfg, Script(phase)[..i])| == Offset(phase, i)
  {
    if i > 0 {
      OffsetIs(cfg, phase, i - 1);
      StepWidth(cfg, Script(phase), i - 1);
      WidthAt(cfg, phase, i - 1);
    } else {
      assert Script(phase)[..0] == [];
    }
  }

  /** The step that each call of the workflow belongs to, by position. */
  function StepOf(i: nat): Step
    requires i < 20
  {
    [RecordReplicas, RecordReplicas, CheckS3, CheckKubernetes, Download,
     ScaleWeb(0), ScaleDb(1), WaitWeb(0), WaitDb(1), CheckDb, ResetDb, RestoreDb, RestoreDb, AnalyzeDb,
     ScaleWeb(1), WaitWeb(1), AwaitReadiness, CheckTimeline,
     ScaleWeb(0), ScaleDb(0)][i]
  }

  lemma StepAt(phase: Phase, i: nat, c: nat)
    requires phase != Preflight && i < |Script(phase)| && Offset(phase, i) <= c < Offset(phase, i + 1)
    ensures Boundary(Index(phase) - 1) + c < 20 && Script(phase)[i] == StepOf(Boundary(Index(phase) - 1) + c)
  {
  }

  /** What is returned, by position: the failure of the workflow's last call, naming the phase
      and the step it belongs to; else the failure of the dump's removal; else nothing. Without
      an error every call but the first two and the thirteenth succeeded. */
  ghost predicate ErrInOrder(t: seq<Call>, n: nat, err: Option<Err>, failed: Option<Phase>)
    requires 1 <= n <= 20 && n <= |t|
  {
    var phase := if n <= 5 then Prepare else if n <= 14 then Restore else if n <= 18 then Verify else Cleanup;
    var last, removal := t[n - 1].err, if n > 5 then t[|t| - 1].err else None;
    && err == (if last.Some? then Some(StepFailed(phase, StepOf(n - 1), last.value))
               else if removal.Some? then Some(RemovalFailed(removal.value)) else None)
    && failed == (if last.Some? then Some(phase) else if removal.Some? then Some(Cleanup) else None)
    && (err.None? ==> n == 20 && forall i :: 2 <= i < 20 && i != 12 ==> t[i].err.None?)
  }

  /** What is said of recovery and removal, by position: recovery was tried exactly if the
      workflow's last call failed, the removal exactly if the workflow went past the fifth. */
  ghost predicate AftermathTold(t: seq<Call>, n: nat, a: Account)
    requires 1 <= n <= 20 && n <= |t|
    requires |t| >= n + (if t[n - 1].err.Some? then 1 else 0)
  {
    var removal := if n > 5 then t[|t| - 1].err else None;
    && (a.attempted <==> t[n - 1].err.Some?)
    && (if !a.attempted then a.own == NoRecovery && a.overall == NoRecovery && a.errs == []
        else
          a.own == (if t[n].err.Some? then RecoveryError else RecoverySuccess)
          && a.overall == (if t[n].err.Some? || removal.Some? then RecoveryError else RecoverySuccess)
          && a.errs == (if t[n].err.Some? then [RecoveryFailed(t[n].err.value)] else [])
                       + (if removal.Some? then [RemovalFailed(removal.value)] else []))
    && a.cleanup == (if n <= 5 then NotTried else if removal.None? then CleanupSuccess else CleanupError)
  }

  lemma BlamedAt(cfg: Config, phase: Phase, i: nat, c: nat)
    requires phase != Preflight && Makes(cfg, Script(phase), i, c + 1)
    ensures Boundary(Index(phase) - 1) + c < 20 && Script(phase)[i] == StepOf(Boundary(Index(phase) - 1) + c)
  {
    OffsetIs(cfg, phase, i);
    OffsetIs(cfg, phase, i + 1);
    StepAt(phase, i, c);
  }

  lemma BlamedStep(cfg: Config, phase: Phase, step: Step, c: nat)
    requires phase != Preflight && exists i: nat :: Makes(cfg, Script(phase), i, c + 1) && Script(phase)[i] == step
    ensures Boundary(Index(phase) - 1) + c < 20 && step == StepOf(Boundary(Index(phase) - 1) + c)
  {
    var i: nat :| Makes(cfg, Script(phase), i, c + 1) && Script(phase)[i] == step;
    BlamedAt(cfg, phase, i, c);
  }

  lemma PhaseOfCall(phase: Phase, n: nat)
    requires phase != Preflight && Boundary(Index(phase) - 1) < n <= Boundary(Index(phase))
    ensures phase == if n <= 5 then Prepare else if n <= 14 then Restore else if n <= 18 then Verify else Cleanup
  {
  }

  lemma StepInOrder(cfg: Config, err: Err, failed: Option<Phase>, calls: seq<Call>)
    requires IsStepFailure(cfg, err, failed, calls) && |calls| <= 20
    ensures err.step == StepOf(|calls| - 1)
    ensures err.phase == if |calls| <= 5 then Prepare else if |calls| <= 14 then Restore
                         else if |calls| <= 18 then Verify else Cleanup
  {
    var from := Boundary(Index(err.phase) - 1);
    BlamedStep(cfg, err.phase, err.step, |calls| - 1 - from);
    PhaseOfCall(err.phase, |calls|);
  }

  lemma OutcomeInOrder(t: seq<Call>, cfg: Config, n: nat, a: Account)
    requires TrueTo(t, cfg, n, a)
    ensures InOrder(t, cfg, n) && ErrInOrder(t, n, a.err, a.failed) && AftermathTold(t, n, a)
  {
    RunInOrder(t, cfg, n);
    WorkflowInOrder(t, cfg, n);
    assert t[..n][n - 1] == t[n - 1];
    if CutShort(t[..n], Canon(cfg)) {
      StepInOrder(cfg, a.err.value, a.failed, t[..n]);
    }
  }

  /** The returned error, the report and the summary say the same: a run is a success, never
      incomplete, exactly if no error is returned, and otherwise fails with that error. */
  ghost predicate Agree(err: Option<Err>, report: Report, summary: Summary) {
    && report.verdict == (if err.None? then SuccessVerdict else FailureVerdict)
    && summary.success == err.None? && report.error == err
    && report.failedPhase == summary.failedPhase && (err.Some? <==> report.failedPhase.Some?)
    && report.rows == summary.rows && report.total == summary.total
    && summary.backupSize == (if report.stored.Some? then Some(report.stored.value.size) else None)
  }

  /** The rows read success* failure? skipped*, with a failure exactly at the failed phase. */
  ghost predicate RowsRead(report: Report) {
    var k := if report.failedPhase.Some? then Index(report.failedPhase.value) else |ORDER|;
    && |report.rows| == |ORDER|
    && forall i :: 0 <= i < |ORDER| ==>
         report.rows[i].phase == ORDER[i]
         && report.rows[i].status == if i < k then Succeeded else if i == k then Failed else Skipped
  }

  /** The first p rows run from one reading to the next, with exactly their calls in between;
      the others take no time. */
  ghost predicate RowsClocked(rows: seq<ReportRow>, st: seq<Stamp>, n: nat, p: nat)
    requires |rows| == 5 && p <= 5 && |st| > 2 * p
  {
    && (forall i :: 0 <= i < p ==>
          rows[i].duration == st[2 * i + 2].time - st[2 * i + 1].time
          && st[2 * i + 1].calls == [0, 0, 5, 14, 18][i]
          && st[2 * i + 2].calls == if i == p - 1 then n else [0, 5, 14, 18][i])
    && forall i :: p <= i < 5 ==> rows[i].duration == 0
  }

  /** Every duration reported is the difference of two readings of the clock around the calls it
      measures. The run starts at reading 0. Phase number i runs from reading 2i+1 to 2i+2, and
      its calls, by number, are all made in between. Then four readings belong to a recovery,
      two to the dump's removal, and the last one ends the run. */
  ghost predicate Clocked(report: Report, summary: Summary, st: seq<Stamp>, n: nat, calls: nat) {
    var p := if report.failedPhase.Some? then Index(report.failedPhase.value) + 1 else 5;
    var q := 2 * p + 1;
    var r := q + if summary.recoveryAttempted then 4 else 0;
    var last := r + if summary.tempCleanupStatus == NotTried then 0 else 2;
    && |report.rows| == 5 && |st| == last + 1 && RowsClocked(report.rows, st, n, p)
    && (if summary.recoveryAttempted then
          summary.recoveryDuration == st[q + 3].time - st[q].time && st[q].calls == n && st[q + 3].calls == n + 1
        else summary.recoveryDuration == 0)
    && (if summary.tempCleanupStatus != NotTried then
          summary.tempCleanupDuration == st[r + 1].time - st[r].time
          && st[r].calls == calls - 1 && st[r + 1].calls == calls
        else summary.tempCleanupDuration == 0)
    && report.total == st[last].time - st[0].time && st[last].calls == calls
  }

  lemma RowClocked(s: Ledger, rows: seq<ReportRow>, st: seq<Stamp>, n: nat, i: nat)
    requires WellFormed(s) && RowsOf(s, rows) && Stamped(st, s) && InStep(st, Recorded(s), n) && i < 5
    ensures i >= Recorded(s) ==> rows[i].duration == 0
    ensures i < Recorded(s) ==>
      rows[i].duration == st[2 * i + 2].time - st[2 * i + 1].time
      && st[2 * i + 1].calls == [0, 0, 5, 14, 18][i]
      && st[2 * i + 2].calls == if i == Recorded(s) - 1 then n else [0, 5, 14, 18][i]
  {
    assert Index(ORDER[i]) == i;
    assert ORDER[i] in s.phases <==> i < Recorded(s);
    assert i < Recorded(s) ==> PhaseInStep(st, i, Recorded(s), n);
  }

  lemma AllRowsClocked(s: Ledger, rows: seq<ReportRow>, st: seq<Stamp>, n: nat, p: nat)
    requires WellFormed(s) && RowsOf(s, rows) && Stamped(st, s) && InStep(st, Recorded(s), n) && p == Recorded(s)
    ensures RowsClocked(rows, st, n, p)
  {
    forall i | 0 <= i < p
      ensures rows[i].duration == st[2 * i + 2].time - st[2 * i + 1].time
              && st[2 * i + 1].calls == [0, 0, 5, 14, 18][i]
              && st[2 * i + 2].calls == if i == p - 1 then n else [0, 5, 14, 18][i]
    {
      RowClocked(s, rows, st, n, i);
    }
    forall i | p <= i < 5
      ensures rows[i].duration == 0
    {
      RowClocked(s, rows, st, n, i);
    }
  }

  lemma ReportClocked(s: Ledger, err: Option<Err>, st: seq<Stamp>, end: Stamp, n: nat, report: Report, summary: Summary)
    requires Finished(s, err) && RowsOf(s, report.rows) && report.failedPhase == s.failedPhase
    requires RunTimed(st, s, n, end.calls, summary.recoveryDuration,
                      summary.tempCleanupStatus != NotTried, summary.tempCleanupDuration)
    requires summary.recoveryAttempted == s.recoveryAttempted && s.startAt <= end.time
    requires report.total == end.time - s.startAt
    ensures Clocked(report, summary, st + [end], n, end.calls)
  {
    var st' := st + [end];
    SameTimes(st, s, st', s);
    InStepLater(st, st', Recorded(s), n);
    AllRowsClocked(s, report.rows, st', n, Recorded(s));
  }

  /** All measured intervals fit in the total, exactly and in truncated milliseconds. */
  ghost predicate TimeAdds(report: Report, summary: Summary) {
    && |report.rows| == |ORDER|
    && report.rows[0].duration + report.rows[1].duration + report.rows[2].duration
       + report.rows[3].duration + report.rows[4].duration
       + summary.recoveryDuration + summary.tempCleanupDuration <= report.total
    && Ms(report.rows[0].duration) + Ms(report.rows[1].duration) + Ms(report.rows[2].duration)
       + Ms(report.rows[3].duration) + Ms(report.rows[4].duration)
       + Ms(summary.recoveryDuration) + Ms(summary.tempCleanupDuration) <= Ms(report.total)
  }

  lemma MsFits(a: nat, b: nat, c: nat, d: nat, e: nat, f: nat, g: nat, total: nat)
    requires a + b + c + d + e + f + g <= total
    ensures Ms(a) + Ms(b) + Ms(c) + Ms(d) + Ms(e) + Ms(f) + Ms(g) <= Ms(total)
  {
    MsAdds(a, b);
    MsAdds(a + b, c);
    MsAdds(a + b + c, d);
    MsAdds(a + b + c + d, e);
    MsAdds(a + b + c + d + e, f);
    MsAdds(a + b + c + d + e + f, g);
    MsAdds(a + b + c + d + e + f + g, total - (a + b + c + d + e + f + g));
  }

  lemma TimesTell(s: Ledger, err: Option<Err>, st: seq<Stamp>, end: Stamp, n: nat, report: Report, summary: Summary)
    requires Finished(s, err) && RowsOf(s, report.rows) && report.failedPhase == s.failedPhase
    requires RunTimed(st, s, n, end.calls, summary.recoveryDuration,
                      summary.tempCleanupStatus != NotTried, summary.tempCleanupDuration)
    requires summary.recoveryAttempted == s.recoveryAttempted && s.startAt <= end.time
    requires report.total == end.time - s.startAt
    requires Spent(s) + summary.recoveryDuration + summary.tempCleanupDuration <= report.total
    ensures TimeAdds(report, summary) && Clocked(report, summary, st + [end], n, end.calls)
  {
    ReportClocked(s, err, st, end, n, report, summary);
    MsFits(report.rows[0].duration, report.rows[1].duration, report.rows[2].duration, report.rows[3].duration,
           report.rows[4].duration, summary.recoveryDuration, summary.tempCleanupDuration, report.total);
  }

  lemma RowsTell(s: Ledger, err: Option<Err>, report: Report)
    requires Finished(s, err) && RowsOf(s, report.rows) && report.failedPhase == s.failedPhase
    ensures RowsRead(report)
  {
    RowsShape(s);
    forall i | 0 <= i < |ORDER|
      ensures Index(ORDER[i]) == i && report.rows[i].phase == ORDER[i] && report.rows[i].status == RowOf(s, ORDER[i])
    {
    }
  }

  /** Report and summary of a finished run at the given time. */
  method Conclude(result: ExecutionResult, err: Option<Err>, at: nat) returns (report: Report, summary: Summary)
    requires Finished(result.State(), err) && result.startAt <= at
    requires result.recoveryPhaseStatus == NoRecovery ==> result.recoveryStatus == NoRecovery
    requires err.None? ==> result.recoveryStatus == NoRecovery && result.recoveryErrs == []
    ensures Agree(err, report, summary) && RowsRead(report)
    ensures MetricsReported(report, summary) == MetricsOf(result)
    ensures ReportedAccount(report, summary) ==
            AccountOf(result.State(), result.recoveryPhaseStatus, result.tempCleanupStatus)
    ensures RowsOf(result.State(), report.rows) && report.failedPhase == result.failedPhase
    ensures report.total == at - result.startAt
    ensures summary.recoveryDuration == result.recoveryDuration
            && summary.tempCleanupDuration == result.tempCleanupDuration
  {
    report := result.FinalReport(at);
    summary := result.SafeSummary(at);
    RowsTell(result.State(), err, report);
    assert report.rows == summary.rows;
  }

  /** The deferred finalisation. A finished run has no phase left to fail, so the report only
      reads the state. */
  method Finalise(world: World, result: ExecutionResult, err: Option<Err>, ghost n: nat)
    returns (report: Report, summary: Summary)
    requires Accounted(world, result, err, n)
    modifies world`now, world`readings, world`stamps
    ensures unchanged(world`trace, world`files, world`removalRefused)
    ensures Agree(err, report, summary) && RowsRead(report) && TimeAdds(report, summary)
    ensures Clocked(report, summary, world.stamps, n, |world.trace|)
    ensures MetricsReported(report, summary) == MetricsOf(result)
    ensures ReportedAccount(report, summary) ==
            AccountOf(result.State(), result.recoveryPhaseStatus, result.tempCleanupStatus)
  {
    var unrecorded, active := result.firstErr.None?, result.currentPhase.Some?;
    if err.Some? && unrecorded && active {
      assert false;
    }
    ghost var st := world.stamps;
    var finished := world.Now();
    report, summary := Conclude(result, err, finished);
    TimesTell(result.State(), err, st, Stamp(finished, |world.trace|), n, report, summary);
  }

  /** What a run did, by position: nothing if preflight refused it, else its calls in order,
      and the error they explain. */
  ghost predicate ToldInOrder(checks: Checks, t: seq<Call>, n: nat, a: Account) {
    if checks.flags.None? && checks.configuration.None? && checks.construction.None? then
      InOrder(t, checks.cfg, n) && ErrInOrder(t, n, a.err, a.failed) && AftermathTold(t, n, a)
    else
      && t == [] && n == 0 && a.failed == Some(Preflight) && !a.attempted && a.errs == [] && a.cleanup == NotTried
      && a.err == Some(
           if checks.flags.Some? then PreflightFailed(Flags, checks.flags.value)
           else if checks.configuration.Some? then PreflightFailed(Configuration, checks.configuration.value)
           else PreflightFailed(Construction, checks.construction.value))
  }

  lemma ExplainedInOrder(checks: Checks, t: seq<Call>, n: nat, a: Account)
    requires Explained(checks, t, n, a)
    ensures ToldInOrder(checks, t, n, a)
  {
    if checks.Pass() {
      OutcomeInOrder(t, checks.cfg, n, a);
    }
  }

  /** What is told of a run is what happened: an account explained by its trace, by position too,
      and the measurements answered. */
  ghost predicate ToldTruly(checks: Checks, t: seq<Call>, n: nat, a: Account, answers: nat -> Answer, m: Metrics) {
    Explained(checks, t, n, a) && ToldInOrder(checks, t, n, a) && Answered(t, answers, m)
  }

  lemma RunTold(checks: Checks, t: seq<Call>, n: nat, a: Account, answers: nat -> Answer, m: Metrics)
    requires Explained(checks, t, n, a) && Measured(t, answers, m)
    ensures ToldTruly(checks, t, n, a, answers, m)
  {
    ExplainedInOrder(checks, t, n, a);
    MeasurementsAnswered(checks, t, n, a, answers, m);
  }

  /** A whole run. However the preflight checks and the world answer: error, report and
      summary agree; the rows and the times add up; the account given is exactly what
      happened; measurements made before a failure are passed on, exactly those whose calls
      succeeded; and the staged files are those of before unless a removal was refused. */
  method RunWithSummary(world: World, checks: Checks)
    returns (summary: Summary, report: Report, err: Option<Err>, ghost n: nat)
    requires world.trace == [] && world.stamps == []
    modifies world
    ensures Agree(err, report, summary) && RowsRead(report) && TimeAdds(report, summary)
    ensures ToldTruly(checks, world.trace, n, ReportedAccount(report, summary),
                      world.answers, MetricsReported(report, summary))
    ensures Clocked(report, summary, world.stamps, n, |world.trace|)
    ensures !world.removalRefused ==> world.files == old(world.files)
  {
    var start := world.Now();
    var result := new ExecutionResult(start);
    err, n := Attempt(world, result, checks);
    report, summary := Finalise(world, result, err, n);
    RunTold(checks, world.trace, n, ReportedAccount(report, summary), world.answers, MetricsReported(report, summary));
  }
}
