/** The mutable record of a run (internal/restore/result.go). Its phase state is the
    ledger; the remaining fields are measurements. */
module ExecutionRecord {
  import opened Wrappers
  import opened RestoreDomain
  import opened PhaseLedger

  datatype ReportRow = ReportRow(phase: Phase, status: RowStatus, duration: nat)

  datatype Report = Report(
    verdict: Verdict, failedPhase: Option<Phase>, error: Option<Err>,
    recoveryStatus: RecoveryStatus, recoveryErrs: seq<Err>, total: nat, rows: seq<ReportRow>, stored: Option<Dump>)

  datatype CleanupStatus = NotTried | CleanupSuccess | CleanupError

  datatype Summary = Summary(
    success: bool, failedPhase: Option<Phase>,
    databaseSize: int, databaseSizeAvailable: bool, databaseSizeAttempted: bool,
    backupSize: Option<int>, total: nat, rows: seq<ReportRow>,
    recoveryStatus: RecoveryStatus, recoveryAttempted: bool, recoveryDuration: nat,
    tempCleanupStatus: CleanupStatus, tempCleanupDuration: nat)

  /** One row per phase, in order. */
  predicate RowsOf(s: Ledger, rows: seq<ReportRow>) {
    |rows| == |ORDER| && forall i :: 0 <= i < |ORDER| ==>
      rows[i] == ReportRow(ORDER[i], RowOf(s, ORDER[i]), DurationOf(s, ORDER[i]))
  }

  lemma SuccessIffRows(s: Ledger, rows: seq<ReportRow>)
    requires WellFormed(s) && RowsOf(s, rows)
    ensures VerdictOf(s) == SuccessVerdict <==> forall i :: 0 <= i < |rows| ==> rows[i].status == Succeeded
  {
    SuccessIffAllSucceeded(s);
    if forall i :: 0 <= i < |rows| ==> rows[i].status == Succeeded {
      forall p: Phase
        ensures RowOf(s, p) == Succeeded
      {
        assert rows[Index(p)].phase == p;
      }
    }
  }

  class ExecutionResult {
    var startAt: nat
    var currentPhase: Option<Phase>
    var currentPhaseStart: nat
    var nextPhase: nat
    var initialized: bool
    var failedPhase: Option<Phase>
    var firstErr: Option<Err>
    var recoveryErrs: seq<Err>
    var recoveryStatus: RecoveryStatus
    var recoveryAttempted: bool
    var phases: map<Phase, PhaseSummary>

    var stored: Option<Dump>
    var databaseSize: int
    var databaseSizeAvailable: bool
    var databaseSizeAttempted: bool
    var recoveryPhaseStatus: RecoveryStatus
    var recoveryDuration: nat
    var tempCleanupDuration: nat
    var tempCleanupStatus: CleanupStatus

    function State(): Ledger
      reads this
    {
      Ledger(startAt, currentPhase, currentPhaseStart, nextPhase, initialized, failedPhase, firstErr,
             recoveryErrs, recoveryStatus, recoveryAttempted, phases)
    }

    /** What the phase operations leave alone. */
    ghost function Aside(): (Option<Dump>, int, bool, bool, RecoveryStatus, nat, nat, CleanupStatus)
      reads this`stored, this`databaseSize, this`databaseSizeAvailable, this`databaseSizeAttempted
      reads this`recoveryPhaseStatus, this`recoveryDuration, this`tempCleanupDuration, this`tempCleanupStatus
    {
      (stored, databaseSize, databaseSizeAvailable, databaseSizeAttempted,
       recoveryPhaseStatus, recoveryDuration, tempCleanupDuration, tempCleanupStatus)
    }

    constructor (start: nat)
      ensures State() == New(start)
      ensures stored.None? && !databaseSizeAvailable && !databaseSizeAttempted
      ensures recoveryPhaseStatus == NoRecovery && recoveryDuration == 0 && tempCleanupDuration == 0
              && tempCleanupStatus == NotTried
    {
      startAt, currentPhase, currentPhaseStart, nextPhase, initialized := start, None, 0, 0, false;
      failedPhase, firstErr, recoveryErrs, recoveryStatus, recoveryAttempted := None, None, [], NoRecovery, false;
      phases := map[];
      stored, databaseSize, databaseSizeAvailable, databaseSizeAttempted := None, 0, false, false;
      recoveryPhaseStatus, recoveryDuration, tempCleanupDuration, tempCleanupStatus := NoRecovery, 0, 0, NotTried;
    }

    method BeginPhase(phase: Phase, at: nat) returns (err: Option<StateError>)
      modifies this`currentPhase, this`currentPhaseStart, this`recoveryAttempted
      ensures State() == Begin(old(State()), phase, at) && err == BeginError(old(State()), phase)
    {
      if currentPhase.Some? {
        return Some(AlreadyActive(currentPhase.value));
      }
      if failedPhase.Some? {
        if phase != Cleanup || !RecoveryRequired(State()) {
          return Some(AfterFailure(phase, failedPhase.value));
        }
        recoveryAttempted := true;
      } else if Index(phase) != nextPhase {
        return Some(OutOfOrder(phase));
      }
      currentPhase, currentPhaseStart := Some(phase), at;
      return None;
    }

    method CompletePhase(at: nat) returns (err: Option<StateError>)
      modifies this`currentPhase, this`currentPhaseStart, this`recoveryStatus, this`phases, this`nextPhase
      ensures State() == Complete(old(State()), at) && err == CompleteError(old(State()))
    {
      if currentPhase.None? {
        return Some(NoneActive);
      }
      var phase := currentPhase.value;
      var recovery := recoveryAttempted && phase == Cleanup;
      if recovery {
        recoveryStatus := RecoverySuccess;
      } else {
        phases := phases[phase := PhaseSummary(Success, Elapsed(currentPhaseStart, at))];
      }
      currentPhase, currentPhaseStart := None, 0;
      if !recovery && Index(phase) == nextPhase {
        nextPhase := nextPhase + 1;
      }
      return None;
    }

    method NoteRecoveryError(err: Err)
      modifies this`recoveryStatus, this`recoveryErrs
      ensures State() == RecordRecoveryError(old(State()), err)
    {
      recoveryStatus, recoveryErrs := RecoveryError, recoveryErrs + [err];
    }

    method FailPhase(phase: Phase, at: nat, err: Err) returns (stateErr: Option<StateError>)
      modifies this`currentPhase, this`currentPhaseStart, this`recoveryStatus, this`recoveryErrs, this`phases,
               this`failedPhase, this`firstErr
      ensures State() == Fail(old(State()), phase, at, err) && stateErr == FailError(old(State()), phase)
    {
      if currentPhase != Some(phase) {
        return Some(NotActive(phase));
      }
      ghost var s := State();
      var recovery := recoveryAttempted && phase == Cleanup;
      if !recovery {
        phases := phases[phase := PhaseSummary(Failure, Elapsed(currentPhaseStart, at))];
      }
      currentPhase, currentPhaseStart := None, 0;
      if recovery {
        assert State() == s.(currentPhase := None, currentPhaseStart := 0);
        NoteRecoveryError(err);
        return None;
      }
      if failedPhase.None? {
        failedPhase, firstErr := Some(phase), Some(err);
        return None;
      }
      return Some(AlreadyFailed(failedPhase.value));
    }

    method FailCompletedPhase(phase: Phase, err: Err)
      modifies this`recoveryStatus, this`recoveryErrs, this`phases, this`failedPhase, this`firstErr
      ensures State() == FailCompleted(old(State()), phase, err)
    {
      if failedPhase.Some? {
        NoteRecoveryError(err);
        return;
      }
      failedPhase, firstErr := Some(phase), Some(err);
      var duration := if phase in phases then phases[phase].duration else 0;
      phases := phases[phase := PhaseSummary(Failure, duration)];
    }

    method MarkInitialized()
      modifies this`initialized
      ensures State() == old(State()).(initialized := true)
    {
      initialized := true;
    }

    method Rows() returns (rows: seq<ReportRow>)
      ensures RowsOf(State(), rows)
    {
      rows := [];
      for i := 0 to |ORDER|
        invariant |rows| == i
        invariant forall j :: 0 <= j < i ==>
          rows[j] == ReportRow(ORDER[j], RowOf(State(), ORDER[j]), DurationOf(State(), ORDER[j]))
      {
        var p := ORDER[i];
        var row := ReportRow(p, Skipped, 0);
        if p in phases {
          row := ReportRow(p, if phases[p].status == Success then Succeeded else Failed, phases[p].duration);
        }
        rows := rows + [row];
      }
    }

    /** The final report. For a well-formed, idle state its verdict, its rows and the
        summary's success flag all say the same. */
    method FinalReport(at: nat) returns (report: Report)
      ensures report.verdict == VerdictOf(State()) && RowsOf(State(), report.rows)
      ensures report.total == Elapsed(startAt, at) && report.stored == stored
      ensures failedPhase.Some? ==> report.failedPhase == failedPhase && report.error == firstErr
                                    && report.recoveryStatus == recoveryStatus && report.recoveryErrs == recoveryErrs
      ensures failedPhase.None? ==> report.failedPhase.None? && report.error.None?
                                    && report.recoveryStatus == NoRecovery && report.recoveryErrs == []
      ensures WellFormed(State()) ==>
        (report.verdict == SuccessVerdict <==>
         forall i :: 0 <= i < |report.rows| ==> report.rows[i].status == Succeeded)
    {
      var rows := Rows();
      report := Report(Incomplete, None, None, NoRecovery, [], Elapsed(startAt, at), rows, stored);
      if failedPhase.Some? {
        report := report.(verdict := FailureVerdict, failedPhase := failedPhase, error := firstErr,
                          recoveryStatus := recoveryStatus, recoveryErrs := recoveryErrs);
      } else if currentPhase.None? && nextPhase == |ORDER| {
        report := report.(verdict := SuccessVerdict);
      }
      if WellFormed(State()) {
        SuccessIffRows(State(), rows);
      }
    }

    method SafeSummary(at: nat) returns (s: Summary)
      ensures s.success <==> VerdictOf(State()) == SuccessVerdict
      ensures RowsOf(State(), s.rows) && s.total == Elapsed(startAt, at) && s.failedPhase == failedPhase
      ensures s.recoveryStatus == if recoveryPhaseStatus != NoRecovery then recoveryPhaseStatus else recoveryStatus
      ensures s.recoveryAttempted == recoveryAttempted && s.recoveryDuration == recoveryDuration
      ensures s.tempCleanupStatus == tempCleanupStatus && s.tempCleanupDuration == tempCleanupDuration
      ensures s.databaseSize == databaseSize && s.databaseSizeAvailable == databaseSizeAvailable
              && s.databaseSizeAttempted == databaseSizeAttempted
      ensures s.backupSize == if stored.Some? then Some(stored.value.size) else None
    {
      var rows := Rows();
      var backupSize := None;
      if stored.Some? {
        backupSize := Some(stored.value.size);
      }
      var recovery := recoveryStatus;
      if recoveryPhaseStatus != NoRecovery {
        recovery := recoveryPhaseStatus;
      }
      s := Summary(failedPhase.None? && currentPhase.None? && nextPhase == |ORDER|, failedPhase,
                   databaseSize, databaseSizeAvailable, databaseSizeAttempted, backupSize, Elapsed(startAt, at), rows,
                   recovery, recoveryAttempted, recoveryDuration, tempCleanupStatus, tempCleanupDuration);
    }
  }
}
