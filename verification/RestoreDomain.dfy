/** The vocabulary of a restore-test run: its phases, steps, external effects and errors
    (internal/restore/result.go, internal/restore/runner.go). */
module RestoreDomain {
  import opened Wrappers

  datatype Phase = Preflight | Prepare | Restore | Verify | Cleanup

  const ORDER: seq<Phase> := [Preflight, Prepare, Restore, Verify, Cleanup]

  function Index(p: Phase): (i: nat)
    ensures i < |ORDER| && ORDER[i] == p
  {
    match p
    case Preflight => 0
    case Prepare => 1
    case Restore => 2
    case Verify => 3
    case Cleanup => 4
  }

  datatype Step =
    | RecordReplicas | CheckS3 | CheckKubernetes | Download
    | ScaleWeb(replicas: int) | ScaleDb(replicas: int) | WaitWeb(replicas: int) | WaitDb(replicas: int)
    | CheckDb | ResetDb | RestoreDb | AnalyzeDb | AwaitReadiness | CheckTimeline

  /** One call on an external system. */
  datatype Effect =
    | GetReplicas(workload: string) | S3Check | K8sCheck | Fetch
    | Scale(workload: string, replicas: int) | WaitFor(workload: string, replicas: int)
    | DbCheck | Reset | Load | Size | Analyze | Readiness | Timeline | RemoveDump

  datatype Config = Config(web: string, db: string)

  datatype Stage = Flags | Configuration | Construction

  datatype Err =
    | External(code: int)
    | StepFailed(phase: Phase, step: Step, cause: Err)
    | RecoveryFailed(cause: Err)
    | RemovalFailed(cause: Err)
    | PreflightFailed(stage: Stage, code: int)

  /** The complaints of the phase state machine itself. */
  datatype StateError =
    | AlreadyActive(active: Phase) | AfterFailure(phase: Phase, failed: Phase) | OutOfOrder(phase: Phase)
    | NoneActive | NotActive(phase: Phase) | AlreadyFailed(failed: Phase)

  /** A call that was made: detached from cancellation or not, and how it ended. */
  datatype Call = Call(effect: Effect, detached: bool, err: Option<Err>)

  datatype Dump = Dump(path: string, etag: string, size: int)
}
