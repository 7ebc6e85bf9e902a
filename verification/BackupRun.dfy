/** The five-phase backup pipeline over arbitrary dependency outcomes
    (internal/backup/backup.go, internal/backup/result.go). */
module BackupRun {
  import opened Wrappers

  datatype Status = Skipped | Success | Failure
  datatype PhaseSummary = PhaseSummary(status: Status, duration: nat)
  datatype Error = HelpRequested | ConfigurationError(code: int) | PhaseError(index: nat)

  const PHASE_COUNT: nat := 5

  datatype Target = Target(database: string, bucket: string, key: string)
  const NO_TARGET := Target("", "", "")

  datatype Summary = Summary(
    failedPhase: Option<nat>, size: int, sizeAvailable: bool, uploadVerified: bool,
    target: Target, total: nat, phases: seq<PhaseSummary>)

  /** The least index holding a failure. */
  function FirstFailure(phases: seq<PhaseSummary>): (f: Option<nat>)
    ensures f.Some? ==> f.value < |phases| && phases[f.value].status == Failure
                        && forall i :: 0 <= i < f.value ==> phases[i].status != Failure
    ensures f.None? ==> forall i :: 0 <= i < |phases| ==> phases[i].status != Failure
  {
    if phases == [] then None
    else match FirstFailure(phases[..|phases| - 1])
      case Some(i) => Some(i)
      case None => if phases[|phases| - 1].status == Failure then Some((|phases| - 1) as nat) else None
  }

  lemma FirstFailureIs(phases: seq<PhaseSummary>, f: Option<nat>)
    requires f.Some? ==> f.value < |phases| && phases[f.value].status == Failure
                         && forall i :: 0 <= i < f.value ==> phases[i].status != Failure
    requires f.None? ==> forall i :: 0 <= i < |phases| ==> phases[i].status != Failure
    ensures f == FirstFailure(phases)
  {
    var g := FirstFailure(phases);
    if f.Some? && g.Some? {
      assert !(f.value < g.value) && !(g.value < f.value);
    }
  }

  function TotalDuration(phases: seq<PhaseSummary>): nat {
    if phases == [] then 0 else TotalDuration(phases[..|phases| - 1]) + phases[|phases| - 1].duration
  }

  lemma {:induction false} ReplaceDuration(phases: seq<PhaseSummary>, index: nat, p: PhaseSummary)
    requires index < |phases|
    ensures TotalDuration(phases[index := p]) == TotalDuration(phases) - phases[index].duration + p.duration
  {
    var last := |phases| - 1;
    if index < last {
      ReplaceDuration(phases[..last], index, p);
      assert phases[index := p][..last] == phases[..last][index := p];
    } else {
      assert phases[index := p][..last] == phases[..last];
    }
  }

  /** A clock that never goes back; reading k is at clock(k). */
  ghost predicate Monotone(clock: nat -> nat) {
    forall i: nat, j: nat :: i <= j ==> clock(i) <= clock(j)
  }

  /** The first m phases ran one after the other, each between two readings of its own. */
  ghost predicate RanInOrder(phases: seq<PhaseSummary>, clock: nat -> nat, m: nat) {
    m <= |phases| && forall i: nat :: i < m ==> phases[i].duration == clock(2 * i + 2) - clock(2 * i + 1)
  }

  /** The mutable record a run writes into. */
  class RunResult {
    const clock: nat -> nat
    var readings: nat
    var started: nat
    var failedPhase: Option<nat>
    var err: Option<Error>
    var phases: seq<PhaseSummary>

    /** The first failure is the one recorded, and time spent in phases lies within the run. */
    ghost predicate Valid()
      reads this
    {
      && Monotone(clock) && |phases| == PHASE_COUNT && readings > 0
      && failedPhase == FirstFailure(phases)
      && (err.Some? <==> failedPhase.Some?)
      && started == clock(0)
      && TotalDuration(phases) <= clock(readings - 1) - started
    }

    constructor (clock: nat -> nat)
      requires Monotone(clock)
      ensures Valid() && this.clock == clock && readings == 1 && failedPhase.None? && err.None?
      ensures forall i :: 0 <= i < PHASE_COUNT ==> phases[i] == PhaseSummary(Skipped, 0)
    {
      this.clock := clock;
      readings, started := 1, clock(0);
      failedPhase, err := None, None;
      phases := [];
      new;
      for i := 0 to PHASE_COUNT
        invariant |phases| == i && forall j :: 0 <= j < i ==> phases[j] == PhaseSummary(Skipped, 0)
        invariant TotalDuration(phases) == 0 && readings == 1 && started == clock(0) && failedPhase.None? && err.None?
      {
        assert (phases + [PhaseSummary(Skipped, 0)])[..i] == phases;
        phases := phases + [PhaseSummary(Skipped, 0)];
      }
      FirstFailureIs(phases, None);
    }

    method Now() returns (t: nat)
      modifies this`readings
      ensures readings == old(readings) + 1 && t == clock(old(readings))
    {
      t := clock(readings);
      readings := readings + 1;
    }

    /** Writes down how a phase that began at `began` ended. Only the first failure sets the
        failed phase and the error. */
    method Record(index: nat, began: nat, ok: bool)
      requires index < |phases| && readings > 0 && began == clock(readings - 1) && Monotone(clock)
      modifies this
      ensures readings == old(readings) + 1 && started == old(started)
      ensures phases ==
              old(phases)[index := PhaseSummary(if ok then Success else Failure, clock(old(readings)) - began)]
      ensures failedPhase == if !ok && old(err).None? then Some(index) else old(failedPhase)
      ensures err == if !ok && old(err).None? then Some(PhaseError(index)) else old(err)
    {
      var ended := Now();
      phases := phases[index := PhaseSummary(if ok then Success else Failure, ended - began)];
      if !ok && err.None? {
        failedPhase := Some(index);
        err := Some(PhaseError(index));
      }
    }

    /** Phase timing and recording around an outcome: Valid() is kept when phases run in order. */
    method RunPhase(index: nat, ok: bool)
      requires Valid() && index < PHASE_COUNT
      requires forall j :: index <= j < PHASE_COUNT ==> phases[j] == PhaseSummary(Skipped, 0)
      modifies this
      ensures Valid()
      ensures |phases| == PHASE_COUNT && forall j :: 0 <= j < PHASE_COUNT && j != index ==> phases[j] == old(phases)[j]
      ensures phases[index].status == if ok then Success else Failure
      ensures readings == old(readings) + 2
      ensures phases[index].duration == clock(old(readings) + 1) - clock(old(readings))
      ensures failedPhase == if !ok && old(failedPhase).None? then Some(index) else old(failedPhase)
      ensures err == if !ok && old(err).None? then Some(PhaseError(index)) else old(err)
    {
      var began := Now();
      ReplaceDuration(phases, index, PhaseSummary(if ok then Success else Failure, clock(readings) - began));
      assert clock(old(readings) - 1) <= began;
      Record(index, began, ok);
      FirstFailureIs(phases, failedPhase);
    }
  }

  // ----- what the outside world can answer

  datatype Arguments = Parsed | Help | Malformed
  datatype Removal = Removed | Missing | Refused

  /** One outcome for every call the run can make. The four flags say whether the context
      was cancelled at the four points where the run looks. */
  datatype Outcomes = Outcomes(
    arguments: Arguments,
    cancelledAtStart: bool, config: Option<Target>, configError: Option<int>,
    cancelledAfterConfig: bool, storeReady: bool,
    cancelledBeforeDump: bool, temp: Option<string>, chmodOk: bool, dumpOk: bool, closeOk: bool,
    validateSize: int, validateAvailable: bool, validateOk: bool,
    cancelledBeforeUpload: bool, openOk: bool, uploadOk: bool, uploadCloseOk: bool, remoteSize: Option<int>,
    removal: Removal)

  datatype Effect =
    | LoadConfig | CreateTemp | WriteDump(path: string) | Validate(path: string)
    | Upload(bucket: string, key: string, path: string) | Head(bucket: string, key: string) | Remove(path: string)

  /** The phase's own work succeeds. */
  predicate Ok(o: Outcomes, i: nat)
    decreases i, 0
  {
    match i
    case 0 => o.arguments == Parsed && !o.cancelledAtStart && o.config.Some? && o.configError.None?
              && !o.cancelledAfterConfig && o.storeReady
    case 1 => !o.cancelledBeforeDump && o.temp.Some? && o.chmodOk && o.dumpOk && o.closeOk
    case 2 => o.validateOk
    case 3 => !o.cancelledBeforeUpload && o.openOk && o.uploadOk && o.uploadCloseOk
              && o.remoteSize == Some(if o.validateAvailable then o.validateSize else 0)
    case _ => o.removal != Refused
  }

  predicate TempObtained(o: Outcomes) {
    Ok(o, 0) && !o.cancelledBeforeDump && o.temp.Some?
  }

  /** The phase is run at all: the first four need every phase before them to have
      succeeded; cleanup needs only a named temporary file. */
  predicate Reached(o: Outcomes, i: nat)
    decreases i, 1
  {
    if i < 4 then o.arguments != Help && forall j :: 0 <= j < i ==> Ok(o, j)
    else TempObtained(o) && o.temp.value != ""
  }

  /** The size recorded at validation; zero when validation could not tell. */
  function RecordedSize(o: Outcomes): int {
    if Reached(o, 2) && o.validateAvailable then o.validateSize else 0
  }

  /** The object was stored by this run and its size read back equal to the recorded size. */
  predicate Verified(o: Outcomes) {
    Reached(o, 3) && !o.cancelledBeforeUpload && o.openOk && o.uploadOk && o.remoteSize == Some(RecordedSize(o))
  }

  function StatusOf(o: Outcomes, i: nat): Status {
    if !Reached(o, i) then Skipped else if Ok(o, i) then Success else Failure
  }

  /** Everything the run can do before cleanup, in order. */
  function Script(o: Outcomes): (t: seq<Effect>)
    ensures |t| == 6
  {
    var path := if o.temp.Some? then o.temp.value else "";
    var target := if o.config.Some? then o.config.value else NO_TARGET;
    [LoadConfig, CreateTemp, WriteDump(path), Validate(path),
     Upload(target.bucket, target.key, path), Head(target.bucket, target.key)]
  }

  /** How far along the script the run gets. */
  function Reach(o: Outcomes): (n: nat)
    ensures n <= 6
  {
    if o.arguments != Parsed || o.cancelledAtStart then 0
    else if !Ok(o, 0) || o.cancelledBeforeDump then 1
    else if o.temp.None? || !o.chmodOk then 2
    else if !Ok(o, 1) then 3
    else if !Ok(o, 2) || o.cancelledBeforeUpload || !o.openOk then 4
    else if !o.uploadOk then 5
    else 6
  }

  function Trace(o: Outcomes): seq<Effect> {
    Script(o)[..Reach(o)] + if Reached(o, 4) then [Remove(o.temp.value)] else []
  }

  /** The identity a report carries: known as soon as the configuration is loaded. */
  function ReportedTarget(o: Outcomes): Target {
    if o.arguments == Parsed && !o.cancelledAtStart && o.configError.None? && o.config.Some?
    then o.config.value else NO_TARGET
  }

  // ----- the run

  lemma ReachedMeans(o: Outcomes)
    ensures Reached(o, 0) <==> o.arguments != Help
    ensures Reached(o, 1) <==> Ok(o, 0)
    ensures Reached(o, 2) <==> Ok(o, 0) && Ok(o, 1)
    ensures Reached(o, 3) <==> Ok(o, 0) && Ok(o, 1) && Ok(o, 2)
  {
  }

  method Preflight(o: Outcomes, result: RunResult) returns (target: Target, trace: seq<Effect>)
    requires result.Valid() && result.err.None? && o.arguments != Help && result.readings == 1
    requires forall j :: 0 <= j < PHASE_COUNT ==> result.phases[j] == PhaseSummary(Skipped, 0)
    modifies result
    ensures result.Valid() && forall j :: 1 <= j < PHASE_COUNT ==> result.phases[j] == PhaseSummary(Skipped, 0)
    ensures result.phases[0].status == if Ok(o, 0) then Success else Failure
    ensures result.readings == 3 && RanInOrder(result.phases, result.clock, 1)
    ensures result.err == if Ok(o, 0) then None else Some(PhaseError(0))
    ensures result.failedPhase == if Ok(o, 0) then None else Some(0)
    ensures target == ReportedTarget(o)
    ensures trace == if o.arguments == Parsed && !o.cancelledAtStart then [LoadConfig] else []
  {
    target, trace := NO_TARGET, [];
    var ok := false;
    if o.arguments == Parsed && !o.cancelledAtStart {
      trace := [LoadConfig];
      if o.configError.None? && o.config.Some? {
        target := o.config.value;
        ok := !o.cancelledAfterConfig && o.storeReady;
      }
    }
    result.RunPhase(0, ok);
  }

  /** By position: the first `ran` of the first four phases ran and took the time between two
      consecutive readings, the others none; cleanup, if it ran, came next. */
  ghost predicate DurationsTold(phases: seq<PhaseSummary>, clock: nat -> nat, ran: nat, readings: nat) {
    && |phases| == PHASE_COUNT && ran <= 4
    && (forall i: nat :: i < 4 ==> (phases[i].status != Skipped <==> i < ran))
    && (forall i: nat :: i < 4 ==> phases[i].duration == if i < ran then clock(2 * i + 2) - clock(2 * i + 1) else 0)
    && phases[4].duration == (if phases[4].status == Skipped then 0 else clock(2 * ran + 2) - clock(2 * ran + 1))
    && readings == 2 * ran + (if phases[4].status == Skipped then 1 else 3)
  }

  lemma BeforeCleanup(phases: seq<PhaseSummary>, clock: nat -> nat, ran: nat)
    requires |phases| == PHASE_COUNT && ran <= 4 && RanInOrder(phases, clock, ran)
    requires forall i: nat :: i < ran ==> phases[i].status != Skipped
    requires forall i: nat :: ran <= i < PHASE_COUNT ==> phases[i] == PhaseSummary(Skipped, 0)
    ensures DurationsTold(phases, clock, ran, 2 * ran + 1)
  {
  }

  method DumpPhase(o: Outcomes, result: RunResult) returns (ok: bool, path: string, trace: seq<Effect>)
    requires result.Valid() && result.err.None? && result.phases[0].status == Success && Ok(o, 0)
    requires forall j :: 1 <= j < PHASE_COUNT ==> result.phases[j] == PhaseSummary(Skipped, 0)
    requires result.readings == 3 && RanInOrder(result.phases, result.clock, 1)
    modifies result
    ensures result.readings == 5 && RanInOrder(result.phases, result.clock, 2)
    ensures DurationsTold(result.phases, result.clock, 2, result.readings)
    ensures result.Valid() && result.phases[0].status == Success
    ensures forall j :: 2 <= j < PHASE_COUNT ==> result.phases[j] == PhaseSummary(Skipped, 0)
    ensures ok == Ok(o, 1) && result.phases[1].status == if ok then Success else Failure
    ensures result.err == if ok then None else Some(PhaseError(1))
    ensures result.failedPhase == if ok then None else Some(1)
    ensures path == if TempObtained(o) then o.temp.value else ""
    ensures trace == if o.cancelledBeforeDump then []
                     else if o.temp.None? || !o.chmodOk then [CreateTemp]
                     else [CreateTemp, WriteDump(path)]
  {
    path, trace, ok := "", [], false;
    if !o.cancelledBeforeDump {
      trace := [CreateTemp];
      if o.temp.Some? {
        path := o.temp.value;
        if o.chmodOk {
          trace := trace + [WriteDump(path)];
          ok := o.dumpOk && o.closeOk;
        }
      }
    }
    result.RunPhase(1, ok);
    BeforeCleanup(result.phases, result.clock, 2);
  }

  /** Validation records a size whenever it tells one, whether or not it succeeds. */
  method ValidatePhase(o: Outcomes, result: RunResult) returns (size: int, available: bool)
    requires result.Valid() && result.err.None? && Ok(o, 0) && Ok(o, 1)
    requires forall j :: 2 <= j < PHASE_COUNT ==> result.phases[j] == PhaseSummary(Skipped, 0)
    requires result.readings == 5 && RanInOrder(result.phases, result.clock, 2)
    modifies result
    ensures result.readings == 7 && RanInOrder(result.phases, result.clock, 3)
    ensures result.Valid() && forall j :: 0 <= j < PHASE_COUNT && j != 2 ==> result.phases[j] == old(result.phases)[j]
    ensures result.phases[2].status == if o.validateOk then Success else Failure
    ensures result.err == if o.validateOk then None else Some(PhaseError(2))
    ensures result.failedPhase == if o.validateOk then None else Some(2)
    ensures available == o.validateAvailable && size == RecordedSize(o)
  {
    ReachedMeans(o);
    size, available := 0, o.validateAvailable;
    if o.validateAvailable {
      size := o.validateSize;
    }
    result.RunPhase(2, o.validateOk);
  }

  /** How many calls on the store the upload phase makes. */
  function UploadReach(o: Outcomes): (n: nat)
    ensures n <= 2
  {
    if o.cancelledBeforeUpload || !o.openOk then 0 else if !o.uploadOk then 1 else 2
  }

  method UploadPhase(o: Outcomes, result: RunResult, target: Target, path: string, size: int)
    returns (verified: bool, trace: seq<Effect>)
    requires result.Valid() && result.err.None? && Ok(o, 0) && Ok(o, 1) && Ok(o, 2) && size == RecordedSize(o)
    requires result.phases[3] == result.phases[4] == PhaseSummary(Skipped, 0)
    requires result.readings == 7 && RanInOrder(result.phases, result.clock, 3)
    modifies result
    ensures result.readings == 9 && RanInOrder(result.phases, result.clock, 4)
    ensures result.Valid() && forall j :: 0 <= j < PHASE_COUNT && j != 3 ==> result.phases[j] == old(result.phases)[j]
    ensures result.phases[3].status == if Ok(o, 3) then Success else Failure
    ensures result.err == if Ok(o, 3) then None else Some(PhaseError(3))
    ensures result.failedPhase == if Ok(o, 3) then None else Some(3)
    ensures verified == Verified(o)
    ensures trace == [Upload(target.bucket, target.key, path), Head(target.bucket, target.key)][..UploadReach(o)]
  {
    ReachedMeans(o);
    verified, trace := false, [];
    var ok := false;
    if !o.cancelledBeforeUpload && o.openOk {
      trace := [Upload(target.bucket, target.key, path)];
      if o.uploadOk {
        trace := trace + [Head(target.bucket, target.key)];
        if o.remoteSize == Some(size) {
          verified := true;
          ok := o.uploadCloseOk;
        }
      }
    }
    result.RunPhase(3, ok);
  }

  /** The calls of validation and upload are the script's, from validation to where the run stops. */
  lemma UploadTrace(o: Outcomes, target: Target, path: string, more: seq<Effect>)
    requires Ok(o, 0) && Ok(o, 1) && target == o.config.value && path == o.temp.value
    requires more ==
             if !Ok(o, 2) then []
             else [Upload(target.bucket, target.key, path), Head(target.bucket, target.key)][..UploadReach(o)]
    ensures Reach(o) >= 4 && [Validate(path)] + more == Script(o)[3..Reach(o)]
  {
    assert |more| == Reach(o) - 4;
  }

  /** The calls of the dump phase, and what follows it, are the script's. */
  lemma DumpTrace(o: Outcomes, path: string, t: seq<Effect>, more: seq<Effect>)
    requires Ok(o, 0) && path == if TempObtained(o) then o.temp.value else ""
    requires t == if o.cancelledBeforeDump then []
                  else if o.temp.None? || !o.chmodOk then [CreateTemp]
                  else [CreateTemp, WriteDump(path)]
    requires if Ok(o, 1) then Reach(o) >= 4 && more == Script(o)[3..Reach(o)] else more == []
    ensures Reach(o) >= 1 && t + more == Script(o)[1..Reach(o)]
    ensures (t + more) + (if Reached(o, 4) then [Remove(path)] else []) == Trace(o)[1..]
  {
    assert |t + more| == Reach(o) - 1;
  }

  method ValidateAndUpload(o: Outcomes, result: RunResult, target: Target, path: string)
    returns (size: int, available: bool, verified: bool, trace: seq<Effect>)
    requires result.Valid() && result.err.None? && Ok(o, 0) && Ok(o, 1) && target == o.config.value
             && path == o.temp.value
    requires forall j :: 2 <= j < PHASE_COUNT ==> result.phases[j] == PhaseSummary(Skipped, 0)
    requires result.readings == 5 && RanInOrder(result.phases, result.clock, 2)
    requires result.phases[0].status == Success && result.phases[1].status == Success
    modifies result
    ensures DurationsTold(result.phases, result.clock, if Ok(o, 2) then 4 else 3, result.readings)
    ensures result.Valid() && result.phases[4] == PhaseSummary(Skipped, 0)
    ensures result.phases[..2] == old(result.phases[..2])
    ensures result.phases[2].status == StatusOf(o, 2) && result.phases[3].status == StatusOf(o, 3)
    ensures result.err == if !Ok(o, 2) then Some(PhaseError(2)) else if !Ok(o, 3) then Some(PhaseError(3)) else None
    ensures result.failedPhase == if !Ok(o, 2) then Some(2) else if !Ok(o, 3) then Some(3) else None
    ensures available == o.validateAvailable && size == RecordedSize(o) && verified == Verified(o)
    ensures Reach(o) >= 4 && trace == Script(o)[3..Reach(o)]
  {
    ReachedMeans(o);
    trace, verified := [Validate(path)], false;
    size, available := ValidatePhase(o, result);
    var more := [];
    if o.validateOk {
      verified, more := UploadPhase(o, result, target, path, size);
    }
    BeforeCleanup(result.phases, result.clock, if Ok(o, 2) then 4 else 3);
    UploadTrace(o, target, path, more);
    trace := trace + more;
  }

  predicate StatusesOf(o: Outcomes, phases: seq<PhaseSummary>) {
    |phases| == PHASE_COUNT && forall i :: 0 <= i < PHASE_COUNT ==> phases[i].status == StatusOf(o, i)
  }

  lemma StatusesListed(o: Outcomes, phases: seq<PhaseSummary>)
    requires |phases| == PHASE_COUNT && phases[0].status == StatusOf(o, 0) && phases[1].status == StatusOf(o, 1)
    requires phases[2].status == StatusOf(o, 2) && phases[3].status == StatusOf(o, 3)
             && phases[4].status == StatusOf(o, 4)
    ensures StatusesOf(o, phases)
  {
  }

  lemma AfterCleanup(before: seq<PhaseSummary>, phases: seq<PhaseSummary>, clock: nat -> nat, ran: nat)
    requires DurationsTold(before, clock, ran, 2 * ran + 1)
    requires |phases| == PHASE_COUNT && forall i: nat :: i < 4 ==> phases[i] == before[i]
    requires phases[4].status != Skipped && phases[4].duration == clock(2 * ran + 2) - clock(2 * ran + 1)
    ensures DurationsTold(phases, clock, ran, 2 * ran + 3)
  {
  }

  /** Dump, validation and upload, after a successful preflight. */
  method DumpToUpload(o: Outcomes, result: RunResult, target: Target)
    returns (size: int, available: bool, verified: bool, path: string, trace: seq<Effect>, ghost ran: nat)
    requires result.Valid() && result.err.None? && result.phases[0].status == Success && Ok(o, 0)
             && target == o.config.value
    requires forall j :: 1 <= j < PHASE_COUNT ==> result.phases[j] == PhaseSummary(Skipped, 0)
    requires result.readings == 3 && RanInOrder(result.phases, result.clock, 1)
    modifies result
    ensures result.Valid() && result.phases[4] == PhaseSummary(Skipped, 0)
    ensures DurationsTold(result.phases, result.clock, ran, result.readings)
    ensures result.phases[0].status == StatusOf(o, 0) && result.phases[1].status == StatusOf(o, 1)
    ensures result.phases[2].status == StatusOf(o, 2) && result.phases[3].status == StatusOf(o, 3)
    ensures result.err == if result.failedPhase.None? then None else Some(PhaseError(result.failedPhase.value))
    ensures verified == Verified(o)
    ensures available == (Reached(o, 2) && o.validateAvailable) && size == RecordedSize(o)
    ensures path == if TempObtained(o) then o.temp.value else ""
    ensures Reach(o) >= 1 && trace == Script(o)[1..Reach(o)]
    ensures trace + (if Reached(o, 4) then [Remove(path)] else []) == Trace(o)[1..]
  {
    ReachedMeans(o);
    size, available, verified := 0, false, false;
    var ok;
    ok, path, trace := DumpPhase(o, result);
    var more := [];
    if ok {
      size, available, verified, more := ValidateAndUpload(o, result, target, path);
    }
    DumpTrace(o, path, trace, more);
    trace := trace + more;
    ran := if !ok then 2 else if !Ok(o, 2) then 3 else 4;
  }

  /** Cleanup, if there is a named temporary file. */
  method CleanUp(o: Outcomes, result: RunResult, path: string, ghost ran: nat) returns (trace: seq<Effect>)
    requires result.Valid() && result.phases[4] == PhaseSummary(Skipped, 0)
    requires DurationsTold(result.phases, result.clock, ran, result.readings)
    requires result.phases[0].status == StatusOf(o, 0) && result.phases[1].status == StatusOf(o, 1)
    requires result.phases[2].status == StatusOf(o, 2) && result.phases[3].status == StatusOf(o, 3)
    requires result.err == if result.failedPhase.None? then None else Some(PhaseError(result.failedPhase.value))
    requires path == if TempObtained(o) then o.temp.value else ""
    modifies result
    ensures result.Valid() && StatusesOf(o, result.phases)
    ensures DurationsTold(result.phases, result.clock, ran, result.readings)
    ensures result.err == if result.failedPhase.None? then None else Some(PhaseError(result.failedPhase.value))
    ensures trace == if Reached(o, 4) then [Remove(path)] else []
  {
    trace := [];
    ghost var before := result.phases;
    if path != "" {
      trace := [Remove(path)];
      result.RunPhase(4, o.removal != Refused);
      AfterCleanup(before, result.phases, result.clock, ran);
    }
    StatusesListed(o, result.phases);
  }

  /** All the phases of a run whose arguments do not ask for help. */
  method RunPhases(o: Outcomes, result: RunResult)
    returns (size: int, available: bool, verified: bool, target: Target, trace: seq<Effect>, ghost ran: nat)
    requires result.Valid() && result.err.None? && o.arguments != Help && result.readings == 1
    requires forall j :: 0 <= j < PHASE_COUNT ==> result.phases[j] == PhaseSummary(Skipped, 0)
    modifies result
    ensures result.Valid() && StatusesOf(o, result.phases)
    ensures DurationsTold(result.phases, result.clock, ran, result.readings)
    ensures result.err == if result.failedPhase.None? then None else Some(PhaseError(result.failedPhase.value))
    ensures target == ReportedTarget(o) && verified == Verified(o)
    ensures available == (Reached(o, 2) && o.validateAvailable) && size == RecordedSize(o)
    ensures trace == Trace(o)
  {
    ReachedMeans(o);
    size, available, verified := 0, false, false;
    target, trace := Preflight(o, result);
    ran := 1;
    if result.err.Some? {
      BeforeCleanup(result.phases, result.clock, 1);
      StatusesListed(o, result.phases);
      return;
    }
    var path, more, last;
    size, available, verified, path, more, ran := DumpToUpload(o, result, target);
    last := CleanUp(o, result, path, ran);
    trace := trace + (more + last);
  }

  /** The temporary file, if one is created, has a name, as every created file does. */
  predicate TempIsNamed(o: Outcomes) {
    o.temp.Some? ==> o.temp.value != ""
  }

  /** A temporary file was created and cannot be removed. */
  predicate RemovalFails(o: Outcomes) {
    TempObtained(o) && o.temp.value != "" && o.removal == Refused
  }

  predicate AllSucceeded(phases: seq<PhaseSummary>) {
    forall i :: 0 <= i < |phases| ==> phases[i].status == Success
  }

  /** Without any failure the first four phases succeeded, and cleanup too exactly if the
      temporary file has a name: a file without one is never removed. */
  lemma NoErrorMeansAllSucceeded(o: Outcomes, phases: seq<PhaseSummary>)
    requires StatusesOf(o, phases)
    ensures AllSucceeded(phases) <==> o.arguments != Help && FirstFailure(phases).None? && TempIsNamed(o)
    ensures o.arguments != Help && FirstFailure(phases).None? ==> forall i :: 0 <= i < 4 ==> phases[i].status == Success
  {
    assert phases[0].status == StatusOf(o, 0);
    ReachedMeans(o);
    if FirstFailure(phases).None? {
      assert phases[0].status != Failure && phases[1].status != Failure && phases[2].status != Failure;
      assert phases[3].status != Failure && phases[4].status != Failure;
    }
    if AllSucceeded(phases) {
      assert phases[4].status == Success;
    }
  }

  /** A run whose object was verified can only fail afterwards, by closing the uploaded file
      or removing the temporary one, and fails exactly if one of these does. */
  lemma VerifiedIsKept(o: Outcomes, phases: seq<PhaseSummary>)
    requires StatusesOf(o, phases) && Verified(o)
    ensures FirstFailure(phases).None? || FirstFailure(phases) == Some(3) || FirstFailure(phases) == Some(4)
    ensures FirstFailure(phases).Some? <==> !o.uploadCloseOk || RemovalFails(o)
    ensures FirstFailure(phases) == Some(3) <==> !o.uploadCloseOk
  {
    ReachedMeans(o);
    assert phases[0].status == Success && phases[1].status == Success && phases[2].status == Success;
    assert phases[3].status == StatusOf(o, 3) && phases[4].status == StatusOf(o, 4);
  }

  /** Which phase fails first, over what the dependencies answer. */
  lemma FirstFailureMeans(o: Outcomes, phases: seq<PhaseSummary>)
    requires StatusesOf(o, phases)
    ensures FirstFailure(phases) ==
            if o.arguments == Help then None
            else if !(o.arguments == Parsed && !o.cancelledAtStart && o.config.Some? && o.configError.None?
                      && !o.cancelledAfterConfig && o.storeReady) then Some(0)
            else if o.cancelledBeforeDump || o.temp.None? || !o.chmodOk || !o.dumpOk || !o.closeOk then Some(1)
            else if !o.validateOk then Some(2)
            else if o.cancelledBeforeUpload || !o.openOk || !o.uploadOk || !o.uploadCloseOk
                    || o.remoteSize != Some(if o.validateAvailable then o.validateSize else 0) then Some(3)
            else if o.temp.value != "" && o.removal == Refused then Some(4)
            else None
  {
    ReachedMeans(o);
    assert phases[0].status == StatusOf(o, 0) && phases[1].status == StatusOf(o, 1);
    assert phases[2].status == StatusOf(o, 2) && phases[3].status == StatusOf(o, 3);
    assert phases[4].status == StatusOf(o, 4);
  }

  /** When the object counts as verified, over what the dependencies answer. */
  lemma VerifiedMeans(o: Outcomes)
    ensures Verified(o) <==>
      && o.arguments == Parsed && !o.cancelledAtStart && o.config.Some? && o.configError.None?
      && !o.cancelledAfterConfig && o.storeReady
      && !o.cancelledBeforeDump && o.temp.Some? && o.chmodOk && o.dumpOk && o.closeOk && o.validateOk
      && !o.cancelledBeforeUpload && o.openOk && o.uploadOk
      && o.remoteSize == Some(if o.validateAvailable then o.validateSize else 0)
  {
    ReachedMeans(o);
  }

  /** When the stored object is touched, over what the dependencies answer. */
  lemma TouchedMeans(o: Outcomes, c: Effect)
    requires c.Upload? || c.Head?
    ensures c in Trace(o) <==>
      && o.arguments == Parsed && !o.cancelledAtStart && o.config.Some? && o.configError.None?
      && !o.cancelledAfterConfig && o.storeReady
      && !o.cancelledBeforeDump && o.temp.Some? && o.chmodOk && o.dumpOk && o.closeOk && o.validateOk
      && !o.cancelledBeforeUpload && o.openOk && (c.Head? ==> o.uploadOk)
      && c.bucket == o.config.value.bucket && c.key == o.config.value.key && (c.Upload? ==> c.path == o.temp.value)
  {
    ReachedMeans(o);
    var t := Trace(o);
    if Reach(o) >= 5 {
      assert t[4] == Script(o)[4];
    }
    if Reach(o) == 6 {
      assert t[5] == Script(o)[5];
    }
  }

  lemma SizeMeans(o: Outcomes)
    ensures RecordedSize(o) ==
            if o.arguments == Parsed && !o.cancelledAtStart && o.config.Some? && o.configError.None?
               && !o.cancelledAfterConfig && o.storeReady
               && !o.cancelledBeforeDump && o.temp.Some? && o.chmodOk && o.dumpOk && o.closeOk && o.validateAvailable
            then o.validateSize else 0
  {
    ReachedMeans(o);
  }

  lemma Consequences(o: Outcomes, phases: seq<PhaseSummary>)
    requires StatusesOf(o, phases)
    ensures AllSucceeded(phases) <==> o.arguments != Help && FirstFailure(phases).None? && TempIsNamed(o)
    ensures Verified(o) ==> o.arguments != Help && (FirstFailure(phases).Some? <==> !o.uploadCloseOk || RemovalFails(o))
    ensures Verified(o) && FirstFailure(phases).Some? ==>
            FirstFailure(phases) == Some(3) || FirstFailure(phases) == Some(4)
  {
    NoErrorMeansAllSucceeded(o, phases);
    if Verified(o) {
      VerifiedIsKept(o, phases);
    }
  }

  method Finish(result: RunResult, size: int, sizeAvailable: bool, verified: bool, target: Target) returns (s: Summary)
    requires result.Valid()
    modifies result`readings
    ensures s.phases == result.phases && s.failedPhase == result.failedPhase && TotalDuration(s.phases) <= s.total
    ensures s.size == size && s.sizeAvailable == sizeAvailable && s.uploadVerified == verified && s.target == target
    ensures s.total == result.clock(old(result.readings)) - result.clock(0)
  {
    var completedAt := result.Now();
    s := Summary(result.failedPhase, size, sizeAvailable, verified, target,
                 completedAt - result.started, result.phases);
  }

  /** What a run reports and does, over what the dependencies answer: the phase that fails
      first, when the object counts as verified, the recorded size, and which calls on the
      store are made. */
  ghost predicate Told(o: Outcomes, s: Summary, trace: seq<Effect>) {
    && s.failedPhase == (
         if o.arguments == Help then None
         else if !(o.arguments == Parsed && !o.cancelledAtStart && o.config.Some? && o.configError.None?
                   && !o.cancelledAfterConfig && o.storeReady) then Some(0)
         else if o.cancelledBeforeDump || o.temp.None? || !o.chmodOk || !o.dumpOk || !o.closeOk then Some(1)
         else if !o.validateOk then Some(2)
         else if o.cancelledBeforeUpload || !o.openOk || !o.uploadOk || !o.uploadCloseOk
                 || o.remoteSize != Some(s.size) then Some(3)
         else if o.temp.value != "" && o.removal == Refused then Some(4)
         else None)
    && (s.uploadVerified <==>
        && o.arguments == Parsed && !o.cancelledAtStart && o.config.Some? && o.configError.None?
        && !o.cancelledAfterConfig && o.storeReady
        && !o.cancelledBeforeDump && o.temp.Some? && o.chmodOk && o.dumpOk && o.closeOk && o.validateOk
        && !o.cancelledBeforeUpload && o.openOk && o.uploadOk && o.remoteSize == Some(s.size))
    && (s.sizeAvailable <==>
        && o.arguments == Parsed && !o.cancelledAtStart && o.config.Some? && o.configError.None?
        && !o.cancelledAfterConfig && o.storeReady
        && !o.cancelledBeforeDump && o.temp.Some? && o.chmodOk && o.dumpOk && o.closeOk && o.validateAvailable)
    && s.size == (if s.sizeAvailable then o.validateSize else 0)
    && s.target == (if o.arguments == Parsed && !o.cancelledAtStart && o.config.Some? && o.configError.None?
                    then o.config.value else Target("", "", ""))
    && (forall c: Effect :: c.Upload? || c.Head? ==> (c in trace <==>
        && o.arguments == Parsed && !o.cancelledAtStart && o.config.Some? && o.configError.None?
        && !o.cancelledAfterConfig && o.storeReady
        && !o.cancelledBeforeDump && o.temp.Some? && o.chmodOk && o.dumpOk && o.closeOk && o.validateOk
        && !o.cancelledBeforeUpload && o.openOk && (c.Head? ==> o.uploadOk)
        && c.bucket == o.config.value.bucket && c.key == o.config.value.key && (c.Upload? ==> c.path == o.temp.value)))
  }

  lemma Tells(o: Outcomes, s: Summary, trace: seq<Effect>)
    requires StatusesOf(o, s.phases) && s.failedPhase == FirstFailure(s.phases) && s.uploadVerified == Verified(o)
    requires s.sizeAvailable == (Reached(o, 2) && o.validateAvailable) && s.size == RecordedSize(o)
    requires s.target == ReportedTarget(o) && trace == Trace(o)
    ensures Told(o, s, trace)
  {
    FirstFailureMeans(o, s.phases);
    VerifiedMeans(o);
    SizeMeans(o);
    forall c: Effect | c.Upload? || c.Head?
      ensures c in trace <==>
        && o.arguments == Parsed && !o.cancelledAtStart && o.config.Some? && o.configError.None?
        && !o.cancelledAfterConfig && o.storeReady
        && !o.cancelledBeforeDump && o.temp.Some? && o.chmodOk && o.dumpOk && o.closeOk && o.validateOk
        && !o.cancelledBeforeUpload && o.openOk && (c.Head? ==> o.uploadOk)
        && c.bucket == o.config.value.bucket && c.key == o.config.value.key && (c.Upload? ==> c.path == o.temp.value)
    {
      TouchedMeans(o, c);
    }
  }

  lemma NothingRuns(o: Outcomes, phases: seq<PhaseSummary>)
    requires o.arguments == Help && |phases| == PHASE_COUNT
    requires forall i :: 0 <= i < PHASE_COUNT ==> phases[i] == PhaseSummary(Skipped, 0)
    ensures StatusesOf(o, phases) && Trace(o) == [] && !Verified(o) && RecordedSize(o) == 0 && !Reached(o, 2)
  {
    ReachedMeans(o);
    StatusesListed(o, phases);
  }

  /** The run, told by its statuses. */
  method Execute(o: Outcomes, clock: nat -> nat)
    returns (s: Summary, err: Option<Error>, trace: seq<Effect>, ghost ran: nat, ghost readings: nat)
    requires Monotone(clock)
    ensures DurationsTold(s.phases, clock, ran, readings) && s.total == clock(readings) - clock(0)
    ensures StatusesOf(o, s.phases) && s.failedPhase == FirstFailure(s.phases)
    ensures err == if o.arguments == Help then Some(HelpRequested)
                   else if s.failedPhase.None? then None
                   else if o.arguments == Parsed && !o.cancelledAtStart && o.configError.Some?
                   then Some(ConfigurationError(o.configError.value))
                   else Some(PhaseError(s.failedPhase.value))
    ensures s.target == ReportedTarget(o) && s.uploadVerified == Verified(o)
    ensures s.sizeAvailable == (Reached(o, 2) && o.validateAvailable) && s.size == RecordedSize(o)
    ensures trace == Trace(o)
    ensures TotalDuration(s.phases) <= s.total
  {
    var result := new RunResult(clock);
    var size, available, verified, target := 0, false, false, NO_TARGET;
    ran, trace := 0, [];
    if o.arguments == Help {
      NothingRuns(o, result.phases);
      BeforeCleanup(result.phases, clock, 0);
      readings := result.readings;
      s := Finish(result, size, available, verified, target);
      return s, Some(HelpRequested), [], 0, readings;
    }
    size, available, verified, target, trace, ran := RunPhases(o, result);
    readings := result.readings;
    err := result.err;
    if err.Some? && o.arguments == Parsed && !o.cancelledAtStart && o.configError.Some? {
      err := Some(ConfigurationError(o.configError.value));
    }
    s := Finish(result, size, available, verified, target);
  }

  /** Every phase ends as its own work decides, the first failure is the one reported, the
      trace is the script cut where the run stopped and then the removal, and the object is
      reported verified exactly when it was stored and read back at the recorded size. Every
      duration is the difference of two readings of its own, and so is the total. */
  method RunWithDependencies(o: Outcomes, clock: nat -> nat)
    returns (s: Summary, err: Option<Error>, trace: seq<Effect>, ghost ran: nat, ghost readings: nat)
    requires Monotone(clock)
    ensures DurationsTold(s.phases, clock, ran, readings) && s.total == clock(readings) - clock(0)
    ensures StatusesOf(o, s.phases) && s.failedPhase == FirstFailure(s.phases)
    ensures err == if o.arguments == Help then Some(HelpRequested)
                   else if s.failedPhase.None? then None
                   else if o.arguments == Parsed && !o.cancelledAtStart && o.configError.Some?
                   then Some(ConfigurationError(o.configError.value))
                   else Some(PhaseError(s.failedPhase.value))
    ensures s.target == ReportedTarget(o) && s.uploadVerified == Verified(o)
    ensures s.sizeAvailable == (Reached(o, 2) && o.validateAvailable) && s.size == RecordedSize(o)
    ensures trace == Trace(o)
    ensures TotalDuration(s.phases) <= s.total
    ensures AllSucceeded(s.phases) <==> err.None? && TempIsNamed(o)
    ensures s.uploadVerified && err.Some? ==> s.failedPhase == Some(3) || s.failedPhase == Some(4)
    ensures s.uploadVerified ==> (err.Some? <==> !o.uploadCloseOk || RemovalFails(o))
    ensures Told(o, s, trace)
  {
    s, err, trace, ran, readings := Execute(o, clock);
    Consequences(o, s.phases);
    Tells(o, s, trace);
  }

  // ----- what follows for every outcome

  /** The stored object is touched only after the dump and its validation succeeded, on the
      very file that was dumped and validated, at the configured bucket and key. */
  lemma StoreTouchedOnlyWhenValidated(o: Outcomes, i: nat)
    requires i < |Trace(o)| && (Trace(o)[i].Upload? || Trace(o)[i].Head?)
    ensures Ok(o, 0) && Ok(o, 1) && Ok(o, 2)
    ensures && o.arguments == Parsed && !o.cancelledAtStart && o.config.Some? && o.configError.None?
            && !o.cancelledAfterConfig && o.storeReady
            && !o.cancelledBeforeDump && o.temp.Some? && o.chmodOk && o.dumpOk && o.closeOk && o.validateOk
    ensures Trace(o)[i].bucket == o.config.value.bucket && Trace(o)[i].key == o.config.value.key
    ensures Trace(o)[i].Upload? ==> Trace(o)[i].path == o.temp.value
    ensures exists j, k :: 0 <= j < k < i
                           && Trace(o)[j] == WriteDump(o.temp.value) && Trace(o)[k] == Validate(o.temp.value)
  {
    assert i >= 4;
    assert Trace(o)[2] == WriteDump(o.temp.value) && Trace(o)[3] == Validate(o.temp.value);
  }

  function Removals(trace: seq<Effect>): nat {
    if trace == [] then 0 else Removals(trace[..|trace| - 1]) + if trace[|trace| - 1].Remove? then 1 else 0
  }

  lemma {:induction false} NoRemovals(trace: seq<Effect>)
    requires forall i :: 0 <= i < |trace| ==> !trace[i].Remove?
    ensures Removals(trace) == 0
  {
    if trace != [] {
      NoRemovals(trace[..|trace| - 1]);
    }
  }

  /** A named temporary file is removed exactly once, last, whatever else failed; and
      nothing is removed otherwise. */
  lemma RemovedOnceAtEnd(o: Outcomes)
    ensures Removals(Trace(o)) ==
            if o.arguments == Parsed && !o.cancelledAtStart && o.config.Some? && o.configError.None?
               && !o.cancelledAfterConfig && o.storeReady
               && !o.cancelledBeforeDump && o.temp.Some? && o.temp.value != ""
            then 1 else 0
    ensures Removals(Trace(o)) == 1 ==> Trace(o)[|Trace(o)| - 1] == Remove(o.temp.value)
  {
    var body := Script(o)[..Reach(o)];
    NoRemovals(body);
    if Reached(o, 4) {
      assert Trace(o)[..|Trace(o)| - 1] == body;
    } else {
      assert Trace(o) == body;
    }
  }
}
