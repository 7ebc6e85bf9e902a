/** What the durations of a restore-test run measure: which two clock readings each lies
    between, and which calls were made in between (internal/restore/result.go,
    internal/restore/runner.go). */
module RunClock {
  import opened Wrappers
  import opened RestoreDomain
  import opened PhaseLedger
  import opened RestoreScript
  import opened RestoreWorld

  /** How many phases have an outcome. */
  function Recorded(s: Ledger): nat {
    if s.failedPhase.Some? then Index(s.failedPhase.value) + 1 else s.nextPhase
  }

  /** The run began at the first reading, and phase number i took from reading 2i+1 to
      reading 2i+2. */
  ghost predicate Stamped(st: seq<Stamp>, s: Ledger) {
    && |st| > 2 * Recorded(s) && st[0].time == s.startAt
    && forall p: Phase :: p in s.phases ==>
         Index(p) < Recorded(s)
         && s.phases[p].duration == st[2 * Index(p) + 2].time - st[2 * Index(p) + 1].time
  }

  /** As yet only phases have been timed. */
  ghost predicate PhasesTimed(st: seq<Stamp>, s: Ledger) {
    |st| == 2 * Recorded(s) + 1 && Stamped(st, s)
  }

  /** Two more readings, with the calls so many before and after. */
  predicate Around(st: seq<Stamp>, st': seq<Stamp>, before: nat, after: nat) {
    && |st'| == |st| + 2 && st <= st'
    && st'[|st|].calls == before && st'[|st| + 1].calls == after
  }

  /** How many calls are made before phase number i. */
  function CallsBefore(i: nat): nat
    requires i <= 5
  {
    if i == 0 then 0 else Boundary(i - 1)
  }

  /** Phase number i of the k run opens before its first call and closes after its last. */
  predicate PhaseInStep(st: seq<Stamp>, i: nat, k: nat, calls: nat)
    requires i < k <= 5 && |st| > 2 * k
  {
    && st[2 * i + 1].calls == CallsBefore(i)
    && st[2 * i + 2].calls == if i == k - 1 then calls else CallsBefore(i + 1)
  }

  /** The readings of the first k phases lie around the calls of each, the last after so many. */
  ghost predicate InStep(st: seq<Stamp>, k: nat, calls: nat) {
    && k <= 5 && |st| > 2 * k
    && forall i: nat :: i < k ==> PhaseInStep(st, i, k, calls)
  }

  lemma NextInStep(st: seq<Stamp>, st': seq<Stamp>, k: nat, calls: nat)
    requires k < 5 && |st| == 2 * k + 1 && InStep(st, k, CallsBefore(k)) && Around(st, st', CallsBefore(k), calls)
    ensures InStep(st', k + 1, calls)
  {
    var next := k + 1;
    forall i: nat | i < next
      ensures PhaseInStep(st', i, next, calls)
    {
      assert i < k ==> PhaseInStep(st, i, k, CallsBefore(k));
    }
  }

  lemma InStepLater(st: seq<Stamp>, st': seq<Stamp>, k: nat, calls: nat)
    requires InStep(st, k, calls) && st <= st'
    ensures InStep(st', k, calls)
  {
    forall i: nat | i < k
      ensures PhaseInStep(st', i, k, calls)
    {
      assert PhaseInStep(st, i, k, calls);
    }
  }

  /** The phases run so far have their times, and their readings lie around their calls. */
  ghost predicate OnTime(st: seq<Stamp>, s: Ledger, calls: nat) {
    PhasesTimed(st, s) && InStep(st, Recorded(s), calls)
  }

  lemma ThenPhase(st: seq<Stamp>, s: Ledger, st': seq<Stamp>, s': Ledger, before: nat, calls: nat)
    requires OnTime(st, s, before) && Recorded(s) < 5 && before == CallsBefore(Recorded(s))
    requires PhasesTimed(st', s') && Recorded(s') == Recorded(s) + 1 && Around(st, st', before, calls)
    ensures OnTime(st', s', calls)
  {
    NextInStep(st, st', Recorded(s), calls);
  }

  lemma RowTimed(st: seq<Stamp>, s: Ledger, phase: Phase, at: Stamp, end: Stamp, t: Ledger, row: PhaseSummary)
    requires PhasesTimed(st, s) && Recorded(s) == Index(phase) && Recorded(t) == Index(phase) + 1
    requires t.startAt == s.startAt && t.phases == s.phases[phase := row] && row.duration == end.time - at.time
    ensures PhasesTimed(st + [at] + [end], t)
  {
    var st' := st + [at] + [end];
    forall p: Phase | p in t.phases
      ensures Index(p) < Recorded(t)
              && t.phases[p].duration == st'[2 * Index(p) + 2].time - st'[2 * Index(p) + 1].time
    {
      assert p != phase ==> p in s.phases && t.phases[p] == s.phases[p];
    }
  }

  lemma PhaseTimed(st: seq<Stamp>, s: Ledger, phase: Phase, at: Stamp, end: Stamp, err: Err)
    requires WellFormed(s) && s.failedPhase.None? && s.currentPhase.None? && s.nextPhase == Index(phase)
    requires PhasesTimed(st, s) && at.time <= end.time
    ensures PhasesTimed(st + [at] + [end], Complete(Begin(s, phase, at.time), end.time))
    ensures PhasesTimed(st + [at] + [end], Fail(Begin(s, phase, at.time), phase, end.time, err))
  {
    var b := Begin(s, phase, at.time);
    var done, failed := Complete(b, end.time), Fail(b, phase, end.time, err);
    RowTimed(st, s, phase, at, end, done, done.phases[phase]);
    RowTimed(st, s, phase, at, end, failed, failed.phases[phase]);
  }

  /** The readings around a recovery, and those around its one call. */
  predicate RecoveryAround(st: seq<Stamp>, st': seq<Stamp>, calls: nat, spent: nat) {
    && |st'| == |st| + 4 && st <= st'
    && st'[|st|].calls == st'[|st| + 1].calls == calls
    && st'[|st| + 2].calls == st'[|st| + 3].calls == calls + 1
    && spent == st'[|st| + 3].time - st'[|st|].time
  }

  lemma RecoverySpans(st: seq<Stamp>, mid: seq<Stamp>, calls: nat, started: nat, finished: nat)
    requires Around(st + [Stamp(started, calls)], mid, calls, calls + 1) && started <= finished
    ensures RecoveryAround(st, mid + [Stamp(finished, calls + 1)], calls, finished - started)
  {
    assert (st + [Stamp(started, calls)])[|st|] == Stamp(started, calls);
    assert mid[|st|] == Stamp(started, calls);
  }

  /** The whole run but its end: the phases, four readings for a recovery, two for a removal. */
  ghost predicate RunTimed(st: seq<Stamp>, s: Ledger, n: nat, calls: nat, recovery: nat, tried: bool, removal: nat) {
    var q := 2 * Recorded(s) + 1;
    var r := q + if s.recoveryAttempted then 4 else 0;
    && |st| == r + (if tried then 2 else 0) && Stamped(st, s) && InStep(st, Recorded(s), n)
    && (if s.recoveryAttempted then
          recovery == st[q + 3].time - st[q].time
          && st[q].calls == st[q + 1].calls == n && st[q + 2].calls == st[q + 3].calls == n + 1
        else recovery == 0)
    && if tried then
         removal == st[r + 1].time - st[r].time && st[r].calls == calls - 1 && st[r + 1].calls == calls
       else removal == 0
  }

  lemma PhasesThenRecovery(st: seq<Stamp>, s: Ledger, st': seq<Stamp>, t: Ledger, n: nat, calls: nat, spent: nat)
    requires OnTime(st, s, n)
    requires SameFailure(s, t) && t.startAt == s.startAt
    requires if t.recoveryAttempted then RecoveryAround(st, st', n, spent) else st' == st && spent == 0
    ensures RunTimed(st', t, n, calls, spent, false, 0)
  {
    InStepLater(st, st', Recorded(s), n);
  }

  /** The readings around a removal. */
  predicate RemovalAround(st: seq<Stamp>, st': seq<Stamp>, calls: nat, spent: nat) {
    Around(st, st', calls, calls + 1) && spent == st'[|st| + 1].time - st'[|st|].time
  }

  lemma SameTimes(st: seq<Stamp>, s: Ledger, st': seq<Stamp>, t: Ledger)
    requires Stamped(st, s) && st <= st' && t.startAt == s.startAt && Recorded(t) == Recorded(s)
    requires t.phases.Keys == s.phases.Keys
    requires forall p :: p in t.phases ==> t.phases[p].duration == s.phases[p].duration
    ensures Stamped(st', t)
  {
    forall p: Phase | p in t.phases
      ensures t.phases[p].duration == st'[2 * Index(p) + 2].time - st'[2 * Index(p) + 1].time
    {
      assert p in s.phases;
    }
  }

  /** The removal comes last, and changes no phase's time. */
  lemma ThenRemoval(st: seq<Stamp>, s: Ledger, st': seq<Stamp>, t: Ledger, n: nat, calls: nat,
                    recovery: nat, spent: nat)
    requires RunTimed(st, s, n, calls, recovery, false, 0)
    requires RemovalAround(st, st', calls, spent)
    requires t.startAt == s.startAt && t.recoveryAttempted == s.recoveryAttempted && Recorded(t) == Recorded(s)
    requires t.phases.Keys == s.phases.Keys
    requires forall p :: p in t.phases ==> t.phases[p].duration == s.phases[p].duration
    ensures RunTimed(st', t, n, calls + 1, recovery, true, spent)
  {
    InStepLater(st, st', Recorded(s), n);
    SameTimes(st, s, st', t);
  }
}
