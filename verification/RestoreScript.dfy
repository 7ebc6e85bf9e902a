/** The fixed script of a restore-test run, what a trace of it can look like, and what
    every such trace guarantees (internal/restore/runner.go). */
module RestoreScript {
  import opened Wrappers
  import opened RestoreDomain

  function Script(phase: Phase): seq<Step> {
    match phase
    case Preflight => []
    case Prepare => [RecordReplicas, CheckS3, CheckKubernetes, Download]
    case Restore => [ScaleWeb(0), ScaleDb(1), WaitWeb(0), WaitDb(1), CheckDb, ResetDb, RestoreDb, AnalyzeDb]
    case Verify => [ScaleWeb(1), WaitWeb(1), AwaitReadiness, CheckTimeline]
    case Cleanup => [ScaleWeb(0), ScaleDb(0)]
  }

  function EffectsOfStep(cfg: Config, step: Step): (es: seq<Effect>)
    ensures es != []
  {
    match step
    case RecordReplicas => [GetReplicas(cfg.web), GetReplicas(cfg.db)]
    case CheckS3 => [S3Check]
    case CheckKubernetes => [K8sCheck]
    case Download => [Fetch]
    case ScaleWeb(n) => [Scale(cfg.web, n)]
    case ScaleDb(n) => [Scale(cfg.db, n)]
    case WaitWeb(n) => [WaitFor(cfg.web, n)]
    case WaitDb(n) => [WaitFor(cfg.db, n)]
    case CheckDb => [DbCheck]
    case ResetDb => [Reset]
    case RestoreDb => [Load, Size]
    case AnalyzeDb => [Analyze]
    case AwaitReadiness => [Readiness]
    case CheckTimeline => [Timeline]
  }

  function EffectsOf(cfg: Config, steps: seq<Step>): seq<Effect> {
    if steps == [] then [] else EffectsOf(cfg, steps[..|steps| - 1]) + EffectsOfStep(cfg, steps[|steps| - 1])
  }

  /** The canonical order of external calls, written out. */
  function Canon(cfg: Config): (es: seq<Effect>)
    ensures |es| == 20
  {
    [GetReplicas(cfg.web), GetReplicas(cfg.db), S3Check, K8sCheck, Fetch,
     Scale(cfg.web, 0), Scale(cfg.db, 1), WaitFor(cfg.web, 0), WaitFor(cfg.db, 1), DbCheck, Reset, Load, Size, Analyze,
     Scale(cfg.web, 1), WaitFor(cfg.web, 1), Readiness, Timeline,
     Scale(cfg.web, 0), Scale(cfg.db, 0)]
  }

  /** Where each phase's part of the canonical order begins and ends. */
  function Boundary(i: nat): (b: nat)
    requires i <= 4
    ensures b <= 20
  {
    match i case 0 => 0 case 1 => 5 case 2 => 14 case 3 => 18 case _ => 20
  }

  lemma StepsOfTwo(cfg: Config, a: seq<Step>, s: Step)
    ensures EffectsOf(cfg, a + [s]) == EffectsOf(cfg, a) + EffectsOfStep(cfg, s)
  {
    assert (a + [s])[..|a|] == a;
  }

  lemma Associative(a: seq<Effect>, b: seq<Effect>, c: seq<Effect>)
    ensures (a + b) + c == a + (b + c)
  {
  }

  lemma EffectsConcatStep(cfg: Config, a: seq<Step>, front: seq<Step>, last: Step, b: seq<Step>)
    requires b == front + [last] && EffectsOf(cfg, a + front) == EffectsOf(cfg, a) + EffectsOf(cfg, front)
    ensures EffectsOf(cfg, a + b) == EffectsOf(cfg, a) + EffectsOf(cfg, b)
  {
    assert a + b == (a + front) + [last];
    StepsOfTwo(cfg, a + front, last);
    StepsOfTwo(cfg, front, last);
    Associative(EffectsOf(cfg, a), EffectsOf(cfg, front), EffectsOfStep(cfg, last));
  }

  lemma {:induction false} EffectsConcat(cfg: Config, a: seq<Step>, b: seq<Step>)
    ensures EffectsOf(cfg, a + b) == EffectsOf(cfg, a) + EffectsOf(cfg, b)
  {
    if b == [] {
      assert a + b == a;
    } else {
      var front, last := b[..|b| - 1], b[|b| - 1];
      assert b == front + [last];
      EffectsConcat(cfg, a, front);
      EffectsConcatStep(cfg, a, front, last, b);
    }
  }

  lemma TwoSteps(cfg: Config, s: Step, t: Step)
    ensures EffectsOf(cfg, [s]) == EffectsOfStep(cfg, s)
    ensures EffectsOf(cfg, [s, t]) == EffectsOfStep(cfg, s) + EffectsOfStep(cfg, t)
  {
    StepsOfTwo(cfg, [], s);
    StepsOfTwo(cfg, [s], t);
    assert [] + [s] == [s] && [s] + [t] == [s, t];
  }

  lemma FourSteps(cfg: Config, a: Step, b: Step, c: Step, d: Step)
    ensures EffectsOf(cfg, [a, b, c, d]) ==
            EffectsOfStep(cfg, a) + EffectsOfStep(cfg, b) + EffectsOfStep(cfg, c) + EffectsOfStep(cfg, d)
  {
    TwoSteps(cfg, a, b);
    StepsOfTwo(cfg, [a, b], c);
    StepsOfTwo(cfg, [a, b, c], d);
    assert [a, b] + [c] == [a, b, c] && [a, b, c] + [d] == [a, b, c, d];
  }

  lemma PrepareEffects(cfg: Config)
    ensures EffectsOf(cfg, Script(Prepare)) == [GetReplicas(cfg.web), GetReplicas(cfg.db), S3Check, K8sCheck, Fetch]
  {
    FourSteps(cfg, RecordReplicas, CheckS3, CheckKubernetes, Download);
  }

  lemma RestoreEffects(cfg: Config)
    ensures EffectsOf(cfg, Script(Restore)) ==
            [Scale(cfg.web, 0), Scale(cfg.db, 1), WaitFor(cfg.web, 0), WaitFor(cfg.db, 1)]
                                               + [DbCheck, Reset, Load, Size, Analyze]
  {
    var first, second := [ScaleWeb(0), ScaleDb(1), WaitWeb(0), WaitDb(1)], [CheckDb, ResetDb, RestoreDb, AnalyzeDb];
    assert EffectsOf(cfg, first) == [Scale(cfg.web, 0), Scale(cfg.db, 1), WaitFor(cfg.web, 0), WaitFor(cfg.db, 1)] by {
      FourSteps(cfg, ScaleWeb(0), ScaleDb(1), WaitWeb(0), WaitDb(1));
    }
    assert EffectsOf(cfg, second) == [DbCheck, Reset, Load, Size, Analyze] by {
      FourSteps(cfg, CheckDb, ResetDb, RestoreDb, AnalyzeDb);
    }
    EffectsConcat(cfg, first, second);
    assert Script(Restore) == first + second;
  }

  lemma VerifyEffects(cfg: Config)
    ensures EffectsOf(cfg, Script(Verify)) == [Scale(cfg.web, 1), WaitFor(cfg.web, 1), Readiness, Timeline]
  {
    FourSteps(cfg, ScaleWeb(1), WaitWeb(1), AwaitReadiness, CheckTimeline);
  }

  lemma CleanupEffects(cfg: Config)
    ensures EffectsOf(cfg, Script(Cleanup)) == [Scale(cfg.web, 0), Scale(cfg.db, 0)]
  {
    TwoSteps(cfg, ScaleWeb(0), ScaleDb(0));
  }

  /** The effects of a phase's script are its part of the canonical order. */
  lemma ScriptIsCanon(cfg: Config, phase: Phase)
    requires phase != Preflight
    ensures EffectsOf(cfg, Script(phase)) == Canon(cfg)[Boundary(Index(phase) - 1)..Boundary(Index(phase))]
  {
    match phase
    case Prepare => PrepareEffects(cfg);
    case Restore => RestoreEffects(cfg);
    case Verify => VerifyEffects(cfg);
    case Cleanup => CleanupEffects(cfg);
  }

  // ----- traces of a script

  /** Failures of these calls are logged and never stop the run. */
  predicate BestEffort(e: Effect) {
    e.GetReplicas? || e.Size?
  }

  /** A call of the workflow proper: not detached, and successful unless best-effort. */
  predicate WentThrough(c: Call, e: Effect) {
    c.effect == e && !c.detached && (c.err.None? || BestEffort(e))
  }

  /** All the calls were made, in order, and nothing mandatory failed. */
  predicate Performed(calls: seq<Call>, effects: seq<Effect>) {
    |calls| == |effects| && forall i :: 0 <= i < |calls| ==> WentThrough(calls[i], effects[i])
  }

  /** The calls stop at the first mandatory failure. */
  predicate CutShort(calls: seq<Call>, effects: seq<Effect>) {
    && 0 < |calls| <= |effects|
    && (forall i :: 0 <= i < |calls| - 1 ==> WentThrough(calls[i], effects[i]))
    && var last := |calls| - 1;
       calls[last].effect == effects[last] && !calls[last].detached && calls[last].err.Some?
         && !BestEffort(effects[last])
  }

  lemma PerformedConcat(a: seq<Call>, x: seq<Effect>, b: seq<Call>, y: seq<Effect>)
    requires Performed(a, x)
    ensures Performed(b, y) ==> Performed(a + b, x + y)
    ensures CutShort(b, y) ==> CutShort(a + b, x + y)
  {
  }

  lemma CutShortExtends(a: seq<Call>, x: seq<Effect>, y: seq<Effect>)
    requires CutShort(a, x)
    ensures CutShort(a, x + y)
  {
  }

  /** After the workflow: one detached web scale-down if it failed, then at most one
      removal of the dump, and nothing else. */
  predicate Aftermath(tail: seq<Call>, cfg: Config, recovered: bool, removed: bool) {
    var k := if recovered then 1 else 0;
    && |tail| == k + (if removed then 1 else 0)
    && (recovered ==> tail[0].effect == Scale(cfg.web, 0) && tail[0].detached)
    && (removed ==> tail[k].effect == RemoveDump)
  }

  /** The trace of a whole run whose workflow made n calls. */
  predicate RunTrace(t: seq<Call>, cfg: Config, n: nat) {
    && n <= |t|
    && (Performed(t[..n], Canon(cfg)) || CutShort(t[..n], Canon(cfg)))
    && Aftermath(t[n..], cfg, CutShort(t[..n], Canon(cfg)), n > 4 && t[4].err.None?)
  }

  lemma NotBoth(calls: seq<Call>, effects: seq<Effect>)
    ensures !(Performed(calls, effects) && CutShort(calls, effects))
  {
  }

  lemma CallsAreCanon(t: seq<Call>, cfg: Config, n: nat, i: nat)
    requires RunTrace(t, cfg, n) && i < n
    ensures t[i].effect == Canon(cfg)[i] && !t[i].detached
    ensures i < n - 1 ==> t[i].err.None? || BestEffort(t[i].effect)
  {
    assert t[..n][i] == t[i];
  }

  /** The calls of a run, by position: the workflow's in their fixed order, of which only the
      first two and the thirteenth may fail without being the last; then the detached web
      scale-down if the last one failed; then the dump's removal if the fifth succeeded. */
  predicate InOrder(t: seq<Call>, cfg: Config, n: nat) {
    var order := [GetReplicas(cfg.web), GetReplicas(cfg.db), S3Check, K8sCheck, Fetch,
                  Scale(cfg.web, 0), Scale(cfg.db, 1), WaitFor(cfg.web, 0), WaitFor(cfg.db, 1),
                  DbCheck, Reset, Load, Size, Analyze,
                  Scale(cfg.web, 1), WaitFor(cfg.web, 1), Readiness, Timeline,
                  Scale(cfg.web, 0), Scale(cfg.db, 0)];
    && 3 <= n <= 20 && n <= |t|
    && (forall i :: 0 <= i < n ==> t[i].effect == order[i] && !t[i].detached)
    && (forall i :: 0 <= i < n && i != 0 && i != 1 && i != 12 && t[i].err.Some? ==> i == n - 1)
    && (n < 20 ==> n != 13 && t[n - 1].err.Some?)
    && (var failed := t[n - 1].err.Some?;
        |t| == n + (if failed then 1 else 0) + (if n > 5 then 1 else 0)
        && (failed ==> t[n].effect == Scale(cfg.web, 0) && t[n].detached)
        && (n > 5 ==> t[|t| - 1].effect == RemoveDump))
  }

  lemma WorkflowInOrder(t: seq<Call>, cfg: Config, n: nat)
    requires RunTrace(t, cfg, n)
    ensures 3 <= n <= 20 && (n < 20 ==> n != 13 && t[n - 1].err.Some?)
    ensures t[n - 1].err.Some? <==> CutShort(t[..n], Canon(cfg))
    ensures forall i :: 0 <= i < n && i != 0 && i != 1 && i != 12 && t[i].err.Some? ==> i == n - 1
    ensures n > 4 && t[4].err.None? <==> n > 5
  {
    assert n > 0 ==> t[..n][n - 1] == t[n - 1];
    forall i | 0 <= i < n
      ensures t[i].effect == Canon(cfg)[i] && (i < n - 1 ==> t[i].err.None? || BestEffort(t[i].effect))
    {
      CallsAreCanon(t, cfg, n, i);
    }
  }

  lemma TailInOrder(t: seq<Call>, cfg: Config, n: nat, failed: bool, fetched: bool)
    requires n <= |t| && Aftermath(t[n..], cfg, failed, fetched)
    ensures |t| == n + (if failed then 1 else 0) + (if fetched then 1 else 0)
    ensures failed ==> t[n].effect == Scale(cfg.web, 0) && t[n].detached
    ensures fetched ==> t[|t| - 1].effect == RemoveDump
  {
    assert failed ==> t[n..][0] == t[n];
    assert fetched ==> t[n..][|t| - 1 - n] == t[|t| - 1];
  }

  /** The trace of every run is in order. */
  lemma RunInOrder(t: seq<Call>, cfg: Config, n: nat)
    requires RunTrace(t, cfg, n)
    ensures InOrder(t, cfg, n)
  {
    WorkflowInOrder(t, cfg, n);
    TailInOrder(t, cfg, n, CutShort(t[..n], Canon(cfg)), n > 4 && t[4].err.None?);
    forall i | 0 <= i < n
      ensures !t[i].detached && t[i].effect == Canon(cfg)[i]
    {
      CallsAreCanon(t, cfg, n, i);
    }
  }

  // ----- what the cluster has been told

  /** What is known of a workload from the calls so far: the desired replicas last set
      successfully (unknown after a failed scale), and the replicas last waited for
      successfully since then. */
  datatype View = View(desired: Option<int>, reached: Option<int>)

  function Observe(v: View, c: Call, w: string): View {
    match c.effect
    case Scale(workload, n) => if workload == w then View(if c.err.None? then Some(n) else None, None) else v
    case WaitFor(workload, n) => if workload == w then v.(reached := if c.err.None? then Some(n) else None) else v
    case _ => v
  }

  function Seen(t: seq<Call>, w: string): View {
    if t == [] then View(None, None) else Observe(Seen(t[..|t| - 1], w), t[|t| - 1], w)
  }

  lemma SeenStep(t: seq<Call>, i: nat, w: string)
    requires i < |t|
    ensures Seen(t[..i + 1], w) == Observe(Seen(t[..i], w), t[i], w)
  {
    assert t[..i + 1][..i] == t[..i];
  }

  /** The view of the web and database workloads before call i of a run, by position. */
  predicate Expected(cfg: Config, i: nat, web: View, db: View)
    requires cfg.web != cfg.db
  {
    && (6 <= i <= 14 ==> web.desired == Some(0))
    && (8 <= i <= 14 ==> web.reached == Some(0))
    && (7 <= i <= 19 ==> db.desired == Some(1))
    && (9 <= i <= 19 ==> db.reached == Some(1))
    && (15 <= i <= 18 ==> web.desired == Some(1))
    && (19 <= i ==> web.desired == Some(0))
    && (20 <= i ==> db.desired == Some(0))
  }

  lemma ExpectedStep(cfg: Config, i: nat, web: View, db: View, c: Call)
    requires cfg.web != cfg.db && i < 20 && WentThrough(c, Canon(cfg)[i]) && Expected(cfg, i, web, db)
    ensures Expected(cfg, i + 1, Observe(web, c, cfg.web), Observe(db, c, cfg.db))
  {
  }

  lemma {:induction false} ViewsAsExpected(t: seq<Call>, cfg: Config, n: nat, i: nat)
    requires RunTrace(t, cfg, n) && cfg.web != cfg.db && i <= n
    requires i == n ==> Performed(t[..n], Canon(cfg))
    ensures Expected(cfg, i, Seen(t[..i], cfg.web), Seen(t[..i], cfg.db))
  {
    if i > 0 {
      ViewsAsExpected(t, cfg, n, i - 1);
      assert t[..n][i - 1] == t[i - 1];
      ExpectedStep(cfg, i - 1, Seen(t[..i - 1], cfg.web), Seen(t[..i - 1], cfg.db), t[i - 1]);
      SeenStep(t, i - 1, cfg.web);
      SeenStep(t, i - 1, cfg.db);
    }
  }

  predicate TouchesDatabase(e: Effect) {
    e == Reset || e == Load || e == Size || e == Analyze
  }

  /** The web is down and the database up, as last set and last waited for. */
  predicate Quiet(t: seq<Call>, cfg: Config) {
    Seen(t, cfg.web) == View(Some(0), Some(0)) && Seen(t, cfg.db) == View(Some(1), Some(1))
  }

  /** The database is only ever replaced, loaded, measured or analysed while the web is down
      and the database up. */
  ghost predicate TouchedOnlyWhenQuiet(t: seq<Call>, cfg: Config) {
    forall i :: 0 <= i < |t| && TouchesDatabase(t[i].effect) ==> Quiet(t[..i], cfg)
  }

  lemma TailTouchesNothing(t: seq<Call>, cfg: Config, n: nat, i: nat)
    requires RunTrace(t, cfg, n) && n <= i < |t|
    ensures t[i].effect == RemoveDump || (t[i].effect == Scale(cfg.web, 0) && t[i].detached && i == n
              && CutShort(t[..n], Canon(cfg)))
  {
    assert t[i] == t[n..][i - n];
  }

  lemma TouchIsQuiet(t: seq<Call>, cfg: Config, n: nat, i: nat)
    requires RunTrace(t, cfg, n) && cfg.web != cfg.db && i < |t| && TouchesDatabase(t[i].effect)
    ensures Quiet(t[..i], cfg)
  {
    if n <= i {
      TailTouchesNothing(t, cfg, n, i);
    }
    CallsAreCanon(t, cfg, n, i);
    ViewsAsExpected(t, cfg, n, i);
  }

  /** Configuration does not require the two workload names to differ. If they are equal,
      no run that reaches the database reset does so quietly: scaling the database up has
      scaled the web up. So quiet resets are guaranteed exactly for distinct names. */
  lemma QuietIffDistinct(t: seq<Call>, cfg: Config, n: nat)
    requires RunTrace(t, cfg, n) && n > 10
    ensures t[10].effect == Reset
    ensures Quiet(t[..10], cfg) <==> cfg.web != cfg.db
  {
    CallsAreCanon(t, cfg, n, 10);
    if cfg.web != cfg.db {
      ViewsAsExpected(t, cfg, n, 10);
    }
  }

  /** Replica safety: it holds exactly when the workload names differ or the run stops before
      the database is reset. */
  lemma DatabaseTouchedOnlyWhenQuiet(t: seq<Call>, cfg: Config, n: nat)
    requires RunTrace(t, cfg, n)
    ensures TouchedOnlyWhenQuiet(t, cfg) <==> cfg.web != cfg.db || n <= 10
  {
    if n > 10 {
      QuietIffDistinct(t, cfg, n);
    }
    forall i | 0 <= i < |t| && TouchesDatabase(t[i].effect) && (cfg.web != cfg.db || n <= 10)
      ensures Quiet(t[..i], cfg)
    {
      if n <= i {
        TailTouchesNothing(t, cfg, n, i);
      }
      CallsAreCanon(t, cfg, n, i);
      TouchIsQuiet(t, cfg, n, i);
    }
  }

  /** The trace of a run in which everything goes well. */
  function CompleteRun(cfg: Config): (t: seq<Call>)
    ensures |t| == 21 && t[20].effect == RemoveDump
    ensures forall i :: 0 <= i < 20 ==> t[i] == Call(Canon(cfg)[i], false, None)
  {
    seq(20, i requires 0 <= i < 20 => Call(Canon(cfg)[i], false, None)) + [Call(RemoveDump, false, None)]
  }

  lemma CompleteRunIsRun(cfg: Config)
    ensures RunTrace(CompleteRun(cfg), cfg, 20)
  {
    var t := CompleteRun(cfg);
    assert Performed(t[..20], Canon(cfg));
    NotBoth(t[..20], Canon(cfg));
    assert t[20..] == [t[20]];
  }

  /** Equal names are no dead case: with both workloads called the same, a complete run
      reaches the reset, and the web is not down. */
  lemma SharedNameReachesReset(name: string)
    ensures var cfg, t := Config(name, name), CompleteRun(Config(name, name));
            RunTrace(t, cfg, 20) && t[10].effect == Reset && !Quiet(t[..10], cfg)
  {
    CompleteRunIsRun(Config(name, name));
    QuietIffDistinct(CompleteRun(Config(name, name)), Config(name, name), 20);
  }

  /** Every start of the web comes after a successful analyse. */
  ghost predicate StartedOnlyAfterAnalyze(t: seq<Call>, cfg: Config) {
    forall i :: 0 <= i < |t| && t[i].effect == Scale(cfg.web, 1) ==>
      exists j :: 0 <= j < i && t[j].effect == Analyze && t[j].err.None?
  }

  lemma StartIsAfterAnalyze(t: seq<Call>, cfg: Config, n: nat, i: nat)
    requires RunTrace(t, cfg, n) && i < |t| && t[i].effect == Scale(cfg.web, 1) && (cfg.web != cfg.db || n <= 6)
    ensures exists j :: 0 <= j < i && t[j].effect == Analyze && t[j].err.None?
  {
    if n <= i {
      TailTouchesNothing(t, cfg, n, i);
    }
    CallsAreCanon(t, cfg, n, i);
    CallsAreCanon(t, cfg, n, 13);
    assert t[13].effect == Analyze && t[13].err.None?;
  }

  /** The web is started only after a successful analyse exactly when the workload names
      differ or the run stops before the database is scaled up. */
  lemma WebStartedOnlyAfterAnalyze(t: seq<Call>, cfg: Config, n: nat)
    requires RunTrace(t, cfg, n)
    ensures StartedOnlyAfterAnalyze(t, cfg) <==> cfg.web != cfg.db || n <= 6
  {
    if cfg.web != cfg.db || n <= 6 {
      forall i | 0 <= i < |t| && t[i].effect == Scale(cfg.web, 1)
        ensures exists j :: 0 <= j < i && t[j].effect == Analyze && t[j].err.None?
      {
        StartIsAfterAnalyze(t, cfg, n, i);
      }
    } else {
      CallsAreCanon(t, cfg, n, 6);
      assert t[6].effect == Scale(cfg.web, 1);
      forall j | 0 <= j < 6
        ensures t[j].effect != Analyze
      {
        CallsAreCanon(t, cfg, n, j);
      }
    }
  }

  /** Everything mandatory before position i succeeded. */
  predicate MandatoryBefore(t: seq<Call>, i: nat)
    requires i <= |t|
  {
    forall j :: 0 <= j < i ==> t[j].err.None? || BestEffort(t[j].effect)
  }

  /** Every scale-down of the database is the very last workflow call. */
  ghost predicate ScaledDownLast(t: seq<Call>, cfg: Config) {
    forall i :: 0 <= i < |t| && t[i].effect == Scale(cfg.db, 0) ==> i == 19 && MandatoryBefore(t, i)
  }

  lemma ScaleDownIsLast(t: seq<Call>, cfg: Config, n: nat, i: nat)
    requires RunTrace(t, cfg, n) && cfg.web != cfg.db && i < |t| && t[i].effect == Scale(cfg.db, 0)
    ensures i == 19 && MandatoryBefore(t, i)
  {
    if n <= i {
      TailTouchesNothing(t, cfg, n, i);
    }
    CallsAreCanon(t, cfg, n, i);
    forall j | 0 <= j < i
      ensures t[j].err.None? || BestEffort(t[j].effect)
    {
      CallsAreCanon(t, cfg, n, j);
    }
  }

  /** The database is scaled down only by the very last workflow call, after everything
      mandatory succeeded, exactly when the workload names differ; with a shared name every
      run, complete or failed, scales the shared workload down earlier or as recovery. */
  lemma DatabaseScaledDownLast(t: seq<Call>, cfg: Config, n: nat)
    requires RunTrace(t, cfg, n)
    ensures ScaledDownLast(t, cfg) <==> cfg.web != cfg.db
  {
    if cfg.web != cfg.db {
      forall i | 0 <= i < |t| && t[i].effect == Scale(cfg.db, 0)
        ensures i == 19 && MandatoryBefore(t, i)
      {
        ScaleDownIsLast(t, cfg, n, i);
      }
    } else if n > 5 {
      CallsAreCanon(t, cfg, n, 5);
      assert t[5].effect == Scale(cfg.db, 0);
    } else {
      TailTouchesNothing(t, cfg, n, n);
      assert t[n].effect == Scale(cfg.db, 0);
    }
  }

  lemma RemovalChangesNothing(t: seq<Call>, cfg: Config, k: nat)
    requires k <= |t| <= k + 1 && (|t| == k + 1 ==> t[k].effect == RemoveDump)
    ensures Seen(t, cfg.web) == Seen(t[..k], cfg.web) && Seen(t, cfg.db) == Seen(t[..k], cfg.db)
  {
    if |t| == k {
      assert t[..k] == t;
    } else {
      assert t[..|t| - 1] == t[..k];
    }
  }

  /** A complete run leaves both workloads told to scale to zero, whatever their names. */
  lemma CompletedLeavesZero(t: seq<Call>, cfg: Config, n: nat)
    requires RunTrace(t, cfg, n) && Performed(t[..n], Canon(cfg))
    ensures Seen(t, cfg.web).desired == Some(0) && Seen(t, cfg.db).desired == Some(0)
  {
    NotBoth(t[..n], Canon(cfg));
    RemovalChangesNothing(t, cfg, n);
    assert t[..n][18] == t[18] && t[..n][19] == t[19];
    SeenStep(t, 18, cfg.web);
    SeenStep(t, 19, cfg.web);
    SeenStep(t, 19, cfg.db);
  }

  /** How a run leaves the workloads, whatever their names: a complete one with both scaled
      to zero; a failed one with the web scaled to zero if the recovery call succeeded. With
      distinct names a failed run also leaves the database as the workflow left it. */
  lemma LeftBehind(t: seq<Call>, cfg: Config, n: nat)
    requires RunTrace(t, cfg, n)
    ensures Performed(t[..n], Canon(cfg)) ==> Seen(t, cfg.web).desired == Some(0) && Seen(t, cfg.db).desired == Some(0)
    ensures CutShort(t[..n], Canon(cfg)) ==> (t[n].err.None? ==> Seen(t, cfg.web).desired == Some(0))
    ensures CutShort(t[..n], Canon(cfg)) && cfg.web != cfg.db ==> Seen(t, cfg.db) == Seen(t[..n], cfg.db)
  {
    NotBoth(t[..n], Canon(cfg));
    if Performed(t[..n], Canon(cfg)) {
      CompletedLeavesZero(t, cfg, n);
    } else {
      TailTouchesNothing(t, cfg, n, n);
      SeenStep(t, n, cfg.web);
      SeenStep(t, n, cfg.db);
      RemovalChangesNothing(t, cfg, n + 1);
    }
  }
}
