/** The retry loop around the global timeline check (internal/restore/misskey_api.go).
    Times are nanoseconds on one clock. */
module GlobalTimeline {
  import opened Wrappers
  import opened Budget
  import opened Nanoseconds

  datatype Settings = Settings(requestTimeout: int, retryInterval: int, retryTimeout: int)

  const DEFAULTS: Settings := Settings(10 * SECOND, 30 * SECOND, 300 * SECOND)

  predicate Positive(s: Settings) {
    s.requestTimeout > 0 && s.retryInterval > 0 && s.retryTimeout > 0
  }

  /** The first positive value among the configuration's, the client's and the default. */
  function FirstPositive(config: int, own: int, default: int): int {
    if config > 0 then config else if own > 0 then own else default
  }

  /** Each setting is the first positive one, so all are positive. */
  function Chosen(own: Settings, config: Option<Settings>): (s: Settings)
    ensures Positive(s)
  {
    var c := if config.Some? then config.value else Settings(0, 0, 0);
    Settings(FirstPositive(c.requestTimeout, own.requestTimeout, DEFAULTS.requestTimeout),
             FirstPositive(c.retryInterval, own.retryInterval, DEFAULTS.retryInterval),
             FirstPositive(c.retryTimeout, own.retryTimeout, DEFAULTS.retryTimeout))
  }

  method GtlSettings(own: Settings, config: Option<Settings>) returns (s: Settings)
    ensures Positive(s) && s == Chosen(own, config)
    ensures s.requestTimeout == if config.Some? && config.value.requestTimeout > 0 then config.value.requestTimeout
                                else if own.requestTimeout > 0 then own.requestTimeout else 10_000_000_000
    ensures s.retryInterval == if config.Some? && config.value.retryInterval > 0 then config.value.retryInterval
                               else if own.retryInterval > 0 then own.retryInterval else 30_000_000_000
    ensures s.retryTimeout == if config.Some? && config.value.retryTimeout > 0 then config.value.retryTimeout
                              else if own.retryTimeout > 0 then own.retryTimeout else 300_000_000_000
  {
    var request, interval, timeout := own.requestTimeout, own.retryInterval, own.retryTimeout;
    if request <= 0 {
      request := DEFAULTS.requestTimeout;
    }
    if interval <= 0 {
      interval := DEFAULTS.retryInterval;
    }
    if timeout <= 0 {
      timeout := DEFAULTS.retryTimeout;
    }
    if config.Some? {
      if config.value.requestTimeout > 0 {
        request := config.value.requestTimeout;
      }
      if config.value.retryInterval > 0 {
        interval := config.value.retryInterval;
      }
      if config.value.retryTimeout > 0 {
        timeout := config.value.retryTimeout;
      }
    }
    s := Settings(request, interval, timeout);
  }

  // ----- one attempt

  datatype Body = Missing | ReadFailed | DeadlinePassed | Cancelled | Malformed | Notes(count: nat, wellFormed: bool)
  datatype Response = BadRequest | TransportFailed | Answered(status: int, body: Body)
  datatype Reply = Valid | Retryable | Permanent

  /** What one attempt reports: success, or an error and whether to try again. */
  function Classify(r: Response): Reply {
    match r
    case BadRequest => Permanent
    case TransportFailed => Retryable
    case Answered(status, body) =>
      if 500 <= status < 600 then Retryable
      else if !(200 <= status < 300) then Permanent
      else match body
        case Missing => Permanent
        case ReadFailed => Retryable
        case DeadlinePassed => Retryable
        case Cancelled => Permanent
        case Malformed => Permanent
        case Notes(count, wellFormed) => if 1 <= count <= 10 && wellFormed then Valid else Permanent
  }

  // ----- the loop, against every possible environment

  /** One attempt and the wait after it: the response and how long it took; how late the
      goroutine wakes; and which case a select takes when both are ready. */
  datatype Round = Round(response: Response, took: nat, lag: nat, timerWins: bool)

  datatype Cause = ParentEnded | DeadlineExceeded
  datatype Outcome = Validated | Ended(cause: Cause) | RetryTimeout(cause: Cause) | Rejected

  /** The caller's context ends at cancelAt, if ever; the retry budget ends at the deadline. */
  datatype Env = Env(rounds: nat -> Round, start: nat, cancelAt: Option<nat>, interval: nat, timeout: nat) {
    function Deadline(): nat {
      start + timeout
    }

    predicate ParentDone(t: nat) {
      cancelAt.Some? && cancelAt.value <= t
    }

    function DoneAt(): nat {
      if cancelAt.Some? && cancelAt.value <= Deadline() then cancelAt.value else Deadline()
    }

    predicate RetryDone(t: nat) {
      DoneAt() <= t
    }

    /** Why the retry context ended: whichever end came first. */
    function Cause(): Cause {
      if cancelAt.Some? && cancelAt.value <= Deadline() then ParentEnded else DeadlineExceeded
    }

    /** When attempt i starts, ends, and when the wait after it is over. */
    function Start(i: nat): nat
      decreases i, 2
    {
      if i == 0 then start else Wake(i - 1)
    }

    function End(i: nat): nat
      decreases i, 3
    {
      Start(i) + rounds(i).took
    }

    function Wake(i: nat): nat
      decreases i, 4
    {
      var fire := End(i) + interval;
      (if fire <= DoneAt() then fire else DoneAt()) + rounds(i).lag
    }

    predicate TimerChosen(i: nat) {
      Wake(i) >= End(i) + interval && (RetryDone(Wake(i)) ==> rounds(i).timerWins)
    }

    /** Round i ends with another attempt to come. */
    predicate Continues(i: nat) {
      !RetryDone(Start(i)) && Classify(rounds(i).response) == Retryable && !RetryDone(End(i)) && TimerChosen(i)
    }

    /** An attempt is made in round i, all earlier rounds having continued. */
    ghost predicate Attempted(i: nat) {
      (forall j :: 0 <= j < i ==> Continues(j)) && !RetryDone(Start(i))
    }
  }

  /** Attempts are at least one interval apart. */
  lemma {:induction false} StartsApart(e: Env, i: nat)
    requires forall j :: 0 <= j < i ==> e.Continues(j)
    ensures e.Start(i) >= e.start + i * e.interval
  {
    if i > 0 {
      StartsApart(e, i - 1);
      assert e.Continues(i - 1);
      assert i * e.interval == (i - 1) * e.interval + e.interval;
    }
  }

  /** The retry budget bounds the attempts, whatever the responses and delays. */
  lemma AttemptsBounded(e: Env, i: nat)
    requires e.interval > 0 && e.Attempted(i)
    ensures i + 1 <= CeilDiv(e.timeout, e.interval)
  {
    StartsApart(e, i);
    assert i * e.interval < e.timeout;
    CeilDivExceeds(i, e.timeout, e.interval);
  }

  lemma PromptRound(e: Env, i: nat)
    requires e.cancelAt.None? && e.rounds(i) == Round(TransportFailed, 0, 0, true)
    requires e.interval > 0 && e.Start(i) + e.interval < e.Deadline()
    ensures e.Continues(i) && e.Start(i + 1) == e.Start(i) + e.interval
  {
    assert e.Start(i + 1) == e.Wake(i);
  }

  /** The bound is reached: against a service that always fails at once, with prompt timers
      and no cancellation, every attempt below the bound is made. */
  lemma {:induction false} BoundIsReached(e: Env, i: nat)
    requires e.interval > 0 && e.timeout > 0 && e.cancelAt.None? && i + 1 <= CeilDiv(e.timeout, e.interval)
    requires forall j: nat :: e.rounds(j) == Round(TransportFailed, 0, 0, true)
    ensures e.Attempted(i) && e.Start(i) == e.start + i * e.interval
  {
    CeilDivExceeds(i, e.timeout, e.interval);
    if i > 0 {
      BoundIsReached(e, i - 1);
      assert i * e.interval == (i - 1) * e.interval + e.interval;
      PromptRound(e, i - 1);
    }
  }

  /** How round n ends the loop, once it does not continue. */
  function Verdict(e: Env, n: nat): Outcome {
    if e.RetryDone(e.Start(n)) then Ended(e.Cause())
    else if Classify(e.rounds(n).response) == Valid then Validated
    else if e.ParentDone(e.End(n)) then Ended(ParentEnded)
    else if e.RetryDone(e.End(n)) then RetryTimeout(DeadlineExceeded)
    else if Classify(e.rounds(n).response) == Permanent then Rejected
    else RetryTimeout(e.Cause())
  }

  /** Round n is the first that does not continue. */
  ghost predicate StopsAt(e: Env, n: nat) {
    (forall j :: 0 <= j < n ==> e.Continues(j)) && !e.Continues(n)
  }

  /** The loop stops at the first round that does not continue, with that round's verdict.
      An attempt was made in that round unless the contexts had ended before it. */
  method RetryUntilDone(e: Env) returns (outcome: Outcome, attempts: nat, ghost n: nat)
    requires e.interval > 0 && e.timeout > 0
    ensures StopsAt(e, n) && outcome == Verdict(e, n)
    ensures attempts == if e.RetryDone(e.Start(n)) then n else n + 1
    ensures attempts <= CeilDiv(e.timeout, e.interval)
  {
    var now := e.start;
    attempts, n := 0, 0;
    while true
      invariant n == attempts && now == e.Start(n)
      invariant forall j :: 0 <= j < n ==> e.Continues(j)
      invariant attempts <= CeilDiv(e.timeout, e.interval)
      decreases e.Deadline() - now
    {
      if e.RetryDone(now) {
        return Ended(e.Cause()), attempts, n;
      }
      assert e.Attempted(n);
      AttemptsBounded(e, n);
      var round := e.rounds(attempts);
      attempts := attempts + 1;
      now := now + round.took;
      var reply := Classify(round.response);
      if reply == Valid {
        return Validated, attempts, n;
      }
      if e.ParentDone(now) {
        return Ended(ParentEnded), attempts, n;
      }
      if e.RetryDone(now) {
        return RetryTimeout(DeadlineExceeded), attempts, n;
      }
      if reply == Permanent {
        return Rejected, attempts, n;
      }
      var fire := now + e.interval;
      now := (if fire <= e.DoneAt() then fire else e.DoneAt()) + round.lag;
      if e.RetryDone(now) && !(now >= fire && round.timerWins) {
        return RetryTimeout(e.Cause()), attempts, n;
      }
      assert now == e.Wake(n) && e.Start(n + 1) == e.Wake(n);
      n := n + 1;
    }
  }

  /** The environment of a check with the settings it works out itself. */
  function Surroundings(own: Settings, config: Option<Settings>, rounds: nat -> Round,
                        start: nat, cancelAt: Option<nat>): (e: Env)
    ensures e.interval > 0 && e.timeout > 0
  {
    Env(rounds, start, cancelAt, Chosen(own, config).retryInterval, Chosen(own, config).retryTimeout)
  }

  /** What the responses decide, over the responses themselves: the last attempt's makes the
      check succeed, or is rejected while the contexts are alive, and every earlier one was of
      the kinds that are tried again. */
  lemma ResponsesDecide(e: Env, n: nat, attempts: nat)
    requires StopsAt(e, n) && attempts == if e.RetryDone(e.Start(n)) then n else n + 1
    ensures Verdict(e, n) == Validated <==>
      attempts > 0 && var r := e.rounds(attempts - 1).response;
      r.Answered? && 200 <= r.status < 300 && r.body.Notes? && 1 <= r.body.count <= 10 && r.body.wellFormed
    ensures forall j :: 0 <= j < attempts - 1 ==>
      var r := e.rounds(j).response;
      r.TransportFailed? || (r.Answered? && 500 <= r.status < 600)
      || (r.Answered? && 200 <= r.status < 300 && (r.body.ReadFailed? || r.body.DeadlinePassed?))
    ensures Verdict(e, n) == Rejected <==>
      attempts > 0 && !e.RetryDone(e.End(attempts - 1))
      && var r := e.rounds(attempts - 1).response;
         r.BadRequest?
         || (r.Answered? && !(200 <= r.status < 300) && !(500 <= r.status < 600))
         || (r.Answered? && 200 <= r.status < 300 && (r.body.Missing? || r.body.Cancelled? || r.body.Malformed?))
         || (r.Answered? && 200 <= r.status < 300 && r.body.Notes?
             && !(1 <= r.body.count <= 10 && r.body.wellFormed))
  {
    forall j | 0 <= j < n
      ensures Classify(e.rounds(j).response) == Retryable
    {
      assert e.Continues(j);
    }
  }

  /** When the loop goes on, over the responses themselves: after a response that is tried
      again, with both contexts alive, and with the timer taken. */
  lemma ContinuesIff(e: Env, i: nat)
    ensures e.Continues(i) <==>
      var r := e.rounds(i).response;
      && !e.RetryDone(e.Start(i)) && !e.RetryDone(e.End(i))
      && (r.TransportFailed? || (r.Answered? && 500 <= r.status < 600)
          || (r.Answered? && 200 <= r.status < 300 && (r.body.ReadFailed? || r.body.DeadlinePassed?)))
      && e.Wake(i) >= e.End(i) + e.interval && (e.RetryDone(e.Wake(i)) ==> e.rounds(i).timerWins)
  {
  }

  /** The check, with the settings it works out itself: whatever the configuration and the
      client were given, it ends, within the bound its own settings set. */
  method CheckGlobalTimeline(own: Settings, config: Option<Settings>, rounds: nat -> Round,
                             start: nat, cancelAt: Option<nat>)
    returns (outcome: Outcome, attempts: nat)
    ensures var e := Surroundings(own, config, rounds, start, cancelAt);
            exists n: nat :: StopsAt(e, n) && outcome == Verdict(e, n)
                             && attempts == if e.RetryDone(e.Start(n)) then n else n + 1
    ensures var e := Surroundings(own, config, rounds, start, cancelAt); attempts <= CeilDiv(e.timeout, e.interval)
    ensures outcome == Validated <==>
      attempts > 0 && var r := rounds(attempts - 1).response;
      r.Answered? && 200 <= r.status < 300 && r.body.Notes? && 1 <= r.body.count <= 10 && r.body.wellFormed
    ensures forall j :: 0 <= j < attempts - 1 ==>
      var r := rounds(j).response;
      r.TransportFailed? || (r.Answered? && 500 <= r.status < 600)
      || (r.Answered? && 200 <= r.status < 300 && (r.body.ReadFailed? || r.body.DeadlinePassed?))
    ensures var e := Surroundings(own, config, rounds, start, cancelAt);
      outcome == Rejected <==>
      attempts > 0 && !e.RetryDone(e.End(attempts - 1))
      && var r := rounds(attempts - 1).response;
         r.BadRequest?
         || (r.Answered? && !(200 <= r.status < 300) && !(500 <= r.status < 600))
         || (r.Answered? && 200 <= r.status < 300 && (r.body.Missing? || r.body.Cancelled? || r.body.Malformed?))
         || (r.Answered? && 200 <= r.status < 300 && r.body.Notes?
             && !(1 <= r.body.count <= 10 && r.body.wellFormed))
  {
    var s := GtlSettings(own, config);
    ghost var n;
    outcome, attempts, n := RetryUntilDone(Env(rounds, start, cancelAt, s.retryInterval, s.retryTimeout));
    assert StopsAt(Surroundings(own, config, rounds, start, cancelAt), n);
    ResponsesDecide(Surroundings(own, config, rounds, start, cancelAt), n, attempts);
  }

  /** The check succeeds exactly when an attempt was made in the stopping round and
      validated, even if the contexts ended during it; every earlier attempt was retryable
      with both contexts alive before and after it. */
  lemma SuccessIff(e: Env, n: nat)
    requires StopsAt(e, n)
    ensures Verdict(e, n) == Validated <==> e.Attempted(n) && Classify(e.rounds(n).response) == Valid
    ensures forall j :: 0 <= j < n ==> Classify(e.rounds(j).response) == Retryable
                                       && !e.RetryDone(e.Start(j)) && !e.RetryDone(e.End(j))
  {
    forall j | 0 <= j < n
      ensures Classify(e.rounds(j).response) == Retryable && !e.RetryDone(e.Start(j)) && !e.RetryDone(e.End(j))
    {
      assert e.Continues(j);
    }
  }

  /** Which guard decides, for every stop. Before an attempt the contexts' own cause is
      reported; after one that failed, the caller's end before the retry timeout, and that
      before a permanent error. */
  lemma Precedence(e: Env, n: nat)
    requires StopsAt(e, n)
    ensures Verdict(e, n) == Ended(ParentEnded) <==>
      if e.RetryDone(e.Start(n)) then e.cancelAt.Some? && e.cancelAt.value <= e.Deadline()
      else Classify(e.rounds(n).response) != Valid && e.ParentDone(e.End(n))
    ensures Verdict(e, n) == Ended(DeadlineExceeded) <==>
      e.RetryDone(e.Start(n)) && !(e.cancelAt.Some? && e.cancelAt.value <= e.Deadline())
    ensures Verdict(e, n) == Rejected <==>
      !e.RetryDone(e.Start(n)) && !e.RetryDone(e.End(n)) && Classify(e.rounds(n).response) == Permanent
    ensures Verdict(e, n).RetryTimeout? <==>
      !e.RetryDone(e.Start(n)) && Classify(e.rounds(n).response) != Valid && !e.ParentDone(e.End(n))
      && (e.RetryDone(e.End(n)) || Classify(e.rounds(n).response) == Retryable)
    ensures Verdict(e, n) == RetryTimeout(ParentEnded) <==>
      !e.RetryDone(e.Start(n)) && Classify(e.rounds(n).response) == Retryable
      && e.cancelAt.Some? && e.End(n) < e.cancelAt.value <= e.Deadline()
  {
  }

  /** The loop gives up while waiting for the attempt after n. */
  predicate StopsInWait(e: Env, n: nat) {
    && !e.RetryDone(e.Start(n)) && Classify(e.rounds(n).response) == Retryable
    && !e.RetryDone(e.End(n)) && !e.TimerChosen(n)
  }

  /** When the loop stops in round n: before its attempt, after it, or in the wait. */
  function StopTime(e: Env, n: nat): nat {
    if e.RetryDone(e.Start(n)) then e.Start(n) else if StopsInWait(e, n) then e.Wake(n) else e.End(n)
  }

  /** A caller who has ended by the time an unsuccessful check stops is told so exactly
      unless the check stopped in a wait, or before an attempt with the retry deadline
      having passed before the caller ended. */
  lemma CancellationReported(e: Env, n: nat)
    requires StopsAt(e, n) && e.ParentDone(StopTime(e, n)) && Verdict(e, n) != Validated
    ensures Verdict(e, n) == Ended(ParentEnded) <==>
      !StopsInWait(e, n) && (e.RetryDone(e.Start(n)) ==> e.cancelAt.value <= e.Deadline())
  {
  }

  /** A caller that ends in the wait after round n, before the retry deadline: the select
      decides. If it takes the timer the next look at the contexts reports the caller's end;
      if not, a retry timeout is reported. */
  lemma CancelledInWait(e: Env, n: nat, m: nat)
    requires StopsAt(e, m) && n <= m && !e.RetryDone(e.Start(n)) && Classify(e.rounds(n).response) == Retryable
    requires e.cancelAt.Some? && e.End(n) < e.cancelAt.value <= e.Deadline() && e.cancelAt.value <= e.Wake(n)
    ensures m == if e.TimerChosen(n) then n + 1 else n
    ensures Verdict(e, m) == RetryTimeout(ParentEnded) <==> !e.TimerChosen(n)
    ensures Verdict(e, m) == Ended(ParentEnded) <==> e.TimerChosen(n)
  {
    if e.TimerChosen(n) {
      assert e.Continues(n) && e.Start(n + 1) == e.Wake(n);
      assert !e.Continues(n + 1);
      assert m <= n + 1;
    } else {
      assert !e.Continues(n);
    }
  }

  /** A service that fails at once, every time, with timers this late. */
  function Failing(start: nat, cancelAt: nat, interval: nat, timeout: nat, lag: nat, timerWins: bool): Env {
    Env((i: nat) => Round(TransportFailed, 0, lag, timerWins), start, Some(cancelAt), interval, timeout)
  }

  /** All the ways to be told, and not to be told, exist. A caller ending in the first wait
      is reported as a retry timeout when the wait is cut short... */
  lemma CancelledWhileWaiting(start: nat, wait: nat, interval: nat, timeout: nat)
    requires 0 < wait < interval && wait <= timeout
    ensures var e := Failing(start, start + wait, interval, timeout, 0, true);
            StopsAt(e, 0) && Verdict(e, 0) == RetryTimeout(ParentEnded)
  {
    var e := Failing(start, start + wait, interval, timeout, 0, true);
    assert e.Wake(0) == start + wait;
    assert !e.Continues(0);
  }

  /** ...as its own end when the goroutine wakes late and the select takes the timer... */
  lemma CancelledBehindTimer(start: nat, timeout: nat)
    requires timeout >= 1
    ensures var e := Failing(start, start + 1, 2, timeout, 1, true);
            StopsAt(e, 1) && Verdict(e, 1) == Ended(ParentEnded) && e.End(0) < start + 1 < e.Wake(0)
  {
    var e := Failing(start, start + 1, 2, timeout, 1, true);
    assert e.Wake(0) == start + 2 && e.Start(1) == e.Wake(0);
    assert e.Continues(0) && !e.Continues(1);
  }

  /** ...and as a passed deadline, before an attempt or in the wait, when the deadline came first. */
  lemma CancelledAfterDeadline(start: nat)
    ensures var e := Failing(start, start + 2, 2, 1, 3, true);
            StopsAt(e, 1) && e.ParentDone(StopTime(e, 1)) && Verdict(e, 1) == Ended(DeadlineExceeded)
    ensures var e := Failing(start, start + 2, 2, 1, 3, false);
            StopsAt(e, 0) && e.ParentDone(StopTime(e, 0)) && Verdict(e, 0) == RetryTimeout(DeadlineExceeded)
  {
    var e, f := Failing(start, start + 2, 2, 1, 3, true), Failing(start, start + 2, 2, 1, 3, false);
    assert e.Wake(0) == start + 4 && e.Start(1) == e.Wake(0);
    assert e.Continues(0) && !e.Continues(1);
    assert f.Wake(0) == start + 4 && !f.Continues(0);
  }
}
