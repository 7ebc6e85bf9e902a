/** How a duration is printed in a notification (internal/notification/discord.go). */
module Durations {
  import opened Wrappers
  import opened Nanoseconds
  import opened Text

  const MAX_DURATION: int := 0x7FFF_FFFF_FFFF_FFFF

  /** Go's Duration: a signed 64-bit number of nanoseconds. */
  newtype Duration = d: int | -0x8000_0000_0000_0000 <= d <= 0x7FFF_FFFF_FFFF_FFFF

  /** Duration.Round(time.Second) for a non-negative duration: half rounds up, and a
      result beyond the largest Duration becomes the largest Duration. */
  function RoundToSecond(d: Duration): (r: Duration)
    requires 0 <= d
    ensures 0 <= r
  {
    var rest := d as int % SECOND;
    if rest + rest < SECOND then (d as int - rest) as Duration
    else if d as int + (SECOND - rest) <= MAX_DURATION then (d as int + (SECOND - rest)) as Duration
    else MAX_DURATION as Duration
  }

  /** The whole second nearest to d, half rounding up, without any overflow. */
  function NearestSecond(d: Duration): (s: nat)
    requires 0 <= d
    ensures -SECOND < 2 * (s * SECOND - d as int) <= SECOND
  {
    (2 * d as int + SECOND) / (2 * SECOND)
  }

  function ClockText(seconds: nat): string {
    var h, m, s := seconds / 3600, seconds % 3600 / 60, seconds % 60;
    if h > 0 then Decimal(h) + "h" + Decimal(m) + "m" + Decimal(s) + "s"
    else if m > 0 then Decimal(m) + "m" + Decimal(s) + "s"
    else Decimal(s) + "s"
  }

  function DurationText(d: Duration): string {
    if d as int < SECOND then "<1s" else ClockText(RoundToSecond(d) as int / SECOND)
  }

  // ----- reading the text back

  function UnitSeconds(c: char): Option<nat> {
    match c
    case 'h' => Some(3600)
    case 'm' => Some(60)
    case 's' => Some(1)
    case _ => None
  }

  /** Where a part may stand: hours first, then minutes, then seconds, none left out in
      between, minutes and seconds below 60, and no hours or minutes of 0 in front. `above` is
      the unit of the part before, or 0. */
  predicate PartFits(amount: nat, unit: nat, above: nat) {
    && (unit == 3600 || amount < 60)
    && (above == 0 || above == 60 * unit)
    && (above == 0 && unit != 1 ==> amount > 0)
  }

  function After(seconds: nat, rest: Option<nat>): Option<nat> {
    match rest
    case Some(more) => Some(seconds + more)
    case None => None
  }

  /** Reads hours, minutes and seconds, each a number followed by its unit, down to the
      seconds, and adds them up. `pending` holds the digits of the number being read, if any. */
  function ReadClock(t: string, pending: Option<nat>, above: nat): Option<nat>
    decreases |t|
  {
    if t == [] then if pending.None? && above == 1 then Some(0) else None
    else if IsDigit(t[0]) then
      var soFar := if pending.Some? then pending.value else 0;
      ReadClock(t[1..], Some(10 * soFar + DigitValue(t[0])), above)
    else if pending.Some? && UnitSeconds(t[0]).Some? && PartFits(pending.value, UnitSeconds(t[0]).value, above) then
      After(pending.value * UnitSeconds(t[0]).value, ReadClock(t[1..], None, UnitSeconds(t[0]).value))
    else None
  }

  lemma {:induction false} ReadClockDigits(ds: string, rest: string, soFar: nat, above: nat)
    requires AllDigits(ds)
    ensures ReadClock(ds + rest, Some(soFar), above) == ReadClock(rest, Some(ReadDigits(soFar, ds)), above)
    decreases |ds|
  {
    if ds == [] {
      assert ds + rest == rest;
    } else {
      ReadClockDigits(ds[1..], rest, 10 * soFar + DigitValue(ds[0]), above);
      assert (ds + rest)[1..] == ds[1..] + rest;
    }
  }

  /** A part in its place is read and the rest follows; one out of place is rejected. */
  lemma ReadClockPart(n: nat, unit: char, rest: string, above: nat)
    requires UnitSeconds(unit).Some?
    ensures ReadClock(Decimal(n) + [unit] + rest, None, above) ==
            if PartFits(n, UnitSeconds(unit).value, above)
            then After(n * UnitSeconds(unit).value, ReadClock(rest, None, UnitSeconds(unit).value)) else None
  {
    DecimalReadsBack(n);
    var ds, tail := Decimal(n), [unit] + rest;
    assert Decimal(n) + [unit] + rest == ds + tail;
    assert ReadClock(ds + tail, None, above) == ReadClock(ds + tail, Some(0), above);
    ReadClockDigits(ds, tail, 0, above);
    assert tail[1..] == rest;
  }

  lemma SecondsReadBack(s: nat, above: nat)
    requires s < 60 && (above == 0 || above == 60)
    ensures ReadClock(Decimal(s) + "s", None, above) == Some(s)
  {
    ReadClockPart(s, 's', "", above);
    assert Decimal(s) + "s" + "" == Decimal(s) + "s";
  }

  lemma MinutesReadBack(m: nat, s: nat, above: nat)
    requires m < 60 && s < 60 && if above == 0 then m > 0 else above == 3600
    ensures ReadClock(Decimal(m) + "m" + (Decimal(s) + "s"), None, above) == Some(60 * m + s)
  {
    SecondsReadBack(s, 60);
    ReadClockPart(m, 'm', Decimal(s) + "s", above);
  }

  lemma Grouped(h: string, m: string, s: string)
    ensures m + "m" + s + "s" == m + "m" + (s + "s")
    ensures h + "h" + m + "m" + s + "s" == h + "h" + (m + "m" + (s + "s"))
  {
  }

  /** The text is read back as the number of seconds, by a reader that accepts neither
      minutes nor seconds of 60 or more, nor units out of order, nor a leading zero part. */
  lemma ClockReadsBack(seconds: nat)
    ensures ReadClock(ClockText(seconds), None, 0) == Some(seconds)
  {
    var h, m, s := seconds / 3600, seconds % 3600 / 60, seconds % 60;
    assert 3600 * h + 60 * m + s == seconds;
    Grouped(Decimal(h), Decimal(m), Decimal(s));
    if h > 0 {
      var mt := Decimal(m) + "m" + (Decimal(s) + "s");
      MinutesReadBack(m, s, 3600);
      ReadClockPart(h, 'h', mt, 0);
    } else if m > 0 {
      MinutesReadBack(m, s, 0);
    } else {
      SecondsReadBack(s, 0);
    }
  }

  /** From here on, rounding up to a whole second would exceed the largest Duration. */
  const ROUNDING_OVERFLOWS: int := MAX_DURATION / SECOND * SECOND + SECOND / 2

  lemma RoundingIsNearest(d: Duration)
    requires 0 <= d
    ensures RoundToSecond(d) as int / SECOND == NearestSecond(d) - if d as int < ROUNDING_OVERFLOWS then 0 else 1
  {
    var q, r := d as int / SECOND, d as int % SECOND;
    assert d as int == q * SECOND + r;
    if r + r < SECOND {
      assert RoundToSecond(d) as int == q * SECOND;
    } else if d as int + (SECOND - r) <= MAX_DURATION {
      assert RoundToSecond(d) as int == (q + 1) * SECOND;
    }
  }

  /** Read back, the printed text is the nearest whole second for every duration from one
      second up, except exactly where rounding overflows the 64-bit range: there the
      printed value is one second short. */
  lemma DurationReadsBackNearest(d: Duration)
    requires d as int >= SECOND
    ensures ReadClock(DurationText(d), None, 0) == Some(NearestSecond(d)) <==> d as int < ROUNDING_OVERFLOWS
    ensures d as int >= ROUNDING_OVERFLOWS ==> ReadClock(DurationText(d), None, 0) == Some(NearestSecond(d) - 1)
  {
    ClockReadsBack(RoundToSecond(d) as int / SECOND);
    RoundingIsNearest(d);
  }

  /** The overflow is reached: the longest duration is printed one second short. */
  lemma LongestIsShort()
    ensures ReadClock(DurationText(MAX_DURATION as Duration), None, 0) ==
            Some(NearestSecond(MAX_DURATION as Duration) - 1)
  {
    assert MAX_DURATION >= ROUNDING_OVERFLOWS;
    DurationReadsBackNearest(MAX_DURATION as Duration);
  }

  /** Durations whose rounded values differ print differently; below a second, nothing
      readable is printed. */
  lemma DurationTextDistinct(a: Duration, b: Duration)
    ensures a as int >= SECOND && b as int >= SECOND ==>
      (DurationText(a) == DurationText(b) <==> RoundToSecond(a) as int / SECOND == RoundToSecond(b) as int / SECOND)
    ensures ReadClock(DurationText(a), None, 0).None? <==> a as int < SECOND
    ensures DurationText(a) == "<1s" <==> a as int < SECOND
  {
    if a as int >= SECOND {
      ClockReadsBack(RoundToSecond(a) as int / SECOND);
    }
    if b as int >= SECOND {
      ClockReadsBack(RoundToSecond(b) as int / SECOND);
    }
  }

  lemma SmallPowers()
    ensures Pow10(2) == 100 && Pow10(7) == 10_000_000 && Pow10(10) == 10_000_000_000
            && Pow10(19) == 10_000_000_000_000_000_000
  {
    assert Pow10(4) == 10_000;
    assert Pow10(7) == 10_000_000;
    assert Pow10(10) == 10_000_000_000;
    assert Pow10(13) == 10_000_000_000_000;
    assert Pow10(16) == 10_000_000_000_000_000;
  }

  lemma DurationTextLength(d: Duration)
    ensures 0 < |DurationText(d)| <= 14
  {
    if d as int >= SECOND {
      var seconds := RoundToSecond(d) as int / SECOND;
      var h, m, s := seconds / 3600, seconds % 3600 / 60, seconds % 60;
      SmallPowers();
      DecimalLength(h, 7);
      DecimalLength(m, 2);
      DecimalLength(s, 2);
    }
  }
}
