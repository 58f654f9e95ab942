/** CPUTime and StartTime of internal/process/process.go, and the tick rate they share. */
module Times {
  import opened Outcomes
  import opened Text

  const SECOND: int := 1_000_000_000  // of a time.Duration, in nanoseconds

  /** Go's division truncates towards zero. */
  function Quotient(a: int, b: int): int
    requires b != 0
  {
    if a >= 0 then (if b > 0 then a / b else -(a / -b))
    else if b > 0 then -(-a / b) else -a / -b
  }

  /** time.Time.Sub returns the nearest duration when the difference does not fit. */
  function Duration(secs: int): (d: int)
    ensures INT64_MIN <= d <= INT64_MAX
  {
    if secs * SECOND > INT64_MAX then INT64_MAX
    else if secs * SECOND < INT64_MIN then INT64_MIN
    else secs * SECOND
  }

  function CpuSeconds(user: int, system: int, clockTicks: int): int
    requires clockTicks != 0
  {
    Wrap64(Quotient(Wrap64(user + system), clockTicks))
  }

  function CPUTime(utime: string, stime: string, clockTicks: Outcome<int>): Outcome<int> {
    var user :- ParseInt(utime);
    var system :- ParseInt(stime);
    var ticks :- clockTicks;
    if ticks == 0 then Panic else Ok(Duration(CpuSeconds(user, system, ticks)))  // integer divide by zero
  }

  /** Division truncates: what is left over is less than the divisor and has the sign of the dividend. */
  lemma QuotientTruncates(a: int, b: int)
    requires b != 0
    ensures var q := Quotient(a, b);
            && Abs(q) * Abs(b) <= Abs(a) < (Abs(q) + 1) * Abs(b)
            && (q != 0 ==> (q < 0 <==> (a < 0) != (b < 0)))
  {
    QuotientBounds(Abs(a), Abs(b));
    QuotientFits(Abs(a), Abs(b));
    assert Abs(Quotient(a, b)) == Abs(a) / Abs(b);
  }

  function Abs(n: int): nat {
    if n < 0 then -n else n
  }

  /** Seconds since the Epoch */
  function StartTime(starttime: string, clockTicks: Outcome<int>, bootTime: Outcome<int>): Outcome<int> {
    var sinceBoot :- ParseInt(starttime);
    var ticks :- clockTicks;
    var boot :- bootTime;
    if ticks == 0 then Panic else Ok(Wrap64(Wrap64(Quotient(sinceBoot, ticks)) + boot))
  }

  // ---------- counters as the kernel prints them ----------

  /** The user and system ticks of a process at one moment */
  datatype Counters = Counters(user: int, system: int)

  predicate Fits(c: Counters) {
    0 <= c.user && 0 <= c.system && c.user + c.system <= INT64_MAX
  }

  function TimeOf(c: Counters, ticks: int): Outcome<int> {
    CPUTime(SignedDecimal(c.user), SignedDecimal(c.system), Ok(ticks))
  }

  lemma QuotientBounds(n: int, d: int)
    requires 0 <= n && 0 < d
    ensures (n / d) * d <= n < (n / d + 1) * d
  {
    var q, r := n / d, n % d;
    assert n == d * q + r;
    assert (q + 1) * d == q * d + d;
  }

  lemma QuotientFits(n: int, d: int)
    requires 0 <= n && 0 < d
    ensures 0 <= n / d <= n
  {
    QuotientBounds(n, d);
    var q := n / d;
    if q < 0 {
      Monotone(q + 1, 0, d);
    } else {
      Monotone(1, d, q);
    }
  }

  /** The CPU time without machine arithmetic: the whole seconds in the sum of the counters. */
  function WholeSeconds(c: Counters, ticks: int): Outcome<int>
    requires 0 < ticks
  {
    Ok(Duration((c.user + c.system) / ticks))
  }

  /** On such counters nothing wraps. */
  lemma TimeOfCounters(c: Counters, ticks: int)
    requires Fits(c) && 0 < ticks
    ensures TimeOf(c, ticks) == WholeSeconds(c, ticks)
  {
    ParseIntOfDecimal(c.user);
    ParseIntOfDecimal(c.system);
    QuotientFits(c.user + c.system, ticks);
  }

  /** The same for every text of the two counters */
  lemma CPUTimeRead(utime: string, stime: string, c: Counters, ticks: int)
    requires Denotes(utime, c.user) && Denotes(stime, c.system) && Fits(c) && 0 < ticks
    ensures CPUTime(utime, stime, Ok(ticks)) == Ok(Duration((c.user + c.system) / ticks))
  {
    ParseIntExact(utime, c.user);
    ParseIntExact(stime, c.system);
    QuotientFits(c.user + c.system, ticks);
  }

  /** Counters that fit 64 bits and whose sum does not: the sum wraps around, and the time shown is not positive. */
  lemma OverflowingCounters(c: Counters, ticks: int)
    requires 0 <= c.user <= INT64_MAX && 0 <= c.system <= INT64_MAX && !Fits(c) && 0 < ticks
    ensures var missing := 0x1_0000_0000_0000_0000 - (c.user + c.system);
            missing > 0 && TimeOf(c, ticks) == Ok(Duration(-(missing / ticks))) && TimeOf(c, ticks).value <= 0
  {
    ParseIntOfDecimal(c.user);
    ParseIntOfDecimal(c.system);
    OverflowingSeconds(c.user, c.system, ticks, 0x1_0000_0000_0000_0000 - (c.user + c.system));
  }

  lemma OverflowingSeconds(user: int, system: int, ticks: int, missing: int)
    requires user + system == 0x1_0000_0000_0000_0000 - missing && 0 < missing <= 0x8000_0000_0000_0000 && 0 < ticks
    ensures CpuSeconds(user, system, ticks) == -(missing / ticks)
    ensures Duration(-(missing / ticks)) <= 0
  {
    QuotientFits(missing, ticks);
    assert Wrap64(user + system) == -missing;
    NegatedQuotient(missing, ticks);
  }

  lemma NegatedQuotient(missing: int, ticks: int)
    requires 0 < missing <= 0x8000_0000_0000_0000 && 0 < ticks && 0 <= missing / ticks <= missing
    ensures Wrap64(Quotient(-missing, ticks)) == -(missing / ticks)
    ensures Duration(-(missing / ticks)) <= 0
  {
  }

  /** Otherwise the failures come in the order of the reads: the counters, then the tick rate. */
  lemma CPUTimeFails(utime: string, stime: string, clockTicks: Outcome<int>)
    ensures !IsNumber(utime) || !IsNumber(stime) ==> CPUTime(utime, stime, clockTicks).Err?
    ensures IsNumber(utime) && IsNumber(stime) && !clockTicks.Ok? ==>
              CPUTime(utime, stime, clockTicks) == clockTicks.PropagateFailure()
  {
    ParseIntFails(utime);
    ParseIntFails(stime);
  }

  /** The duration is exact exactly up to 9223372036 seconds either way, and the largest or the smallest one beyond. */
  lemma DurationExact(secs: int)
    ensures Duration(secs) == secs * SECOND <==> -9_223_372_036 <= secs <= 9_223_372_036
    ensures secs > 9_223_372_036 ==> Duration(secs) == INT64_MAX
    ensures secs < -9_223_372_036 ==> Duration(secs) == INT64_MIN
  {
  }

  /** Against the exact quotient of ticks nothing is gained, and less than one second is lost exactly as long as the
      quotient is less than one second beyond the largest duration. */
  lemma LosesLessThanOneSecond(c: Counters, ticks: int)
    requires Fits(c) && 0 < ticks
    ensures var r, n := TimeOf(c, ticks), c.user + c.system;
            && r.Ok? && r.value * ticks <= n * SECOND
            && (n * SECOND < (r.value + SECOND) * ticks <==> n * SECOND < (INT64_MAX + SECOND) * ticks)
  {
    TimeOfCounters(c, ticks);
    SecondsLose(c.user + c.system, ticks, WholeSeconds(c, ticks).value);
  }

  lemma SecondsLose(n: int, ticks: int, time: int)
    requires 0 <= n && 0 < ticks && time == Duration(n / ticks)
    ensures time * ticks <= n * SECOND
    ensures n * SECOND < (time + SECOND) * ticks <==> n * SECOND < (INT64_MAX + SECOND) * ticks
  {
    QuotientBounds(n, ticks);
    QuotientFits(n, ticks);
    DurationLoses(n / ticks, ticks, n);
  }

  lemma DurationLoses(secs: int, ticks: int, n: int)
    requires 0 <= secs && 0 < ticks && secs * ticks <= n < (secs + 1) * ticks
    ensures Duration(secs) * ticks <= n * SECOND
    ensures n * SECOND < (Duration(secs) + SECOND) * ticks <==> n * SECOND < (INT64_MAX + SECOND) * ticks
  {
    Scale(secs, ticks, n);
    if secs * SECOND <= INT64_MAX {
      Monotone(secs * SECOND + SECOND, INT64_MAX + SECOND, ticks);
    } else {
      Monotone(INT64_MAX, secs * SECOND, ticks);
    }
  }

  /** Ten thousand million seconds of CPU time are reported as the largest duration, more than a second less. */
  lemma LosesMoreThanOneSecond()
    ensures var c, ticks := Counters(10_000_000_000, 0), 1;
            Fits(c) && TimeOf(c, ticks) == Ok(INT64_MAX) && (c.user + c.system) * SECOND > (INT64_MAX + SECOND) * ticks
  {
    TimeOfCounters(Counters(10_000_000_000, 0), 1);
  }

  lemma Monotone(a: int, b: int, d: int)
    requires a <= b && 0 <= d
    ensures a * d <= b * d
  {
  }

  lemma Scale(secs: int, ticks: int, n: int)
    requires secs * ticks <= n < (secs + 1) * ticks
    ensures (secs * SECOND) * ticks <= n * SECOND < (secs * SECOND + SECOND) * ticks
  {
    assert (secs * SECOND) * ticks == (secs * ticks) * SECOND;
    assert (secs * SECOND + SECOND) * ticks == ((secs + 1) * ticks) * SECOND;
  }

  lemma QuotientMonotone(a: int, b: int, d: int)
    requires 0 <= a <= b && 0 < d
    ensures a / d <= b / d
  {
    QuotientBounds(a, d);
    QuotientBounds(b, d);
    if a / d > b / d {
      Monotone(b / d + 1, a / d, d);
    }
  }

  /** A run of a process: its counters never fall. */
  predicate Growing(run: seq<Counters>) {
    && (forall i :: 0 <= i < |run| ==> Fits(run[i]))
    && (forall i :: 0 < i < |run| ==> run[i - 1].user <= run[i].user && run[i - 1].system <= run[i].system)
  }

  lemma {:induction false} CountersGrow(run: seq<Counters>, i: nat, j: nat)
    requires Growing(run) && i <= j < |run|
    ensures run[i].user <= run[j].user && run[i].system <= run[j].system
    decreases j
  {
    if i < j {
      CountersGrow(run, i, j - 1);
    }
  }

  lemma MoreCounters(a: Counters, b: Counters, ticks: int)
    requires Fits(a) && Fits(b) && a.user <= b.user && a.system <= b.system && 0 < ticks
    ensures WholeSeconds(a, ticks).value <= WholeSeconds(b, ticks).value
  {
    QuotientMonotone(a.user + a.system, b.user + b.system, ticks);
  }

  /** The reported CPU time of a process never falls. */
  lemma TimeNeverFalls(run: seq<Counters>, i: nat, j: nat, ticks: int)
    requires Growing(run) && i <= j < |run| && 0 < ticks
    ensures var a, b := TimeOf(run[i], ticks), TimeOf(run[j], ticks);
            a.Ok? && b.Ok? && a.value <= b.value
  {
    CountersGrow(run, i, j);
    MoreCounters(run[i], run[j], ticks);
    TimeOfCounters(run[i], ticks);
    TimeOfCounters(run[j], ticks);
  }

  /** Reporting summed counters instead of summing two reports gains at most one second. */
  lemma SummedCounters(a: Counters, b: Counters, ticks: int)
    requires Fits(a) && Fits(b) && Fits(Counters(a.user + b.user, a.system + b.system)) && 0 < ticks
    ensures var x, y := TimeOf(a, ticks), TimeOf(b, ticks);
            var z := TimeOf(Counters(a.user + b.user, a.system + b.system), ticks);
            x.Ok? && y.Ok? && z.Ok? && z.value <= x.value + y.value + SECOND
  {
    var c := Counters(a.user + b.user, a.system + b.system);
    SummedWithinSecond(a, b, c, ticks);
    TimeOfCounters(a, ticks);
    TimeOfCounters(b, ticks);
    TimeOfCounters(c, ticks);
  }

  lemma SummedWithinSecond(a: Counters, b: Counters, c: Counters, ticks: int)
    requires Fits(a) && Fits(b) && c == Counters(a.user + b.user, a.system + b.system) && 0 < ticks
    ensures WholeSeconds(c, ticks).value <= WholeSeconds(a, ticks).value + WholeSeconds(b, ticks).value + SECOND
  {
    var m, n := a.user + a.system, b.user + b.system;
    assert c.user + c.system == m + n;
    SummedQuotients(m, n, ticks);
    QuotientFits(m, ticks);
    QuotientFits(n, ticks);
    SummedDurations(m / ticks, n / ticks, (m + n) / ticks);
  }

  lemma SummedDurations(p: int, q: int, r: int)
    requires 0 <= p && 0 <= q && r <= p + q + 1
    ensures Duration(r) <= Duration(p) + Duration(q) + SECOND
  {
  }

  /** As long as the largest duration is not reached the summed counters also lose nothing, so that the two ways
      differ by nothing or by exactly one second. */
  lemma SummedCountersExact(a: Counters, b: Counters, ticks: int)
    requires Fits(a) && Fits(b) && Fits(Counters(a.user + b.user, a.system + b.system)) && 0 < ticks
    requires a.user + a.system + b.user + b.system < ticks * 9_223_372_037
    ensures var x, y := TimeOf(a, ticks), TimeOf(b, ticks);
            var z := TimeOf(Counters(a.user + b.user, a.system + b.system), ticks);
            x.Ok? && y.Ok? && z.Ok? && (z.value == x.value + y.value || z.value == x.value + y.value + SECOND)
  {
    var c := Counters(a.user + b.user, a.system + b.system);
    SummedSeconds(a, b, c, ticks);
    TimeOfCounters(a, ticks);
    TimeOfCounters(b, ticks);
    TimeOfCounters(c, ticks);
  }

  lemma SummedSeconds(a: Counters, b: Counters, c: Counters, ticks: int)
    requires Fits(a) && Fits(b) && c == Counters(a.user + b.user, a.system + b.system) && 0 < ticks
    requires c.user + c.system < ticks * 9_223_372_037
    ensures var x, y, z := WholeSeconds(a, ticks).value, WholeSeconds(b, ticks).value, WholeSeconds(c, ticks).value;
            z == x + y || z == x + y + SECOND
  {
    var m, n := a.user + a.system, b.user + b.system;
    assert c.user + c.system == m + n;
    SummedQuotients(m, n, ticks);
    QuotientBelow(m, ticks);
    QuotientBelow(n, ticks);
    QuotientBelow(m + n, ticks);
  }

  lemma QuotientBelow(n: int, ticks: int)
    requires 0 <= n < ticks * 9_223_372_037 && 0 < ticks
    ensures 0 <= n / ticks <= 9_223_372_036
  {
    QuotientBounds(n, ticks);
    QuotientFits(n, ticks);
    if n / ticks >= 9_223_372_037 {
      Monotone(9_223_372_037, n / ticks, ticks);
    }
  }

  lemma SummedQuotients(m: int, n: int, d: int)
    requires 0 <= m && 0 <= n && 0 < d
    ensures m / d + n / d <= (m + n) / d <= m / d + n / d + 1
  {
    QuotientBounds(m, d);
    QuotientBounds(n, d);
    QuotientBounds(m + n, d);
    Squeeze(m / d, n / d, (m + n) / d, m, n, d);
  }

  lemma Squeeze(p: int, q: int, r: int, m: int, n: int, d: int)
    requires 0 < d
    requires p * d <= m < (p + 1) * d && q * d <= n < (q + 1) * d && r * d <= m + n < (r + 1) * d
    ensures p + q <= r <= p + q + 1
  {
    assert (p + q) * d == p * d + q * d;
    assert (p + q + 2) * d == (p + 1) * d + (q + 1) * d;
    if r < p + q {
      Monotone(r + 1, p + q, d);
    }
    if r > p + q + 1 {
      Monotone(p + q + 2, r, d);
    }
  }

  // ---------- start times ----------

  /** A start time is the boot time and the whole seconds behind it, exactly as long as their sum fits 64 bits. */
  lemma StartTimeOfTicks(a: int, ticks: int, boot: int)
    requires 0 <= a <= INT64_MAX && 0 < ticks && 0 <= boot
    ensures StartTime(SignedDecimal(a), Ok(ticks), Ok(boot)) == Ok(a / ticks + boot) <==>
            a / ticks + boot <= INT64_MAX
    ensures boot <= INT64_MAX < a / ticks + boot ==>
              StartTime(SignedDecimal(a), Ok(ticks), Ok(boot)) == Ok(a / ticks + boot - 0x1_0000_0000_0000_0000)
  {
    ParseIntOfDecimal(a);
    QuotientFits(a, ticks);
  }

  /** The same for every text of the start time, and the failures in the order of the reads */
  lemma StartTimeRead(text: string, a: int, ticks: int, boot: int)
    requires Denotes(text, a) && 0 <= a <= INT64_MAX && 0 < ticks && 0 <= boot && a / ticks + boot <= INT64_MAX
    ensures StartTime(text, Ok(ticks), Ok(boot)) == Ok(a / ticks + boot)
  {
    ParseIntExact(text, a);
    QuotientFits(a, ticks);
  }

  lemma StartTimeFails(text: string, clockTicks: Outcome<int>, bootTime: Outcome<int>)
    ensures !IsNumber(text) ==> StartTime(text, clockTicks, bootTime).Err?
    ensures IsNumber(text) && !clockTicks.Ok? ==> StartTime(text, clockTicks, bootTime) == clockTicks.PropagateFailure()
    ensures IsNumber(text) && clockTicks.Ok? && !bootTime.Ok? ==>
              StartTime(text, clockTicks, bootTime) == bootTime.PropagateFailure()
  {
    ParseIntFails(text);
  }

  /** So a process that started later is never reported to have started earlier. */
  lemma StartTimesInOrder(a: int, b: int, ticks: int, boot: int)
    requires 0 <= a <= b <= INT64_MAX && 0 < ticks && 0 <= boot && boot + b / ticks <= INT64_MAX
    ensures var x := StartTime(SignedDecimal(a), Ok(ticks), Ok(boot));
            var y := StartTime(SignedDecimal(b), Ok(ticks), Ok(boot));
            && x.Ok? && y.Ok? && x.value <= y.value
            && (x.value - boot) * ticks <= a < (x.value - boot + 1) * ticks
  {
    QuotientMonotone(a, b, ticks);
    StartTimeOfTicks(a, ticks, boot);
    StartTimeOfTicks(b, ticks, boot);
    BehindBoot(a, ticks, boot, a / ticks + boot);
  }

  lemma BehindBoot(a: int, ticks: int, boot: int, start: int)
    requires 0 <= a && 0 < ticks && start == a / ticks + boot
    ensures (start - boot) * ticks <= a < (start - boot + 1) * ticks
  {
    QuotientBounds(a, ticks);
    assert start - boot == a / ticks;
  }
}
