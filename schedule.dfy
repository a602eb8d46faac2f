/** The extraction schedule: `seconds_until` and the pause decision of
    `SCU.wait_until_scheduled_time`. Times are seconds of the day on the
    schedule's wall clock; the current time is an input, in microseconds of
    the day, the resolution of `datetime.now`. */
module Schedule {

  import opened Outcomes
  import opened Text

  const Day := 24 * 3600

  const Micro := 1000000

  /** A moment of the day, in microseconds since midnight. */
  type Instant = n: int | 0 <= n < Day * Micro

  /** The moment rounded up to a whole second, as a second of the day
      (23:59:59.5 rounds up to midnight, second 0). */
  function CeilSecond(now: Instant): (c: int)
    ensures 0 <= c < Day
    ensures now <= c * Micro < now + Micro || (c == 0 && Day * Micro - Micro < now)
  {
    ((now + Micro - 1) / Micro) % Day
  }

  /** `HH:MM` parsed as `seconds_until` does: the hour and minute are the first
      two `:`-separated parts (further parts are ignored), each read with
      `int()`; a missing minute part raises IndexError, and `datetime.replace`
      rejects an hour above 23 or a minute above 59 with ValueError. */
  function ParseTime(s: string): (r: Result<int>)
    ensures r.Ok? ==> 0 <= r.value < Day && r.value % 60 == 0
    ensures r.Ok? <==> (
      && |Split(s, ':')| >= 2
      && ParseDecimal(Split(s, ':')[0]).Ok? && ParseDecimal(Split(s, ':')[0]).value < 24
      && ParseDecimal(Split(s, ':')[1]).Ok? && ParseDecimal(Split(s, ':')[1]).value < 60)
    ensures r.Ok? ==> r.value == 3600 * ParseDecimal(Split(s, ':')[0]).value + 60 * ParseDecimal(Split(s, ':')[1]).value
    ensures |Split(s, ':')| < 2 && ParseDecimal(Split(s, ':')[0]).Ok? ==> r == Err(IndexError)
  {
    var parts := Split(s, ':');
    var h :- ParseDecimal(parts[0]);
    if |parts| < 2 then Err(IndexError)
    else
      var m :- ParseDecimal(parts[1]);
      if h > 23 || m > 59 then Err(ValueError)
      else Ok(h * 3600 + m * 60)
  }

  /** `seconds_until(time_str)` at moment `now`: one day minus the time since
      today's target, as a float number of seconds, modulo a day (Python's `%`,
      never negative here), truncated by `int()`. The float is exact to well
      under a microsecond, so truncating it is integer division. */
  function SecondsUntil(timeStr: string, now: Instant): (r: Result<int>)
    ensures r.Ok? <==> ParseTime(timeStr).Ok?
    ensures r.Ok? ==> 0 <= r.value < Day
    ensures r.Ok? ==> r.value == (ParseTime(timeStr).value - CeilSecond(now)) % Day
    ensures r.Ok? ==> (CeilSecond(now) + r.value) % Day == ParseTime(timeStr).value
    ensures r.Ok? ==> (r.value == 0 <==> CeilSecond(now) == ParseTime(timeStr).value)
  {
    var target :- ParseTime(timeStr);
    UntilRoundsUp(target, now);
    Distance(target, CeilSecond(now));
    Ok(((Day * Micro - (now - target * Micro)) % (Day * Micro)) / Micro)
  }

  /** The forward distance on the clock from `c` to `t`. */
  lemma Distance(t: int, c: int)
    requires 0 <= t < Day && 0 <= c < Day
    ensures (c + (t - c) % Day) % Day == t
    ensures (t - c) % Day == 0 <==> c == t
  {
    if c <= t {
      assert (t - c) % Day == t - c;
    } else {
      assert (t - c) % Day == t - c + Day;
    }
  }

  /** The truncated remainder counts whole seconds from the moment rounded up:
      a fraction of a second past `now` costs the target a whole second. */
  lemma UntilRoundsUp(target: int, now: Instant)
    requires 0 <= target < Day
    ensures ((Day * Micro - (now - target * Micro)) % (Day * Micro)) / Micro == (target - CeilSecond(now)) % Day
  {
    var n, f := now / Micro, now % Micro;
    var c := if f == 0 then n else n + 1;
    var g := if f == 0 then 0 else Micro - f;
    Rounded(now);
    var k := Day + target - c;
    assert Day * Micro - (now - target * Micro) == k * Micro + g by {
      assert now == n * Micro + f;
      assert Day * Micro - (now - target * Micro) == (Day + target - n) * Micro - f;
    }
    WholeAndFraction(k, g);
    if c < Day {
      assert CeilSecond(now) == c;
      ShiftMod(target - c);
    } else {
      assert CeilSecond(now) == 0 && k == target;
    }
  }

  /** A moment is its rounded-up second less a fraction of a second. */
  lemma Rounded(now: Instant)
    ensures var n, f := now / Micro, now % Micro;
      && now == n * Micro + f && 0 <= n < Day
      && CeilSecond(now) == (if f == 0 then n else n + 1) % Day
  {
  }

  lemma ShiftMod(x: int)
    requires -Day < x < Day
    ensures (Day + x) % Day == x % Day
  {
    if x < 0 {
      assert x % Day == Day + x;
    } else {
      assert (Day + x) % Day == x;
    }
  }

  /** `k` whole seconds and a fraction, modulo a day and truncated, are `k` modulo a day. */
  lemma WholeAndFraction(k: int, g: int)
    requires 0 <= k < 2 * Day && 0 <= g < Micro
    ensures ((k * Micro + g) % (Day * Micro)) / Micro == k % Day
  {
    if k < Day {
      assert (k * Micro + g) % (Day * Micro) == k * Micro + g;
    } else {
      assert (k * Micro + g) % (Day * Micro) == (k - Day) * Micro + g;
    }
  }

  /** The `schedule` section of the configuration. */
  datatype Window = Window(enabled: bool, startTime: string, endTime: string, timezone: string)

  /** What `wait_until_scheduled_time` does before a request. */
  datatype Gate = Proceed | Sleep(seconds: int)

  /** Pause when the end of the window comes later than its start, counting
      forward from `now`; the pause lasts until the start. */
  function WaitDecision(schedule: Option<Window>, now: Instant): (g: Result<Gate>)
    ensures schedule.None? || !schedule.value.enabled ==> g == Ok(Proceed)
  {
    match schedule
    case None => Ok(Proceed)
    case Some(w) =>
      if !w.enabled then Ok(Proceed)
      else
        var untilStart :- SecondsUntil(w.startTime, now);
        var untilEnd :- SecondsUntil(w.endTime, now);
        if untilEnd > untilStart then Ok(Sleep(untilStart)) else Ok(Proceed)
  }

  /** Whether `now` lies in the window that runs from start to end on the
      clock: after the start, up to and including the end, wrapping past
      midnight when the end comes before the start; the whole day when they
      coincide. */
  predicate Active(start: int, end: int, now: int)
  {
    if start < end then start < now <= end
    else if end < start then now <= end || start < now
    else true
  }

  /** With valid times the worker sleeps exactly when the current second,
      rounded up, is outside the window, and the sleep takes it to the start
      time. A window whose start and end coincide never pauses. */
  lemma {:induction false} GateCharacterised(w: Window, now: Instant)
    requires w.enabled
    requires ParseTime(w.startTime).Ok? && ParseTime(w.endTime).Ok?
    ensures var s, e, c := ParseTime(w.startTime).value, ParseTime(w.endTime).value, CeilSecond(now);
      && WaitDecision(Some(w), now).Ok?
      && (WaitDecision(Some(w), now).value.Sleep? <==> !Active(s, e, c))
      && (WaitDecision(Some(w), now).value.Sleep? ==> (c + WaitDecision(Some(w), now).value.seconds) % Day == s)
  {
    var s, e, c := ParseTime(w.startTime).value, ParseTime(w.endTime).value, CeilSecond(now);
    var us, ue := SecondsUntil(w.startTime, now).value, SecondsUntil(w.endTime, now).value;
    UntilIs(s, c, us);
    UntilIs(e, c, ue);
  }

  /** The time until `t` in closed form. */
  lemma UntilIs(t: int, now: int, u: int)
    requires 0 <= t < Day && 0 <= now < Day && 0 <= u < Day && (now + u) % Day == t
    ensures u == if now <= t then t - now else t - now + Day
  {
    if now + u >= Day {
      assert (now + u) % Day == now + u - Day;
    }
  }
}
