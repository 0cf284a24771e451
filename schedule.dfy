/**
 * The pure arithmetic of one delivery cycle of the digest mailer: the
 * `timedelta.seconds` component, the hour threshold that gates which settings
 * are due, the interval -> label lookup, and the sleep computed after a cycle.
 *
 * Timestamps are integers counting microseconds, the resolution of the
 * clock readings the loop takes.
 */
module Schedule {
  import opened Wrappers

  const MICROS_PER_SECOND: int := 1_000_000
  const SECONDS_PER_DAY: int := 86400
  const SECONDS_PER_HOUR: int := 3600

  /** One row of the settings table: the user it belongs to and the digest interval. */
  datatype Setting = Setting(user: int, interval: int)

  /**
   * The `seconds` attribute of the time difference `delta` (in microseconds).
   * A time difference is normalised into whole days, a seconds part in
   * 0..86399 and a microseconds part; only the middle part is returned, so
   * whole days are dropped (for negative differences too).
   */
  function Seconds(delta: int): (s: int)
    ensures 0 <= s < SECONDS_PER_DAY
    ensures 0 <= delta < SECONDS_PER_DAY * MICROS_PER_SECOND ==> s == delta / MICROS_PER_SECOND
  {
    (delta / MICROS_PER_SECOND) % SECONDS_PER_DAY
  }

  /** Adding whole days to a time difference does not change its seconds component. */
  lemma SecondsIgnoresWholeDays(delta: int, days: int)
    ensures Seconds(delta + days * SECONDS_PER_DAY * MICROS_PER_SECOND) == Seconds(delta)
  {
    var q, r := delta / MICROS_PER_SECOND, delta % MICROS_PER_SECOND;
    var shifted := delta + days * SECONDS_PER_DAY * MICROS_PER_SECOND;
    assert shifted == (q + days * SECONDS_PER_DAY) * MICROS_PER_SECOND + r;
    assert shifted / MICROS_PER_SECOND == q + days * SECONDS_PER_DAY;
    assert (q + days * SECONDS_PER_DAY) % SECONDS_PER_DAY == q % SECONDS_PER_DAY;
  }

  /**
   * The gate of a later cycle: `(delta.seconds // 60) // 60`, the number of
   * whole hours in the seconds component of the time since the last cycle.
   */
  function Threshold(delta: int): (t: int)
    ensures 0 <= t < 24
    ensures t * SECONDS_PER_HOUR <= Seconds(delta) < (t + 1) * SECONDS_PER_HOUR
  {
    (Seconds(delta) / 60) / 60
  }

  /**
   * Whether a setting is selected for this cycle. On the first cycle there
   * is no previous timestamp and every setting is selected; afterwards the
   * setting's interval must not exceed the hour threshold.
   */
  predicate Eligible(lastSent: Option<int>, startedAt: int, setting: Setting)
    ensures lastSent.None? ==> Eligible(lastSent, startedAt, setting)
    ensures lastSent.Some? && setting.interval <= 0 ==> Eligible(lastSent, startedAt, setting)
    ensures lastSent.Some? && Eligible(lastSent, startedAt, setting) ==> setting.interval < 24
  {
    match lastSent
    case None => true
    case Some(t0) => setting.interval <= Threshold(startedAt - t0)
  }

  /** Within one day of the previous cycle, a setting is due iff its interval, read as hours, has fully elapsed. */
  lemma EligibleWithinADay(t0: int, t1: int, setting: Setting)
    requires 0 <= t1 - t0 < SECONDS_PER_DAY * MICROS_PER_SECOND
    ensures Eligible(Some(t0), t1, setting) <==>
            setting.interval * SECONDS_PER_HOUR * MICROS_PER_SECOND <= t1 - t0
  {
    var t := Threshold(t1 - t0);
    var s := Seconds(t1 - t0);
    assert s * MICROS_PER_SECOND <= t1 - t0 < (s + 1) * MICROS_PER_SECOND;
    if setting.interval <= t {
      assert setting.interval * SECONDS_PER_HOUR <= s;
      if setting.interval > 0 {
        assert setting.interval * SECONDS_PER_HOUR * MICROS_PER_SECOND <= s * MICROS_PER_SECOND;
      }
    } else {
      assert (t + 1) * SECONDS_PER_HOUR <= setting.interval * SECONDS_PER_HOUR;
      assert s + 1 <= setting.interval * SECONDS_PER_HOUR;
      assert (s + 1) * MICROS_PER_SECOND <= setting.interval * SECONDS_PER_HOUR * MICROS_PER_SECOND;
    }
  }

  /**
   * Because the threshold never exceeds 23, a setting whose interval is 24
   * or more is selected on the first cycle and on no later one, however much
   * time has passed.
   */
  lemma LongIntervalOnlyOnFirstCycle(t0: int, t1: int, setting: Setting)
    requires setting.interval >= 24
    ensures Eligible(None, t1, setting)
    ensures !Eligible(Some(t0), t1, setting)
  {
  }

  /**
   * Position of the first pair of `intervals` whose first component is
   * `interval` (the `index` of the interval in the list of first components).
   */
  function IntervalIndex(intervals: seq<(int, string)>, interval: int): (r: Option<nat>)
    ensures r.Some? ==> r.value < |intervals| && intervals[r.value].0 == interval
    ensures r.Some? ==> forall j :: 0 <= j < r.value ==> intervals[j].0 != interval
    ensures r.None? ==> forall j :: 0 <= j < |intervals| ==> intervals[j].0 != interval
  {
    if |intervals| == 0 then None
    else if intervals[0].0 == interval then Some(0)
    else match IntervalIndex(intervals[1..], interval)
      case None => None
      case Some(i) => Some(i + 1)
  }

  /**
   * The human-readable label of a digest: the second component of the first
   * pair whose first component equals the interval, or None where the lookup
   * raises because no pair matches.
   */
  function DigestLabel(intervals: seq<(int, string)>, interval: int): (r: Option<string>)
    ensures r.None? <==> forall j :: 0 <= j < |intervals| ==> intervals[j].0 != interval
    ensures r.Some? ==> exists j :: 0 <= j < |intervals| && intervals[j] == (interval, r.value) &&
                                    forall i :: 0 <= i < j ==> intervals[i].0 != interval
  {
    match IntervalIndex(intervals, interval)
    case None => None
    case Some(i) => Some(intervals[i].1)
  }

  /**
   * `min(INTERVALS)[0]`: the least first component. Tuples compare by
   * their first component first, so the smallest pair carries the smallest interval.
   */
  function MinInterval(intervals: seq<(int, string)>): (m: int)
    requires |intervals| > 0
    ensures exists j :: 0 <= j < |intervals| && intervals[j].0 == m
    ensures forall j :: 0 <= j < |intervals| ==> m <= intervals[j].0
  {
    if |intervals| == 1 then intervals[0].0
    else
      var rest := MinInterval(intervals[1..]);
      if intervals[0].0 <= rest then intervals[0].0 else rest
  }

  /**
   * The pause after a cycle: the largest of `(minInterval - elapsed) * 60`,
   * the configured idle floor and zero.
   */
  function SleepTime(minInterval: int, elapsed: int, idleFloor: int): (r: int)
    ensures r >= 0 && r >= idleFloor && r >= (minInterval - elapsed) * 60
    ensures r == 0 || r == idleFloor || r == (minInterval - elapsed) * 60
  {
    var a := (minInterval - elapsed) * 60;
    var b := if a >= idleFloor then a else idleFloor;
    if b >= 0 then b else 0
  }
}
