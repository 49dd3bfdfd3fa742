/** Per-key request counting over the shared memory cache: a per-minute and a
    per-day counter for every key, each stored with an absolute expiry. */
module RateLimiting {
  import opened Common
  import R = Results

  /** A cached int: the count and the absolute time the entry expires. */
  datatype Counter = Counter(count: int, expiresAt: DateTime)

  type Counters = map<string, Counter>

  function MinuteKey(id: Guid): string {
    "rate:" + GuidText(id) + ":minute"
  }

  function DayKey(id: Guid): string {
    "rate:" + GuidText(id) + ":day"
  }

  /** The two counters of one key never share an entry, and keys of distinct
      API keys never collide. */
  lemma KeysDistinct(a: Guid, b: Guid)
    ensures MinuteKey(a) != DayKey(b)
    ensures MinuteKey(a) == MinuteKey(b) ==> a == b
    ensures DayKey(a) == DayKey(b) ==> a == b
  {
    if MinuteKey(a) == MinuteKey(b) {
      assert GuidText(a) == MinuteKey(a)[5..41] && GuidText(b) == MinuteKey(b)[5..41];
      GuidTextInjective(a, b);
    }
    if DayKey(a) == DayKey(b) {
      assert GuidText(a) == DayKey(a)[5..41] && GuidText(b) == DayKey(b)[5..41];
      GuidTextInjective(a, b);
    }
  }

  /** Get<int>(key): a missing or expired entry reads as 0. */
  function CountAt(counters: Counters, key: string, now: DateTime): int {
    if key in counters && now < counters[key].expiresAt then counters[key].count else 0
  }

  const PerMinuteExceeded := "Rate limit exceeded: too many requests per minute"
  const PerDayExceeded := "Rate limit exceeded: too many requests per day"

  /** CheckRateLimitAsync: the minute window is tested before the day window. */
  function CheckRateLimit(counters: Counters, id: Guid, perMinute: int, perDay: int, now: DateTime): (r: R.Result<bool>)
    ensures r.isSuccess <==> CountAt(counters, MinuteKey(id), now) < perMinute && CountAt(counters, DayKey(id), now) < perDay
    ensures CountAt(counters, MinuteKey(id), now) >= perMinute ==> r == R.Fail(PerMinuteExceeded)
    ensures CountAt(counters, MinuteKey(id), now) < perMinute && CountAt(counters, DayKey(id), now) >= perDay ==>
      r == R.Fail(PerDayExceeded)
    ensures r.isSuccess ==> r == R.Success(true, R.OkStatus)
  {
    var minuteCount := CountAt(counters, MinuteKey(id), now);
    var dayCount := CountAt(counters, DayKey(id), now);
    if minuteCount >= perMinute then R.Fail(PerMinuteExceeded)
    else if dayCount >= perDay then R.Fail(PerDayExceeded)
    else R.Success(true, R.OkStatus)
  }

  /** IncrementUsageAsync: both counters of the key go up by one and are
      re-stored with a fresh expiry; every other entry is left as it was. */
  function Incremented(counters: Counters, id: Guid, now: DateTime): (c: Counters)
    ensures MinuteKey(id) in c && c[MinuteKey(id)] == Counter(CountAt(counters, MinuteKey(id), now) + 1, now + TicksPerMinute)
    ensures DayKey(id) in c && c[DayKey(id)] == Counter(CountAt(counters, DayKey(id), now) + 1, now + TicksPerDay)
    ensures forall k | k != MinuteKey(id) && k != DayKey(id) :: (k in c <==> k in counters) && (k in c ==> c[k] == counters[k])
  {
    KeysDistinct(id, id);
    var afterMinute := counters[MinuteKey(id) := Counter(CountAt(counters, MinuteKey(id), now) + 1, now + TicksPerMinute)];
    afterMinute[DayKey(id) := Counter(CountAt(afterMinute, DayKey(id), now) + 1, now + TicksPerDay)]
  }

  /** GetRemainingLimitsAsync: Math.Max(0, limit - count) for each window. */
  function RemainingLimits(counters: Counters, id: Guid, perMinute: int, perDay: int, now: DateTime): (r: (int, int))
    ensures r.0 >= 0 && r.1 >= 0
    ensures r.0 == Max(0, perMinute - CountAt(counters, MinuteKey(id), now))
    ensures r.1 == Max(0, perDay - CountAt(counters, DayKey(id), now))
  {
    (Max(0, perMinute - CountAt(counters, MinuteKey(id), now)), Max(0, perDay - CountAt(counters, DayKey(id), now)))
  }

  /** CheckRateLimit admits a request exactly when both remaining quotas are positive. */
  lemma CheckAgreesWithRemaining(counters: Counters, id: Guid, perMinute: int, perDay: int, now: DateTime)
    ensures CheckRateLimit(counters, id, perMinute, perDay, now).isSuccess <==>
      RemainingLimits(counters, id, perMinute, perDay, now).0 > 0 && RemainingLimits(counters, id, perMinute, perDay, now).1 > 0
  {
  }

  /** Counting one key's request changes no count of another key. */
  lemma IncrementIsolated(counters: Counters, id: Guid, other: Guid, now: DateTime, later: DateTime)
    requires other != id
    ensures CountAt(Incremented(counters, id, now), MinuteKey(other), later) == CountAt(counters, MinuteKey(other), later)
    ensures CountAt(Incremented(counters, id, now), DayKey(other), later) == CountAt(counters, DayKey(other), later)
  {
    KeysDistinct(other, id);
    KeysDistinct(id, other);
  }

  /** A minute after a key's last counted request its minute count is back to
      0, while the day count survives until a day after that request. */
  lemma MinuteWindowResets(counters: Counters, id: Guid, now: DateTime, later: DateTime)
    requires now + TicksPerMinute <= later < now + TicksPerDay
    ensures CountAt(Incremented(counters, id, now), MinuteKey(id), later) == 0
    ensures CountAt(Incremented(counters, id, now), DayKey(id), later) == CountAt(counters, DayKey(id), now) + 1
  {
  }

  /** Every counted request pushes the expiry forward: a request 50 seconds
      after another still sees the earlier one counted, and so on, so requests
      less than a minute apart keep accumulating in the minute counter. */
  lemma ExpiryExtendsOnEveryHit(counters: Counters, id: Guid, t: DateTime)
    requires CountAt(counters, MinuteKey(id), t) == 0
    ensures var second := t + 500_000_000;
            var third := second + 500_000_000;
            var c2 := Incremented(Incremented(counters, id, t), id, second);
            CountAt(c2, MinuteKey(id), third) == 2 && third >= t + TicksPerMinute
  {
  }

  /** The admission decisions of successive check-then-increment rounds at the
      given times: a rejected round increments nothing. */
  function Rounds(counters: Counters, id: Guid, perMinute: int, perDay: int, times: seq<DateTime>): (r: seq<bool>)
    ensures |r| == |times|
    decreases |times|
  {
    if |times| == 0 then []
    else
      var ok := CheckRateLimit(counters, id, perMinute, perDay, times[0]).isSuccess;
      [ok] + Rounds(if ok then Incremented(counters, id, times[0]) else counters, id, perMinute, perDay, times[1..])
  }

  /** Times that never go backwards and are less than a minute apart. */
  predicate Burst(times: seq<DateTime>) {
    forall i | 0 < i < |times| :: times[i - 1] <= times[i] < times[i - 1] + TicksPerMinute
  }

  lemma {:induction false} RoundsFrom(counters: Counters, id: Guid, perMinute: int, perDay: int, times: seq<DateTime>,
                                      a: int, b: int)
    requires |times| > 0 && Burst(times)
    requires CountAt(counters, MinuteKey(id), times[0]) == a && CountAt(counters, DayKey(id), times[0]) == b
    ensures forall i | 0 <= i < |times| && i <= Min(perMinute - a, perDay - b) ::
      Rounds(counters, id, perMinute, perDay, times)[i] <==> i < Min(perMinute - a, perDay - b)
    decreases |times|
  {
    var rounds := Rounds(counters, id, perMinute, perDay, times);
    var ok := CheckRateLimit(counters, id, perMinute, perDay, times[0]).isSuccess;
    if ok && |times| > 1 {
      var next := Incremented(counters, id, times[0]);
      KeysDistinct(id, id);
      assert CountAt(next, MinuteKey(id), times[1]) == a + 1;
      assert CountAt(next, DayKey(id), times[1]) == b + 1;
      assert Burst(times[1..]) by {
        forall i | 0 < i < |times[1..]|
          ensures times[1..][i - 1] <= times[1..][i] < times[1..][i - 1] + TicksPerMinute
        {
          assert times[1..][i - 1] == times[i] && times[1..][i] == times[i + 1];
        }
      }
      RoundsFrom(next, id, perMinute, perDay, times[1..], a + 1, b + 1);
      assert rounds[1..] == Rounds(next, id, perMinute, perDay, times[1..]);
    }
  }

  /** With counters that read 0, a burst of requests has exactly
      min(perMinute, perDay) admitted before the first rejection. */
  lemma ExactlyLimitAdmitted(counters: Counters, id: Guid, perMinute: int, perDay: int, times: seq<DateTime>)
    requires |times| > 0 && Burst(times)
    requires CountAt(counters, MinuteKey(id), times[0]) == 0 && CountAt(counters, DayKey(id), times[0]) == 0
    ensures forall i | 0 <= i < |times| && i <= Min(perMinute, perDay) ::
      Rounds(counters, id, perMinute, perDay, times)[i] <==> i < Min(perMinute, perDay)
  {
    RoundsFrom(counters, id, perMinute, perDay, times, 0, 0);
  }

  /** Two requests for one key handled at the same time. The middleware checks
      and then increments as separate store operations, and each increment is
      a Get followed by a Set, so both requests may read the counters before
      either writes. Both then store the same count, one more than they read.
      Gives how many of the two are admitted and the counters they leave. */
  function Overlapped(counters: Counters, id: Guid, perMinute: int, perDay: int, now: DateTime): (int, Counters) {
    if !CheckRateLimit(counters, id, perMinute, perDay, now).isSuccess then (0, counters)
    else
      var minuteRead := CountAt(counters, MinuteKey(id), now);
      var dayRead := CountAt(counters, DayKey(id), now);
      var first := Incremented(counters, id, now);
      var second := first[MinuteKey(id) := Counter(minuteRead + 1, now + TicksPerMinute)]
                         [DayKey(id) := Counter(dayRead + 1, now + TicksPerDay)];
      (2, second)
  }

  /** One request short of the minute limit, two requests handled one after
      the other get one admission, but two overlapping requests are both
      admitted and the minute count records only one of them. */
  lemma OverlappingRequestsOverAdmit(counters: Counters, id: Guid, perMinute: int, perDay: int, now: DateTime)
    requires CountAt(counters, MinuteKey(id), now) == perMinute - 1
    requires CountAt(counters, DayKey(id), now) < perDay - 1
    ensures Rounds(counters, id, perMinute, perDay, [now, now]) == [true, false]
    ensures Overlapped(counters, id, perMinute, perDay, now).0 == 2
    ensures CountAt(Overlapped(counters, id, perMinute, perDay, now).1, MinuteKey(id), now) == perMinute
    ensures CountAt(Overlapped(counters, id, perMinute, perDay, now).1, DayKey(id), now) == CountAt(counters, DayKey(id), now) + 1
  {
    KeysDistinct(id, id);
    var next := Incremented(counters, id, now);
    assert CountAt(next, MinuteKey(id), now) == perMinute;
    assert [now, now][1..] == [now];
    assert Rounds(next, id, perMinute, perDay, [now]) == [false];
  }

  /** The counter store the middleware shares. */
  class RateLimitService {
    var counters: Counters

    constructor ()
      ensures counters == map[]
    {
      counters := map[];
    }

    method CheckRateLimitAsync(id: Guid, perMinute: int, perDay: int, now: DateTime) returns (r: R.Result<bool>)
      ensures r == CheckRateLimit(counters, id, perMinute, perDay, now)
    {
      var minuteCount := CountAt(counters, MinuteKey(id), now);
      var dayCount := CountAt(counters, DayKey(id), now);
      if minuteCount >= perMinute {
        return R.Fail(PerMinuteExceeded);
      }
      if dayCount >= perDay {
        return R.Fail(PerDayExceeded);
      }
      return R.Success(true, R.OkStatus);
    }

    method IncrementUsageAsync(id: Guid, now: DateTime)
      modifies this
      ensures counters == Incremented(old(counters), id, now)
    {
      var minuteCount := CountAt(counters, MinuteKey(id), now);
      counters := counters[MinuteKey(id) := Counter(minuteCount + 1, now + TicksPerMinute)];
      var dayCount := CountAt(counters, DayKey(id), now);
      counters := counters[DayKey(id) := Counter(dayCount + 1, now + TicksPerDay)];
    }

    method GetRemainingLimitsAsync(id: Guid, perMinute: int, perDay: int, now: DateTime)
      returns (remainingMinute: int, remainingDay: int)
      ensures (remainingMinute, remainingDay) == RemainingLimits(counters, id, perMinute, perDay, now)
    {
      var minuteCount := CountAt(counters, MinuteKey(id), now);
      var dayCount := CountAt(counters, DayKey(id), now);
      remainingMinute := Max(0, perMinute - minuteCount);
      remainingDay := Max(0, perDay - dayCount);
    }
  }
}
