/** The earning limiter embedded in the user record (`User.can_earn_now`,
    `User.register_earn`): a per-day counter of granted rewards that resets
    when the stored date is not today. */
module Limiter {
  import opened Optional
  import opened Models

  /** The cap every handler passes as `max_per_day`. */
  const DailyEarnMax: int := 100

  /** `can_earn_now(max_per_day)` at instant `now`. */
  function CanEarnNow(u: User, now: Instant, maxPerDay: int): (r: bool)
    ensures u.lastEarnDate != Some(DayOf(now)) ==> r
    ensures u.lastEarnDate == Some(DayOf(now)) ==> (r <==> u.dailyEarnCount < maxPerDay)
  {
    u.lastEarnDate != Some(DayOf(now)) || u.dailyEarnCount < maxPerDay
  }

  /** `register_earn()` at instant `now`: restart the count on a new day,
      otherwise add one; always stamp the time. Only the three counter fields
      change. */
  function RegisterEarn(u: User, now: Instant): (r: User)
    ensures r.lastEarnDate == Some(DayOf(now)) && r.lastEarnTime == Some(now)
    ensures u.lastEarnDate != Some(DayOf(now)) ==> r.dailyEarnCount == 1
    ensures u.lastEarnDate == Some(DayOf(now)) ==> r.dailyEarnCount == u.dailyEarnCount + 1
    ensures r.(lastEarnDate := u.lastEarnDate, dailyEarnCount := u.dailyEarnCount, lastEarnTime := u.lastEarnTime) == u
  {
    var today := DayOf(now);
    if u.lastEarnDate != Some(today) then
      u.(lastEarnDate := Some(today), dailyEarnCount := 1, lastEarnTime := Some(now))
    else
      u.(dailyEarnCount := u.dailyEarnCount + 1, lastEarnTime := Some(now))
  }

  /** All instants in `times` fall on day `d`. */
  predicate AllOnDay(times: seq<Instant>, d: Day) {
    forall i :: 0 <= i < |times| ==> DayOf(times[i]) == d
  }

  /** `register_earn()` called once at each instant of `times`, in order. */
  function RegisterEach(u: User, times: seq<Instant>): User
  {
    if |times| == 0 then u else RegisterEarn(RegisterEach(u, times[..|times| - 1]), times[|times| - 1])
  }

  /** N registrations on one day starting from another day's counters leave the
      count at N, so `can_earn_now(N)` is false for the rest of that day. */
  lemma {:induction false} RegisterEachCounts(u: User, times: seq<Instant>, d: Day)
    requires |times| >= 1 && AllOnDay(times, d)
    requires u.lastEarnDate != Some(d)
    ensures RegisterEach(u, times).dailyEarnCount == |times|
    ensures RegisterEach(u, times).lastEarnDate == Some(d)
    ensures forall now :: DayOf(now) == d ==> !CanEarnNow(RegisterEach(u, times), now, |times|)
  {
    if |times| > 1 {
      RegisterEachCounts(u, times[..|times| - 1], d);
    }
  }

  /** One gated attempt, as the reward handlers do it: register only when
      `can_earn_now(maxPerDay)` holds. */
  function TryEarn(u: User, now: Instant, maxPerDay: int): User
  {
    if CanEarnNow(u, now, maxPerDay) then RegisterEarn(u, now) else u
  }

  function TryEach(u: User, times: seq<Instant>, maxPerDay: int): User
  {
    if |times| == 0 then u else TryEarn(TryEach(u, times[..|times| - 1], maxPerDay), times[|times| - 1], maxPerDay)
  }

  function Min(a: int, b: int): int { if a <= b then a else b }
  function Max(a: int, b: int): int { if a >= b then a else b }

  /** Limiter boundary: k gated attempts on a fresh day are granted up to the
      cap and no further, so attempt N+1 fails and leaves the count at N. A cap
      below 1 still lets the first attempt of a day through, because the
      new-day test ignores the cap. */
  lemma {:induction false} TryEachBoundary(u: User, times: seq<Instant>, d: Day, maxPerDay: int)
    requires |times| >= 1 && AllOnDay(times, d)
    requires u.lastEarnDate != Some(d)
    ensures TryEach(u, times, maxPerDay).dailyEarnCount == Min(|times|, Max(maxPerDay, 1))
    ensures TryEach(u, times, maxPerDay).lastEarnDate == Some(d)
  {
    if |times| > 1 {
      TryEachBoundary(u, times[..|times| - 1], d, maxPerDay);
    }
  }
}
