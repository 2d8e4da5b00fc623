/** The fraud scorer (`core/utils.py`): appending fraud events that raise a
    user's cumulative score, the task-speed check and the daily task-start
    limit. A failed check records its event first and then refuses, so the
    audit trail survives the refusal. */
module Fraud {
  import opened Optional
  import opened Models
  import opened Aggregates

  /** Score added by a too-fast completion. */
  const SpeedScore: int := 5
  /** Score added by an attempt past the daily task limit. */
  const LimitScore: int := 10
  /** Default `min_seconds` of the speed check. */
  const MinTaskSeconds: int := 8
  /** Default `max_tasks_per_day` of the task-start limit. */
  const MaxTasksPerDay: int := 3

  /** Outcome of a check that raises on failure. */
  datatype Check = Pass | Deny

  /** `record_fraud_event`: add `score` to the user's fraud score and append
      one event carrying it; nothing else changes. */
  function RecordFraudEvent(st: State, uid: UserId, ip: Option<string>, device: Option<string>,
                            kind: FraudEventType, score: int, now: Instant): (st': State)
    requires uid < |st.users|
    ensures |st'.users| == |st.users|
    ensures st'.users[uid].fraudScore == st.users[uid].fraudScore + score
    ensures st'.users[uid] == st.users[uid].(fraudScore := st'.users[uid].fraudScore)
    ensures forall v :: 0 <= v < |st.users| && v != uid ==> st'.users[v] == st.users[v]
    ensures st'.fraudEvents == st.fraudEvents + [FraudEvent(uid, kind, score, ip, device, now)]
    ensures st' == st.(users := st'.users, fraudEvents := st'.fraudEvents)
  {
    var u := st.users[uid];
    st.(users := st.users[uid := u.(fraudScore := u.fraudScore + score)],
        fraudEvents := st.fraudEvents + [FraudEvent(uid, kind, score, ip, device, now)])
  }

  /** `check_task_speed(user_task, min_seconds)`: a completion faster than
      `minSeconds` after the start records one `suspicious_speed` event of
      score 5 and is refused; a task without completion time, or a slow enough
      one, passes with no effect. */
  function CheckTaskSpeed(st: State, ut: UserTask, minSeconds: int, now: Instant): (r: Step<Check>)
    requires ut.user < |st.users|
    ensures |r.st.users| == |st.users|
    ensures ut.completedAt.None? ==> r == Step(st, Pass)
    ensures ut.completedAt.Some? && ut.completedAt.value - ut.startedAt >= minSeconds ==> r == Step(st, Pass)
    ensures r.out == Deny <==> ut.completedAt.Some? && ut.completedAt.value - ut.startedAt < minSeconds
    ensures r.out == Deny ==>
              && r.st.fraudEvents == st.fraudEvents + [FraudEvent(ut.user, SuspiciousSpeed, SpeedScore, ut.ipAddress, ut.deviceId, now)]
              && r.st.users[ut.user].fraudScore == st.users[ut.user].fraudScore + SpeedScore
    ensures r.st == st.(users := r.st.users, fraudEvents := r.st.fraudEvents)
    ensures forall v :: 0 <= v < |st.users| ==> r.st.users[v] == st.users[v].(fraudScore := r.st.users[v].fraudScore)
    ensures forall v :: 0 <= v < |st.users| && v != ut.user ==> r.st.users[v] == st.users[v]
  {
    match ut.completedAt
    case None => Step(st, Pass)
    case Some(done) =>
      if done - ut.startedAt < minSeconds then
        Step(RecordFraudEvent(st, ut.user, ut.ipAddress, ut.deviceId, SuspiciousSpeed, SpeedScore, now), Deny)
      else Step(st, Pass)
  }

  /** Task types left out of the task-start limit: offerwalls, and the instant
      games that have their own once-per-day rule. */
  predicate ExcludedFromLimit(k: TaskType) {
    k in {Offerwall, TapjoyOfferwall, ScratchCard, SpinWheel, Puzzle, Quiz}
  }

  /** The rows `check_daily_task_limit` counts: task attempts by `uid` started
      on day `today` whose task type is not excluded. */
  predicate StartedToday(tasks: map<TaskId, Task>, uid: UserId, today: Day, ut: UserTask) {
    && ut.user == uid
    && DayOf(ut.startedAt) == today
    && !(ut.task in tasks && ExcludedFromLimit(tasks[ut.task].kind))
  }

  function StartedTodayFilter(tasks: map<TaskId, Task>, uid: UserId, today: Day): UserTask -> bool {
    ut => StartedToday(tasks, uid, today, ut)
  }

  /** The number of counted task starts today. */
  function StartsToday(st: State, uid: UserId, today: Day): nat {
    Count(st.userTasks, StartedTodayFilter(st.tasks, uid, today))
  }

  /** `check_daily_task_limit(user, max_tasks_per_day)`: when today's counted
      starts reach the maximum, record one `limit_exceeded` event of score 10
      (no IP, the user's device id) and refuse; below it, no effect. */
  function CheckDailyTaskLimit(st: State, uid: UserId, maxTasks: int, now: Instant): (r: Step<Check>)
    requires uid < |st.users|
    ensures |r.st.users| == |st.users|
    ensures r.out == Deny <==> StartsToday(st, uid, DayOf(now)) >= maxTasks
    ensures r.out == Pass ==> r.st == st
    ensures r.out == Deny ==>
              && r.st.fraudEvents == st.fraudEvents + [FraudEvent(uid, LimitExceeded, LimitScore, None, Some(st.users[uid].deviceId), now)]
              && r.st.users[uid].fraudScore == st.users[uid].fraudScore + LimitScore
    ensures r.st == st.(users := r.st.users, fraudEvents := r.st.fraudEvents)
    ensures forall v :: 0 <= v < |st.users| ==> r.st.users[v] == st.users[v].(fraudScore := r.st.users[v].fraudScore)
  {
    if StartsToday(st, uid, DayOf(now)) >= maxTasks then
      Step(RecordFraudEvent(st, uid, None, Some(st.users[uid].deviceId), LimitExceeded, LimitScore, now), Deny)
    else Step(st, Pass)
  }

  /** The fraud score only grows under both checks, since their fixed scores
      are positive. */
  lemma ChecksNeverLowerScore(st: State, ut: UserTask, uid: UserId, maxTasks: int, now: Instant)
    requires ut.user < |st.users| && uid < |st.users|
    ensures forall v :: 0 <= v < |st.users| ==>
              CheckTaskSpeed(st, ut, MinTaskSeconds, now).st.users[v].fraudScore >= st.users[v].fraudScore
    ensures forall v :: 0 <= v < |st.users| ==>
              CheckDailyTaskLimit(st, uid, maxTasks, now).st.users[v].fraudScore >= st.users[v].fraudScore
  {
  }
}
