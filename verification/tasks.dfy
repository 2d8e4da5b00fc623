/** The task flow of `core/views.py`: starting a catalogue task (behind the
    daily task-start limit) and completing it (behind the earning limiter and
    the speed check), plus the client-address helper. */
module TaskFlow {
  import opened Optional
  import opened Text
  import opened Models
  import opened Ledger
  import opened Limiter
  import opened Fraud

  /** The text of `s` before its first comma (all of `s` when it has none). */
  function FirstField(s: string): (r: string)
    ensures |r| <= |s| && r == s[..|r|]
    ensures forall i :: 0 <= i < |r| ==> r[i] != ','
    ensures |r| < |s| ==> s[|r|] == ','
  {
    match IndexOf(s, ',')
    case None => s
    case Some(k) => s[..k]
  }

  /** `get_client_ip`: the first entry of a non-empty `X-Forwarded-For`
      header, otherwise the socket's remote address. */
  function ClientIp(forwardedFor: Option<string>, remoteAddr: Option<string>): (r: Option<string>)
    ensures !Truthy(forwardedFor) ==> r == remoteAddr
    ensures Truthy(forwardedFor) ==> r.Some? && r.value == FirstField(forwardedFor.value)
  {
    if Truthy(forwardedFor) then Some(FirstField(forwardedFor.value)) else remoteAddr
  }

  // ---------------------------------------------------------------------
  // Task start
  // ---------------------------------------------------------------------

  datatype StartOutcome = StartDenied | StartNotFound | Started(userTaskId: nat) {
    function Status(): int {
      match this
      case StartDenied => 403
      case StartNotFound => 404
      case Started(_) => 201
    }
  }

  predicate ActiveTask(st: State, taskId: TaskId) {
    taskId in st.tasks && st.tasks[taskId].isActive
  }

  /** `TaskStartView.post`: the task-start limit runs first (and on refusal
      leaves its fraud event behind); then an unknown or inactive task is 404;
      otherwise exactly one `pending` attempt is appended, carrying the client
      address `get_client_ip` derives from the two request headers. */
  function StartTask(st: State, uid: UserId, taskId: TaskId, forwardedFor: Option<string>, remoteAddr: Option<string>,
                     device: Option<string>, now: Instant): (r: Step<StartOutcome>)
    requires uid < |st.users|
    ensures BalancesUnchanged(st, r.st)
    ensures Valid(st) ==> Valid(r.st)
    ensures r.out == StartDenied <==> StartsToday(st, uid, DayOf(now)) >= MaxTasksPerDay
    ensures r.out == StartDenied ==>
              && r.st == CheckDailyTaskLimit(st, uid, MaxTasksPerDay, now).st
              && |r.st.fraudEvents| == |st.fraudEvents| + 1
    ensures r.out == StartNotFound <==> StartsToday(st, uid, DayOf(now)) < MaxTasksPerDay && !ActiveTask(st, taskId)
    ensures r.out == StartNotFound ==> r.st == st
    ensures r.out.Started? ==>
              && r.out.userTaskId == |st.userTasks|
              && r.st == st.(userTasks := st.userTasks + [UserTask(uid, taskId, TaskPending, now, None,
                                                                     ClientIp(forwardedFor, remoteAddr), device)])
  {
    var chk := CheckDailyTaskLimit(st, uid, MaxTasksPerDay, now);
    if chk.out == Deny then Step(chk.st, StartDenied)
    else if !ActiveTask(st, taskId) then Step(st, StartNotFound)
    else
      var ip := ClientIp(forwardedFor, remoteAddr);
      Step(st.(userTasks := st.userTasks + [UserTask(uid, taskId, TaskPending, now, None, ip, device)]),
           Started(|st.userTasks|))
  }

  // ---------------------------------------------------------------------
  // Task completion
  // ---------------------------------------------------------------------

  datatype CompleteOutcome = CompleteNotFound | EarnLimitReached | TooFast | Rewarded(coins: nat) {
    function Status(): int {
      match this
      case CompleteNotFound => 404
      case EarnLimitReached => 403
      case TooFast => 400
      case Rewarded(_) => 200
    }
  }

  /** The lookup `UserTask.objects.get(id=..., user=..., status="pending")`. */
  predicate OwnPending(st: State, uid: UserId, utId: nat) {
    utId < |st.userTasks| && st.userTasks[utId].user == uid && st.userTasks[utId].status == TaskPending
  }

  /** `TaskCompleteView.post`. A missing, foreign or non-pending attempt is 404
      and a spent earning quota is 403, both before anything is written. Past
      those, the attempt is marked completed; a too-fast completion then stays
      completed, records its fraud event and earns nothing (no `register_earn`);
      otherwise `register_earn` runs once and the task's reward is posted as one
      `earn` row. */
  function CompleteTask(st: State, uid: UserId, utId: nat, now: Instant): (r: Step<CompleteOutcome>)
    requires Valid(st) && uid < |st.users|
    ensures Valid(r.st)
    ensures !OwnPending(st, uid, utId) ==> r == Step(st, CompleteNotFound)
    ensures OwnPending(st, uid, utId) && !CanEarnNow(st.users[uid], now, DailyEarnMax) ==> r == Step(st, EarnLimitReached)
    ensures OwnPending(st, uid, utId) && CanEarnNow(st.users[uid], now, DailyEarnMax) ==>
              && |r.st.userTasks| == |st.userTasks|
              && r.st.userTasks[utId] == st.userTasks[utId].(status := TaskCompleted, completedAt := Some(now))
              && (r.out == TooFast <==> now - st.userTasks[utId].startedAt < MinTaskSeconds)
              && (r.out.Rewarded? <==> now - st.userTasks[utId].startedAt >= MinTaskSeconds)
    ensures r.out == TooFast ==>
              && BalancesUnchanged(st, r.st)
              && r.st.users[uid].dailyEarnCount == st.users[uid].dailyEarnCount
              && r.st.users[uid].fraudScore == st.users[uid].fraudScore + SpeedScore
              && |r.st.fraudEvents| == |st.fraudEvents| + 1
    ensures r.out == TooFast ==>
              var ut := st.userTasks[utId];
              r.st == st.(users := st.users[uid := st.users[uid].(fraudScore := st.users[uid].fraudScore + SpeedScore)],
                          userTasks := st.userTasks[utId := ut.(status := TaskCompleted, completedAt := Some(now))],
                          fraudEvents := st.fraudEvents + [FraudEvent(uid, SuspiciousSpeed, SpeedScore, ut.ipAddress, ut.deviceId, now)])
    ensures r.out.Rewarded? ==>
              && r.out.coins == st.tasks[st.userTasks[utId].task].rewardCoins
              && PostedOnce(st, r.st, Tx(uid, Earn, r.out.coins, 0.0, now))
              && r.st.users[uid] == RegisterEarn(st.users[uid], now).(coinsBalance := st.users[uid].coinsBalance + r.out.coins)
              && r.st.fraudEvents == st.fraudEvents
              && r.st == st.(users := r.st.users, ledger := r.st.ledger,
                             userTasks := st.userTasks[utId := st.userTasks[utId].(status := TaskCompleted, completedAt := Some(now))])
  {
    if !OwnPending(st, uid, utId) then Step(st, CompleteNotFound)
    else if !CanEarnNow(st.users[uid], now, DailyEarnMax) then Step(st, EarnLimitReached)
    else
      var ut := st.userTasks[utId].(status := TaskCompleted, completedAt := Some(now));
      var st1 := st.(userTasks := st.userTasks[utId := ut]);
      var chk := CheckTaskSpeed(st1, ut, MinTaskSeconds, now);
      if chk.out == Deny then Step(chk.st, TooFast)
      else
        var reward := st.tasks[ut.task].rewardCoins;
        var st2 := SetUser(st1, uid, RegisterEarn(st1.users[uid], now));
        Step(Post(st2, uid, Earn, reward, 0.0, now), Rewarded(reward))
  }

  /** Task start and completion keep every balance equal to its ledger sum. */
  lemma TaskFlowReconciles(st: State, uid: UserId, taskId: TaskId, utId: nat, forwardedFor: Option<string>,
                           remoteAddr: Option<string>, device: Option<string>, now: Instant)
    requires Valid(st) && uid < |st.users| && Reconciled(st)
    ensures Reconciled(StartTask(st, uid, taskId, forwardedFor, remoteAddr, device, now).st)
    ensures Reconciled(CompleteTask(st, uid, utId, now).st)
  {
    BalancesKept(st, StartTask(st, uid, taskId, forwardedFor, remoteAddr, device, now).st);
    var r := CompleteTask(st, uid, utId, now);
    if r.out.Rewarded? {
      PostedOnceReconciles(st, r.st, Tx(uid, Earn, r.out.coins, 0.0, now));
    } else {
      BalancesKept(st, r.st);
    }
  }
}
