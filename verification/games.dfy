/** The instant game tasks (`core/views_games.py`): scratch card, spin wheel,
    puzzle and quiz complete in one request, at most once per task per
    calendar day, behind the task-start limit and the earning limiter. The
    random draw of the two luck games is a parameter. */
module Games {
  import opened Optional
  import opened Models
  import opened Ledger
  import opened Limiter
  import opened Fraud
  import opened Aggregates
  import TaskFlow

  /** Bounds of `random.randint` for scratch card and spin wheel. */
  const MinDraw: int := 20
  const MaxDraw: int := 150
  /** The fixed reward of puzzle and quiz. */
  const FixedReward: int := 50

  datatype Outcome =
    | LimitDenied
    | EarnLimitReached
    | TaskNotFound
    | NotAGame
    | AlreadyToday
    | InvalidReward
    | GameRewarded(coins: int)
  {
    function Status(): int {
      match this
      case LimitDenied => 403
      case EarnLimitReached => 403
      case TaskNotFound => 404
      case GameRewarded(_) => 200
      case _ => 400
    }
  }

  /** The types this endpoint accepts. */
  predicate IsGame(k: TaskType) {
    k in {ScratchCard, SpinWheel, Puzzle, Quiz}
  }

  /** The per-type reward: the draw for the luck games, 50 for puzzle and
      quiz, and for any other type the task's own reward when positive. */
  function Reward(t: Task, draw: int): (c: int)
    ensures (t.kind == ScratchCard || t.kind == SpinWheel) ==> c == draw
    ensures (t.kind == Puzzle || t.kind == Quiz) ==> c == FixedReward
    ensures !IsGame(t.kind) ==> c == t.rewardCoins
  {
    match t.kind
    case ScratchCard => draw
    case SpinWheel => draw
    case Puzzle => FixedReward
    case Quiz => FixedReward
    case _ => if t.rewardCoins > 0 then t.rewardCoins else 0
  }

  /** A completion of `taskId` by `uid` on day `today`. */
  predicate CompletedOn(uid: UserId, taskId: TaskId, today: Day, ut: UserTask) {
    ut.user == uid && ut.task == taskId && ut.status == TaskCompleted
    && ut.completedAt.Some? && DayOf(ut.completedAt.value) == today
  }

  predicate CompletedToday(st: State, uid: UserId, taskId: TaskId, today: Day) {
    exists i :: 0 <= i < |st.userTasks| && CompletedOn(uid, taskId, today, st.userTasks[i])
  }

  predicate ActiveTask(st: State, taskId: TaskId) {
    taskId in st.tasks && st.tasks[taskId].isActive
  }

  /** `GameTaskCompleteView.post`. In order: the task-start limit (403, its
      fraud event kept), the earning limiter at 100 (403), an unknown or
      inactive task (404), a non-game type (400), a completion of the same
      task today (400), a non-positive reward (400); otherwise `Award`, with
      the client address `get_client_ip` derives from the two headers. The
      draw is the value `random.randint(20, 150)` returned. */
  function Complete(st: State, uid: UserId, taskId: TaskId, draw: int, forwardedFor: Option<string>, remoteAddr: Option<string>,
                    device: string, now: Instant): (r: Step<Outcome>)
    requires uid < |st.users|
    requires MinDraw <= draw <= MaxDraw
    ensures r.out == LimitDenied <==> StartsToday(st, uid, DayOf(now)) >= MaxTasksPerDay
    ensures r.out == LimitDenied ==> r.st == CheckDailyTaskLimit(st, uid, MaxTasksPerDay, now).st
    ensures r.out != LimitDenied && !r.out.GameRewarded? ==> r.st == st
    ensures r.out == EarnLimitReached <==>
              StartsToday(st, uid, DayOf(now)) < MaxTasksPerDay && !CanEarnNow(st.users[uid], now, DailyEarnMax)
    ensures r.out == TaskNotFound <==>
              && StartsToday(st, uid, DayOf(now)) < MaxTasksPerDay && CanEarnNow(st.users[uid], now, DailyEarnMax)
              && !ActiveTask(st, taskId)
    ensures r.out == NotAGame <==>
              && StartsToday(st, uid, DayOf(now)) < MaxTasksPerDay && CanEarnNow(st.users[uid], now, DailyEarnMax)
              && ActiveTask(st, taskId) && !IsGame(st.tasks[taskId].kind)
    ensures r.out == AlreadyToday <==>
              && StartsToday(st, uid, DayOf(now)) < MaxTasksPerDay && CanEarnNow(st.users[uid], now, DailyEarnMax)
              && ActiveTask(st, taskId) && IsGame(st.tasks[taskId].kind)
              && CompletedToday(st, uid, taskId, DayOf(now))
    ensures r.out.GameRewarded? <==>
              && StartsToday(st, uid, DayOf(now)) < MaxTasksPerDay && CanEarnNow(st.users[uid], now, DailyEarnMax)
              && ActiveTask(st, taskId) && IsGame(st.tasks[taskId].kind)
              && !CompletedToday(st, uid, taskId, DayOf(now))
    ensures r.out.GameRewarded? ==>
              && StartsToday(st, uid, DayOf(now)) < MaxTasksPerDay
              && CanEarnNow(st.users[uid], now, DailyEarnMax)
              && ActiveTask(st, taskId) && IsGame(st.tasks[taskId].kind)
              && !CompletedToday(st, uid, taskId, DayOf(now))
              && r.out.coins == Reward(st.tasks[taskId], draw)
              && r.st == Award(st, uid, taskId, r.out.coins, TaskFlow.ClientIp(forwardedFor, remoteAddr), device, now)
  {
    var chk := CheckDailyTaskLimit(st, uid, MaxTasksPerDay, now);
    if chk.out == Deny then Step(chk.st, LimitDenied)
    else if !CanEarnNow(st.users[uid], now, DailyEarnMax) then Step(st, EarnLimitReached)
    else if !ActiveTask(st, taskId) then Step(st, TaskNotFound)
    else if !IsGame(st.tasks[taskId].kind) then Step(st, NotAGame)
    else if CompletedToday(st, uid, taskId, DayOf(now)) then Step(st, AlreadyToday)
    else
      var reward := Reward(st.tasks[taskId], draw);
      if reward <= 0 then Step(st, InvalidReward)
      else Step(Award(st, uid, taskId, reward, TaskFlow.ClientIp(forwardedFor, remoteAddr), device, now), GameRewarded(reward))
  }

  /** The effect of a rewarded game: one `completed` attempt started and
      finished now, `register_earn` once, and the reward posted as one `earn`
      row. */
  function Award(st: State, uid: UserId, taskId: TaskId, reward: int, ip: Option<string>, device: string, now: Instant): (st': State)
    requires uid < |st.users|
    ensures st'.userTasks == st.userTasks + [UserTask(uid, taskId, TaskCompleted, now, Some(now), ip, Some(device))]
    ensures |st'.users| == |st.users|
    ensures st'.users[uid] == RegisterEarn(st.users[uid], now).(coinsBalance := st.users[uid].coinsBalance + reward)
    ensures PostedOnce(st, st', Tx(uid, Earn, reward, 0.0, now))
    ensures st' == st.(users := st'.users, ledger := st'.ledger, userTasks := st'.userTasks)
    ensures Valid(st) && taskId in st.tasks ==> Valid(st')
  {
    var st1 := SetUser(st, uid, RegisterEarn(st.users[uid], now));
    var st2 := Post(st1, uid, Earn, reward, 0.0, now);
    st2.(userTasks := st.userTasks + [UserTask(uid, taskId, TaskCompleted, now, Some(now), ip, Some(device))])
  }

  /** The reward is within the randint bounds for the luck games and exactly
      50 for puzzle and quiz, so the non-positive-reward refusal never
      happens. */
  lemma RewardBounds(st: State, uid: UserId, taskId: TaskId, draw: int, forwardedFor: Option<string>, remoteAddr: Option<string>,
                     device: string, now: Instant)
    requires uid < |st.users|
    requires MinDraw <= draw <= MaxDraw
    ensures var r := Complete(st, uid, taskId, draw, forwardedFor, remoteAddr, device, now);
            && r.out != InvalidReward
            && (r.out.GameRewarded? ==> MinDraw <= r.out.coins <= MaxDraw)
            && (r.out.GameRewarded? && st.tasks[taskId].kind in {Puzzle, Quiz} ==> r.out.coins == FixedReward)
  {
  }

  /** A rewarded game keeps every balance equal to its ledger sum, and so
      does every refusal. */
  lemma CompleteReconciles(st: State, uid: UserId, taskId: TaskId, draw: int, forwardedFor: Option<string>, remoteAddr: Option<string>,
                           device: string, now: Instant)
    requires uid < |st.users| && MinDraw <= draw <= MaxDraw
    requires Reconciled(st)
    ensures Reconciled(Complete(st, uid, taskId, draw, forwardedFor, remoteAddr, device, now).st)
  {
    var r := Complete(st, uid, taskId, draw, forwardedFor, remoteAddr, device, now);
    if r.out.GameRewarded? {
      PostedOnceReconciles(st, r.st, Tx(uid, Earn, r.out.coins, 0.0, now));
    } else if r.out == LimitDenied {
      BalancesKept(st, r.st);
    }
  }

  /** The row a rewarded game appends is not counted by the task-start limit,
      since game types are excluded from it. */
  lemma AwardKeepsStarts(st: State, uid: UserId, taskId: TaskId, reward: int, ip: Option<string>, device: string, now: Instant, today: Day)
    requires uid < |st.users|
    requires taskId in st.tasks && IsGame(st.tasks[taskId].kind)
    ensures StartsToday(Award(st, uid, taskId, reward, ip, device, now), uid, today) == StartsToday(st, uid, today)
  {
    var row := UserTask(uid, taskId, TaskCompleted, now, Some(now), ip, Some(device));
    CountAppend(st.userTasks, row, StartedTodayFilter(st.tasks, uid, today));
  }

  /** Once per task per day: after a rewarded game, the same request later on
      the same day earns nothing and changes nothing; it is refused either by
      the earning limiter or as already completed today. */
  lemma {:induction false} OncePerDay(st: State, uid: UserId, taskId: TaskId, draw: int, draw2: int,
                                      forwardedFor: Option<string>, remoteAddr: Option<string>, device: string,
                                      now: Instant, later: Instant)
    requires uid < |st.users| && MinDraw <= draw <= MaxDraw && MinDraw <= draw2 <= MaxDraw
    requires Complete(st, uid, taskId, draw, forwardedFor, remoteAddr, device, now).out.GameRewarded?
    requires DayOf(later) == DayOf(now)
    ensures var first := Complete(st, uid, taskId, draw, forwardedFor, remoteAddr, device, now);
            var second := Complete(first.st, uid, taskId, draw2, forwardedFor, remoteAddr, device, later);
            && (second.out == EarnLimitReached || second.out == AlreadyToday)
            && second.st == first.st
  {
    var first := Complete(st, uid, taskId, draw, forwardedFor, remoteAddr, device, now);
    AwardKeepsStarts(st, uid, taskId, first.out.coins, TaskFlow.ClientIp(forwardedFor, remoteAddr), device, now, DayOf(later));
    var n := |st.userTasks|;
    assert CompletedOn(uid, taskId, DayOf(later), first.st.userTasks[n]);
    assert CompletedToday(first.st, uid, taskId, DayOf(later));
  }
}
