/** The statistics of `core/views_analytics.py`: earning sums over date
    windows, completed-task counts, a seven-day breakdown, withdrawal figures
    and referral counts, all read-only queries over the store. */
module Analytics {
  import opened Optional
  import opened Models
  import opened Aggregates
  import opened Queries
  import opened Withdrawals

  /** The window starts: `today - 7 days` and `today - 30 days`. */
  const WeekDays: int := 7
  const MonthDays: int := 30
  /** The number of entries of the daily breakdown. */
  const BreakdownDays: int := 7

  /** An earning row of `uid` dated before `until`: the rows the month window
      leaves out. */
  function EarningsBefore(uid: UserId, until: Day): WalletTransaction -> bool {
    t => EarningRow(uid, t) && DayOf(t.createdAt) < until
  }

  /** The rows of type `withdraw` of `uid`, and their rupee amount. */
  function WithdrawRows(uid: UserId): WalletTransaction -> bool {
    (t: WalletTransaction) => t.user == uid && t.kind == Withdraw
  }

  function AmountOf(): WalletTransaction -> real {
    (t: WalletTransaction) => t.amountRs
  }

  /** Completed attempts of `uid` whose catalogue task has a type in `ks`. */
  function CompletedOfKinds(uid: UserId, tasks: map<TaskId, Task>, ks: set<TaskType>): UserTask -> bool {
    ut => CompletedRow(uid, ut) && ut.task in tasks && tasks[ut.task].kind in ks
  }

  /** The completed attempts of one task type: one group of `by_type`. */
  function TypeCount(st: State, uid: UserId, k: TaskType): nat {
    Count(st.userTasks, CompletedOfKinds(uid, st.tasks, {k}))
  }

  /** Every task type. */
  const AllKinds: seq<TaskType> := [Video, Quiz, Offerwall, TapjoyOfferwall, ScratchCard, SpinWheel, Puzzle]

  function KindSet(ks: seq<TaskType>): set<TaskType> {
    set k | k in ks
  }

  lemma EveryKindListed()
    ensures forall k: TaskType :: k in KindSet(AllKinds)
  {
    forall k: TaskType
      ensures k in KindSet(AllKinds)
    {
      match k
      case Video => assert AllKinds[0] == k;
      case Quiz => assert AllKinds[1] == k;
      case Offerwall => assert AllKinds[2] == k;
      case TapjoyOfferwall => assert AllKinds[3] == k;
      case ScratchCard => assert AllKinds[4] == k;
      case SpinWheel => assert AllKinds[5] == k;
      case Puzzle => assert AllKinds[6] == k;
    }
  }

  /** `values("task__type").annotate(count=Count("id"))`: a group for each
      type with at least one completed attempt. */
  function ByType(st: State, uid: UserId): (groups: map<TaskType, nat>)
    ensures forall k :: k in groups <==> TypeCount(st, uid, k) > 0
    ensures forall k :: k in groups ==> groups[k] == TypeCount(st, uid, k)
  {
    EveryKindListed();
    map k | k in KindSet(AllKinds) && TypeCount(st, uid, k) > 0 :: TypeCount(st, uid, k)
  }

  /** One entry of `daily_breakdown`. */
  datatype DayEarned = DayEarned(day: Day, coins: int)

  /** The reply of `UserAnalyticsView.get` (level and experience, which are
      not part of this model, are left out). */
  datatype View = View(
    totalEarned: int, todayEarned: int, weekEarned: int, monthEarned: int,
    breakdown: seq<DayEarned>,
    totalTasks: nat, todayTasks: nat, weekTasks: nat, byType: map<TaskType, nat>,
    totalWithdrawnRs: real, pendingWithdrawals: nat,
    totalReferrals: nat, activeReferrals: nat,
    loginStreak: int, longestStreak: int
  )

  /** The seven days ending today, newest first, with what was earned on each. */
  function Breakdown(ledger: seq<WalletTransaction>, uid: UserId, today: Day): (b: seq<DayEarned>)
    ensures |b| == BreakdownDays
    ensures forall i :: 0 <= i < |b| ==> b[i] == DayEarned(today - i, EarnedOn(ledger, uid, today - i))
  {
    seq(BreakdownDays, i requires 0 <= i < BreakdownDays => DayEarned(today - i, EarnedOn(ledger, uid, today - i)))
  }

  function TotalWithdrawn(ledger: seq<WalletTransaction>, uid: UserId): real {
    SumReal(ledger, WithdrawRows(uid), AmountOf())
  }

  function PendingCount(withdrawals: seq<WithdrawRequest>, uid: UserId): nat {
    Count(withdrawals, WithdrawalsIn(uid, Pending))
  }

  /** `UserAnalyticsView.get` for user `uid` at instant `now`. */
  function Get(st: State, uid: UserId, now: Instant): (v: View)
    requires uid < |st.users|
    ensures var today := DayOf(now);
            && v.totalEarned == Sum(st.ledger, Earnings(uid), CoinsOf())
            && v.todayEarned == EarnedOn(st.ledger, uid, today)
            && v.weekEarned == Sum(st.ledger, EarningsSince(uid, today - WeekDays), CoinsOf())
            && v.monthEarned == Sum(st.ledger, EarningsSince(uid, today - MonthDays), CoinsOf())
            && v.breakdown == Breakdown(st.ledger, uid, today)
            && v.totalTasks == Count(st.userTasks, Completed(uid))
            && v.todayTasks == CompletedCountOn(st.userTasks, uid, today)
            && v.weekTasks == Count(st.userTasks, CompletedSince(uid, today - WeekDays))
            && v.byType == ByType(st, uid)
            && v.totalWithdrawnRs == TotalWithdrawn(st.ledger, uid)
            && v.pendingWithdrawals == PendingCount(st.withdrawals, uid)
            && v.totalReferrals == Count(st.users, ReferredBy(uid))
            && v.activeReferrals == Count(st.users, ActiveReferralSince(uid, today - WeekDays))
    ensures v.loginStreak == st.users[uid].loginStreak && v.longestStreak == st.users[uid].longestStreak
  {
    var today := DayOf(now);
    View(
      Sum(st.ledger, Earnings(uid), CoinsOf()),
      EarnedOn(st.ledger, uid, today),
      Sum(st.ledger, EarningsSince(uid, today - WeekDays), CoinsOf()),
      Sum(st.ledger, EarningsSince(uid, today - MonthDays), CoinsOf()),
      Breakdown(st.ledger, uid, today),
      Count(st.userTasks, Completed(uid)),
      CompletedCountOn(st.userTasks, uid, today),
      Count(st.userTasks, CompletedSince(uid, today - WeekDays)),
      ByType(st, uid),
      TotalWithdrawn(st.ledger, uid),
      PendingCount(st.withdrawals, uid),
      Count(st.users, ReferredBy(uid)),
      Count(st.users, ActiveReferralSince(uid, today - WeekDays)),
      st.users[uid].loginStreak,
      st.users[uid].longestStreak)
  }

  // ---------------------------------------------------------------------
  // Properties
  // ---------------------------------------------------------------------

  /** Every earning row of `uid` carries a non-negative amount. */
  predicate NonNegativeEarnings(ledger: seq<WalletTransaction>, uid: UserId) {
    forall i :: 0 <= i < |ledger| && EarningRow(uid, ledger[i]) ==> ledger[i].coins >= 0
  }

  /** The windows are nested, so when earnings are non-negative the narrower
      sums never exceed the wider ones. */
  lemma WindowsNested(st: State, uid: UserId, now: Instant)
    requires uid < |st.users|
    requires NonNegativeEarnings(st.ledger, uid)
    ensures var v := Get(st, uid, now);
            v.todayEarned <= v.weekEarned <= v.monthEarned <= v.totalEarned
  {
    var today := DayOf(now);
    SumMonotone(st.ledger, EarningsOn(uid, today), EarningsSince(uid, today - WeekDays), CoinsOf());
    SumMonotone(st.ledger, EarningsSince(uid, today - WeekDays), EarningsSince(uid, today - MonthDays), CoinsOf());
    SumMonotone(st.ledger, EarningsSince(uid, today - MonthDays), Earnings(uid), CoinsOf());
  }

  /** Whatever the signs, the total is the month window plus the older rows:
      each wider sum counts the narrower one's rows and others. */
  lemma TotalSplitsAtMonth(st: State, uid: UserId, now: Instant)
    requires uid < |st.users|
    ensures var v := Get(st, uid, now);
            v.totalEarned == v.monthEarned + Sum(st.ledger, EarningsBefore(uid, DayOf(now) - MonthDays), CoinsOf())
  {
    var since := DayOf(now) - MonthDays;
    SumSplit(st.ledger, Earnings(uid), EarningsSince(uid, since), EarningsBefore(uid, since), CoinsOf());
  }

  /** The task counts are nested the same way, with no sign condition. */
  lemma TaskCountsNested(st: State, uid: UserId, now: Instant)
    requires uid < |st.users|
    ensures var v := Get(st, uid, now);
            v.todayTasks <= v.weekTasks <= v.totalTasks
  {
    var today := DayOf(now);
    CountMonotone(st.userTasks, CompletedOn(uid, today), CompletedSince(uid, today - WeekDays));
    CountMonotone(st.userTasks, CompletedSince(uid, today - WeekDays), Completed(uid));
  }

  /** The breakdown starts with today's figure and steps back one day at a
      time. */
  lemma BreakdownDescends(st: State, uid: UserId, now: Instant)
    requires uid < |st.users|
    ensures var v := Get(st, uid, now);
            && v.breakdown[0] == DayEarned(DayOf(now), v.todayEarned)
            && forall i :: 0 < i < |v.breakdown| ==> v.breakdown[i].day == v.breakdown[i - 1].day - 1
  {
  }

  /** The week window reaches back eight calendar days while the breakdown
      covers seven: an earning row dated seven days ago counts in the week's
      total but in no breakdown entry. */
  lemma WeekWindowSpansEightDays(st: State, uid: UserId, now: Instant, coins: int)
    requires uid < |st.users|
    requires st.ledger == [Tx(uid, Earn, coins, 0.0, (DayOf(now) - WeekDays) * SecondsPerDay)]
    ensures var v := Get(st, uid, now);
            && v.weekEarned == coins
            && forall i :: 0 <= i < |v.breakdown| ==> v.breakdown[i].coins == 0
  {
    var today := DayOf(now);
    var t := st.ledger[0];
    DayOfStart(today - WeekDays);
    SumSingle(t, EarningsSince(uid, today - WeekDays), CoinsOf());
    forall d | today - BreakdownDays < d <= today
      ensures EarnedOn(st.ledger, uid, d) == 0
    {
      SumSingle(t, EarningsOn(uid, d), CoinsOf());
    }
  }

  /** Active referrals are a subset of all referrals. */
  lemma ActiveReferralsBounded(st: State, uid: UserId, now: Instant)
    requires uid < |st.users|
    ensures Get(st, uid, now).activeReferrals <= Get(st, uid, now).totalReferrals
  {
    CountMonotone(st.users, ActiveReferralSince(uid, DayOf(now) - WeekDays), ReferredBy(uid));
  }

  /** The per-type counts of a list of distinct types add up to the count of
      attempts whose type is in the list. */
  function SumTypeCounts(st: State, uid: UserId, ks: seq<TaskType>): nat {
    if |ks| == 0 then 0 else TypeCount(st, uid, ks[0]) + SumTypeCounts(st, uid, ks[1..])
  }

  predicate Distinct(ks: seq<TaskType>) {
    forall i, j :: 0 <= i < j < |ks| ==> ks[i] != ks[j]
  }

  lemma {:induction false} TypeCountsAdd(st: State, uid: UserId, ks: seq<TaskType>)
    requires Distinct(ks)
    ensures Count(st.userTasks, CompletedOfKinds(uid, st.tasks, KindSet(ks))) == SumTypeCounts(st, uid, ks)
    decreases |ks|
  {
    if |ks| == 0 {
      assert KindSet(ks) == {};
      CountNone(st.userTasks, CompletedOfKinds(uid, st.tasks, KindSet(ks)));
    } else {
      var rest := ks[1..];
      TypeCountsAdd(st, uid, rest);
      assert KindSet(ks) == {ks[0]} + KindSet(rest);
      assert ks[0] !in KindSet(rest);
      CountSplit(st.userTasks, CompletedOfKinds(uid, st.tasks, KindSet(ks)),
                 CompletedOfKinds(uid, st.tasks, {ks[0]}), CompletedOfKinds(uid, st.tasks, KindSet(rest)));
    }
  }

  /** In a store whose attempts all name catalogue tasks, the `by_type` groups
      add up to the completed total. */
  lemma ByTypeAddsUp(st: State, uid: UserId)
    requires Valid(st)
    ensures Count(st.userTasks, Completed(uid)) == SumTypeCounts(st, uid, AllKinds)
  {
    TypeCountsAdd(st, uid, AllKinds);
    var all := CompletedOfKinds(uid, st.tasks, KindSet(AllKinds));
    EveryKindListed();
    CountMonotone(st.userTasks, Completed(uid), all);
    CountMonotone(st.userTasks, all, Completed(uid));
  }

  /** Creating a withdrawal raises the withdrawn total by the request's amount
      and the pending count by one. */
  lemma CreateCountsWithdrawn(st: State, uid: UserId, amountRs: Option<string>, payMethod: Option<string>,
                              accountId: Option<string>, now: Instant)
    requires uid < |st.users|
    requires CreateWithdrawal(st, uid, amountRs, payMethod, accountId, now).out.WithdrawCreated?
    ensures var r := CreateWithdrawal(st, uid, amountRs, payMethod, accountId, now);
            var amount := Price(st.settings, amountRs.value).amount;
            && TotalWithdrawn(r.st.ledger, uid) == TotalWithdrawn(st.ledger, uid) + amount
            && PendingCount(r.st.withdrawals, uid) == PendingCount(st.withdrawals, uid) + 1
  {
    var r := CreateWithdrawal(st, uid, amountRs, payMethod, accountId, now);
    var p := Price(st.settings, amountRs.value);
    SumRealAppend(st.ledger, Tx(uid, Withdraw, -p.coins, p.amount, now), WithdrawRows(uid), AmountOf());
    CountAppend(st.withdrawals, NewWithdrawRequest(uid, p.amount, payMethod.value, accountId.value, now), WithdrawalsIn(uid, Pending));
  }

  /** No admin decision touches the ledger, so a rejected (refunded) request
      stays counted in the withdrawn total. */
  lemma AdminKeepsWithdrawn(st: State, wid: nat, action: string, adminNote: Option<string>, now: Instant, uid: UserId)
    requires Valid(st)
    ensures TotalWithdrawn(AdminAction(st, wid, action, adminNote, now).st.ledger, uid) == TotalWithdrawn(st.ledger, uid)
  {
  }
}
