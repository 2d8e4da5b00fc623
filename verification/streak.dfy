/** The login streak (`core/views_streak.py`): a small state machine on the
    user's `login_streak`, `longest_streak` and `last_login_date`, paying a
    capped bonus on each consecutive day. */
module Streak {
  import opened Optional
  import opened Models
  import opened Ledger
  import opened Limiter

  /** The cap of the consecutive-day bonus. */
  const MaxStreakBonus: int := 50

  /** Which branch a login took. */
  datatype Branch = FirstLogin | SameDay | Consecutive | Reset

  /** The user after a login on day `today`, the bonus it pays and the
      branch taken. */
  datatype Visit = Visit(user: User, bonus: int, branch: Branch)

  /** The bonus for reaching a streak of `streak` days. */
  function StreakBonus(streak: int): (b: int)
    ensures b <= MaxStreakBonus
    ensures streak >= 0 ==> b >= 0
    ensures streak <= MaxStreakBonus / 2 ==> b == 2 * streak
    ensures streak >= MaxStreakBonus / 2 ==> b == MaxStreakBonus
  {
    Min(streak * 2, MaxStreakBonus)
  }

  /** The transition of `LoginStreakView.post` on the user record. A first
      ever login starts a streak of 1; a second login the same day changes
      nothing; the day after the last login extends the streak and pays
      `StreakBonus`; any other gap resets the streak to 1 and keeps the
      longest streak. Only the consecutive branch pays. */
  function Advance(u: User, today: Day): (v: Visit)
    ensures v.branch == FirstLogin <==> u.lastLoginDate.None?
    ensures v.branch == SameDay <==> u.lastLoginDate == Some(today)
    ensures v.branch == Consecutive <==> u.lastLoginDate == Some(today - 1)
    ensures v.branch == SameDay ==> v.user == u
    ensures v.branch != SameDay ==> v.user.lastLoginDate == Some(today)
    ensures v.branch != Consecutive ==> v.bonus == 0
    ensures v.branch == FirstLogin ==> v.user.loginStreak == 1 && v.user.longestStreak == Max(u.longestStreak, 1)
    ensures v.branch == Consecutive ==>
              && v.user.loginStreak == u.loginStreak + 1
              && v.user.longestStreak == Max(u.longestStreak, u.loginStreak + 1)
              && v.bonus == StreakBonus(u.loginStreak + 1)
    ensures v.branch == Reset ==> v.user.loginStreak == 1 && v.user.longestStreak == u.longestStreak
    ensures v.user == u.(loginStreak := v.user.loginStreak, longestStreak := v.user.longestStreak, lastLoginDate := v.user.lastLoginDate)
  {
    match u.lastLoginDate
    case None =>
      Visit(u.(loginStreak := 1, lastLoginDate := Some(today), longestStreak := Max(u.longestStreak, 1)), 0, FirstLogin)
    case Some(last) =>
      if last == today then Visit(u, 0, SameDay)
      else if today - last == 1 then
        var streak := u.loginStreak + 1;
        Visit(u.(loginStreak := streak, lastLoginDate := Some(today), longestStreak := Max(u.longestStreak, streak)),
              StreakBonus(streak), Consecutive)
      else Visit(u.(loginStreak := 1, lastLoginDate := Some(today)), 0, Reset)
  }

  /** The reply of the post: the current streak and the bonus paid. */
  datatype Reply = Reply(streak: int, bonus: int)

  /** `LoginStreakView.post`: apply `Advance` and, on a consecutive day, credit
      the bonus through one `bonus` row. */
  function Login(st: State, uid: UserId, now: Instant): (r: Step<Reply>)
    requires uid < |st.users|
    ensures var v := Advance(st.users[uid], DayOf(now));
            && r.out == Reply(v.user.loginStreak, v.bonus)
            && |r.st.users| == |st.users|
            && r.st.users[uid] == v.user.(coinsBalance := st.users[uid].coinsBalance + v.bonus)
            && (v.branch == Consecutive ==> PostedOnce(st, r.st, Tx(uid, Bonus, v.bonus, 0.0, now)))
            && (v.branch != Consecutive ==> r.st == st.(users := st.users[uid := v.user]))
    ensures r.st == st.(users := r.st.users, ledger := r.st.ledger)
    ensures Valid(st) ==> Valid(r.st)
  {
    var v := Advance(st.users[uid], DayOf(now));
    var st1 := SetUser(st, uid, v.user);
    if v.branch == Consecutive then Step(Post(st1, uid, Bonus, v.bonus, 0.0, now), Reply(v.user.loginStreak, v.bonus))
    else Step(st1, Reply(v.user.loginStreak, 0))
  }

  /** The counters a login maintains: a non-negative streak no longer than
      the longest, and at least 1 once a login date is recorded. */
  predicate StreakInvariant(u: User) {
    && 0 <= u.loginStreak <= u.longestStreak
    && (u.lastLoginDate.Some? ==> u.loginStreak >= 1)
  }

  /** A new account satisfies the invariant and every login keeps it. */
  lemma AdvanceKeepsInvariant(u: User, today: Day)
    ensures StreakInvariant(NewUser(u.username, u.refCode, u.referredBy))
    ensures StreakInvariant(u) ==> StreakInvariant(Advance(u, today).user)
  {
  }

  /** Without the invariant a reset can leave the streak above the longest
      streak: the invariant is what the handler relies on. */
  lemma ResetNeedsInvariant(u: User, today: Day)
    requires u.lastLoginDate.Some? && u.lastLoginDate.value != today && u.lastLoginDate.value != today - 1
    requires u.longestStreak < 1
    ensures Advance(u, today).user.loginStreak > Advance(u, today).user.longestStreak
  {
  }

  /** The bonus is between 0 and 50 for any user the invariant holds of, and
      positive exactly on a consecutive day. */
  lemma BonusBounds(u: User, today: Day)
    requires StreakInvariant(u)
    ensures 0 <= Advance(u, today).bonus <= MaxStreakBonus
    ensures Advance(u, today).bonus > 0 <==> Advance(u, today).branch == Consecutive
  {
  }

  /** Idempotent within a day: a second login on the same day pays nothing and
      changes nothing. */
  lemma LoginIdempotentWithinDay(st: State, uid: UserId, now: Instant, later: Instant)
    requires uid < |st.users| && DayOf(later) == DayOf(now)
    ensures var first := Login(st, uid, now);
            var second := Login(first.st, uid, later);
            && second.st == first.st
            && second.out == Reply(first.out.streak, 0)
  {
  }

  /** Logins keep every balance equal to its ledger sum. */
  lemma LoginReconciles(st: State, uid: UserId, now: Instant)
    requires uid < |st.users| && Reconciled(st)
    ensures Reconciled(Login(st, uid, now).st)
  {
    var v := Advance(st.users[uid], DayOf(now));
    var r := Login(st, uid, now);
    if v.branch == Consecutive {
      PostedOnceReconciles(st, r.st, Tx(uid, Bonus, v.bonus, 0.0, now));
    } else {
      BalancesKept(st, r.st);
    }
  }

  /** Logins on `n` successive days starting at `first`. */
  function AdvanceDays(u: User, first: Day, n: nat): User
    decreases n
  {
    if n == 0 then u else AdvanceDays(Advance(u, first).user, first + 1, n - 1)
  }

  /** Logging in on `n` consecutive days right after the last login raises
      the streak by `n`, and the longest streak follows it. */
  lemma {:induction false} ConsecutiveRun(u: User, first: Day, n: nat)
    requires u.lastLoginDate == Some(first - 1) && u.loginStreak <= u.longestStreak
    ensures AdvanceDays(u, first, n).loginStreak == u.loginStreak + n
    ensures n > 0 ==> AdvanceDays(u, first, n).lastLoginDate == Some(first + n - 1)
    ensures AdvanceDays(u, first, n).longestStreak == Max(u.longestStreak, u.loginStreak + n)
    decreases n
  {
    if n > 0 {
      var v := Advance(u, first);
      ConsecutiveRun(v.user, first + 1, n - 1);
    }
  }

  /** The reply of `LoginStreakView.get`. */
  datatype Status = Status(currentStreak: int, longestStreak: int, lastLogin: Option<Day>, isActive: bool)

  /** The streak is active while the last login is today or yesterday, so
      that a login today would extend or keep it. */
  function GetStatus(u: User, today: Day): (s: Status)
    ensures s.currentStreak == u.loginStreak && s.longestStreak == u.longestStreak && s.lastLogin == u.lastLoginDate
    ensures s.isActive <==> Advance(u, today).branch in {SameDay, Consecutive}
  {
    var active := u.lastLoginDate == Some(today) || (u.lastLoginDate.Some? && today - u.lastLoginDate.value == 1);
    Status(u.loginStreak, u.longestStreak, u.lastLoginDate, active)
  }

  /** Right after a login the streak is reported active, and it stays active
      the next day but not the day after. */
  lemma ActiveAfterLogin(u: User, today: Day)
    ensures GetStatus(Advance(u, today).user, today).isActive
    ensures GetStatus(Advance(u, today).user, today + 1).isActive
    ensures !GetStatus(Advance(u, today).user, today + 2).isActive
  {
  }
}
