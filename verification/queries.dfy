/** The row filters the read-side views share: a user's earning rows
    (`type__in=["earn", "bonus", "referral"]`) over a date window, a user's
    completed task attempts over a date window, the users a user referred,
    and a user's withdrawal requests by status. Each filter is one named
    function so that the same query is the same term everywhere. */
module Queries {
  import opened Optional
  import opened Models
  import opened Aggregates

  /** An earning row of `uid`, of any date. */
  predicate EarningRow(uid: UserId, t: WalletTransaction) {
    t.user == uid && t.kind.IsEarning()
  }

  function Earnings(uid: UserId): WalletTransaction -> bool {
    t => EarningRow(uid, t)
  }

  /** `created_at__date=day`. */
  function EarningsOn(uid: UserId, day: Day): WalletTransaction -> bool {
    t => EarningRow(uid, t) && DayOf(t.createdAt) == day
  }

  /** `created_at__date__gte=since`. */
  function EarningsSince(uid: UserId, since: Day): WalletTransaction -> bool {
    t => EarningRow(uid, t) && DayOf(t.createdAt) >= since
  }

  function CoinsOf(): WalletTransaction -> int {
    (t: WalletTransaction) => t.coins
  }

  /** A completed attempt of `uid`, of any date. */
  predicate CompletedRow(uid: UserId, ut: UserTask) {
    ut.user == uid && ut.status == TaskCompleted
  }

  function Completed(uid: UserId): UserTask -> bool {
    ut => CompletedRow(uid, ut)
  }

  /** `completed_at__date=day`; an attempt without a completion time has no date. */
  function CompletedOn(uid: UserId, day: Day): UserTask -> bool {
    ut => CompletedRow(uid, ut) && ut.completedAt.Some? && DayOf(ut.completedAt.value) == day
  }

  /** `completed_at__date__gte=since`. */
  function CompletedSince(uid: UserId, since: Day): UserTask -> bool {
    ut => CompletedRow(uid, ut) && ut.completedAt.Some? && DayOf(ut.completedAt.value) >= since
  }

  /** The coins `uid` earned on `day`. */
  function EarnedOn(ledger: seq<WalletTransaction>, uid: UserId, day: Day): int {
    Sum(ledger, EarningsOn(uid, day), CoinsOf())
  }

  /** The attempts `uid` completed on `day`. */
  function CompletedCountOn(userTasks: seq<UserTask>, uid: UserId, day: Day): nat {
    Count(userTasks, CompletedOn(uid, day))
  }

  /** `user.referrals`: the users whose referrer is `uid`. */
  function ReferredBy(uid: UserId): User -> bool {
    (u: User) => u.referredBy == Some(uid)
  }

  /** `user.referrals.filter(last_earn_date__gte=since)`; a user who never
      earned has no date and is not counted. */
  function ActiveReferralSince(uid: UserId, since: Day): User -> bool {
    (u: User) => u.referredBy == Some(uid) && u.lastEarnDate.Some? && u.lastEarnDate.value >= since
  }

  /** `user.withdrawals.filter(status=...)` for one status. */
  function WithdrawalsIn(uid: UserId, status: WithdrawStatus): WithdrawRequest -> bool {
    (w: WithdrawRequest) => w.user == uid && w.status == status
  }

  /** `user.withdrawals.filter(status__in=["approved", "paid"])`. */
  function WithdrawalsSettled(uid: UserId): WithdrawRequest -> bool {
    (w: WithdrawRequest) => w.user == uid && (w.status == Approved || w.status == Paid)
  }
}
