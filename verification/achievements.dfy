/** The badges of `core/views_achievements.py`: cumulative threshold badges in
    five families, and for earnings and tasks the next milestone still locked.
    A badge is identified by its family and threshold; names, icons and
    display text are presentation. */
module Achievements {
  import opened Optional
  import opened Models
  import opened Aggregates
  import opened Queries
  import opened Ledger
  import Registration

  datatype Family = Earner | Tasker | Streaker | Referrer | Withdrawer

  datatype Badge = Badge(family: Family, threshold: int)

  /** The thresholds of each family, ascending. */
  function Thresholds(f: Family): seq<int> {
    match f
    case Earner => [1000, 5000, 10000]
    case Tasker => [10, 50, 100]
    case Streaker => [7, 30]
    case Referrer => [5, 20]
    case Withdrawer => [1, 10]
  }

  predicate Ascending(ths: seq<int>) {
    forall i, j :: 0 <= i < j < |ths| ==> ths[i] < ths[j]
  }

  lemma ThresholdsAscending(f: Family)
    ensures Ascending(Thresholds(f))
  {
  }

  /** The thresholds reached by `value`, in order. */
  function Reached(ths: seq<int>, value: int): (r: seq<int>)
    ensures |r| <= |ths|
    ensures forall t :: t in r <==> t in ths && t <= value
  {
    if |ths| == 0 then []
    else (if ths[0] <= value then [ths[0]] else []) + Reached(ths[1..], value)
  }

  /** The first threshold not yet reached, as the chained conditional of the
      source computes it. */
  function NextMilestone(ths: seq<int>, value: int): (r: Option<int>)
    ensures r.Some? ==> r.value in ths && value < r.value
    ensures r.None? <==> forall i :: 0 <= i < |ths| ==> ths[i] <= value
  {
    if |ths| == 0 then None
    else if value < ths[0] then Some(ths[0])
    else NextMilestone(ths[1..], value)
  }

  /** On ascending thresholds the reached ones are a prefix, and the next
      milestone is the threshold right after it: the smallest one above the
      value. */
  lemma {:induction false} ReachedIsPrefix(ths: seq<int>, value: int)
    requires Ascending(ths)
    ensures var k := |Reached(ths, value)|;
            && Reached(ths, value) == ths[..k]
            && (k < |ths| ==> NextMilestone(ths, value) == Some(ths[k]))
            && (k == |ths| <==> NextMilestone(ths, value).None?)
    decreases |ths|
  {
    if |ths| > 0 {
      var rest := ths[1..];
      if ths[0] > value {
        NoneReached(rest, value);
      } else {
        ReachedIsPrefix(rest, value);
        var k := |Reached(rest, value)|;
        assert ths[..k + 1] == [ths[0]] + rest[..k];
      }
    }
  }

  /** On ascending thresholds the next milestone is the least threshold
      above the value. */
  lemma {:induction false} NextIsLeast(ths: seq<int>, value: int)
    requires Ascending(ths)
    ensures NextMilestone(ths, value).Some? ==>
              forall i :: 0 <= i < |ths| && ths[i] > value ==> NextMilestone(ths, value).value <= ths[i]
    decreases |ths|
  {
    if |ths| > 0 && value >= ths[0] {
      NextIsLeast(ths[1..], value);
      forall i | 1 <= i < |ths| && ths[i] > value
        ensures NextMilestone(ths, value).Some? ==> NextMilestone(ths, value).value <= ths[i]
      {
        assert ths[i] == ths[1..][i - 1];
      }
    }
  }

  /** Nothing is reached when every threshold is above the value. */
  lemma {:induction false} NoneReached(ths: seq<int>, value: int)
    requires forall i :: 0 <= i < |ths| ==> ths[i] > value
    ensures Reached(ths, value) == []
    decreases |ths|
  {
    if |ths| > 0 {
      NoneReached(ths[1..], value);
    }
  }

  /** Badges are cumulative: reaching a threshold reaches every lower one of
      the same family. */
  lemma Cumulative(f: Family, value: int, t: int, lower: int)
    requires t in Reached(Thresholds(f), value)
    requires lower in Thresholds(f) && lower <= t
    ensures lower in Reached(Thresholds(f), value)
  {
  }

  /** The figures the badges are measured on. */
  datatype Metrics = Metrics(totalEarned: int, totalTasks: int, loginStreak: int, totalReferrals: int, settledWithdrawals: int)

  /** The five queries of the view for user `uid`. */
  function MetricsOf(st: State, uid: UserId): (m: Metrics)
    requires uid < |st.users|
    ensures m.totalEarned == Sum(st.ledger, Earnings(uid), CoinsOf())
    ensures m.totalTasks == Count(st.userTasks, Completed(uid))
    ensures m.loginStreak == st.users[uid].loginStreak
    ensures m.totalReferrals == Count(st.users, ReferredBy(uid))
    ensures m.settledWithdrawals == Count(st.withdrawals, WithdrawalsSettled(uid))
  {
    Metrics(Sum(st.ledger, Earnings(uid), CoinsOf()), Count(st.userTasks, Completed(uid)), st.users[uid].loginStreak,
            Count(st.users, ReferredBy(uid)), Count(st.withdrawals, WithdrawalsSettled(uid)))
  }

  function MeasureOf(m: Metrics, f: Family): int {
    match f
    case Earner => m.totalEarned
    case Tasker => m.totalTasks
    case Streaker => m.loginStreak
    case Referrer => m.totalReferrals
    case Withdrawer => m.settledWithdrawals
  }

  function BadgesOf(f: Family, ths: seq<int>): (bs: seq<Badge>)
    ensures |bs| == |ths|
    ensures forall i :: 0 <= i < |ths| ==> bs[i] == Badge(f, ths[i])
    ensures forall b :: b in bs <==> b.family == f && b.threshold in ths
  {
    if |ths| == 0 then [] else [Badge(f, ths[0])] + BadgesOf(f, ths[1..])
  }

  function UnlockedIn(m: Metrics, f: Family): (bs: seq<Badge>)
    ensures forall b :: b in bs <==> b.family == f && b.threshold in Thresholds(f) && b.threshold <= MeasureOf(m, f)
    ensures |bs| == |Reached(Thresholds(f), MeasureOf(m, f))|
    ensures forall i :: 0 <= i < |bs| ==> bs[i].family == f
    ensures InListingOrder(bs)
  {
    var ths := Reached(Thresholds(f), MeasureOf(m, f));
    ThresholdsAscending(f);
    ReachedIsPrefix(Thresholds(f), MeasureOf(m, f));
    assert Ascending(ths);
    BadgesOf(f, ths)
  }

  /** The position of a family's section in the view. */
  function Rank(f: Family): nat {
    match f
    case Earner => 0
    case Tasker => 1
    case Streaker => 2
    case Referrer => 3
    case Withdrawer => 4
  }

  /** The view lists badges family by family, each family by threshold. */
  predicate ListedBefore(a: Badge, b: Badge) {
    Rank(a.family) < Rank(b.family) || (a.family == b.family && a.threshold < b.threshold)
  }

  predicate InListingOrder(bs: seq<Badge>) {
    forall i, j :: 0 <= i < j < |bs| ==> ListedBefore(bs[i], bs[j])
  }

  /** Appending a family's unlocked badges after badges of earlier families
      keeps the listing order. */
  lemma AppendFamily(a: seq<Badge>, m: Metrics, f: Family)
    requires InListingOrder(a)
    requires forall i :: 0 <= i < |a| ==> Rank(a[i].family) < Rank(f)
    ensures InListingOrder(a + UnlockedIn(m, f))
    ensures forall i :: 0 <= i < |a + UnlockedIn(m, f)| ==> Rank((a + UnlockedIn(m, f))[i].family) <= Rank(f)
  {
    var b := UnlockedIn(m, f);
    var c := a + b;
    forall i, j | 0 <= i < j < |c|
      ensures ListedBefore(c[i], c[j])
    {
      if j < |a| {
        assert c[i] == a[i] && c[j] == a[j];
      } else if i < |a| {
        assert c[i] == a[i] && c[j] == b[j - |a|];
      } else {
        assert c[i] == b[i - |a|] && c[j] == b[j - |a|];
      }
    }
    forall i | 0 <= i < |c|
      ensures Rank(c[i].family) <= Rank(f)
    {
      if i >= |a| {
        assert c[i] == b[i - |a|];
      }
    }
  }

  /** Every unlocked badge, family by family in the view's order. */
  function AllUnlocked(m: Metrics): (bs: seq<Badge>)
    ensures InListingOrder(bs)
    ensures |bs| == |Reached(Thresholds(Earner), m.totalEarned)| + |Reached(Thresholds(Tasker), m.totalTasks)|
                    + |Reached(Thresholds(Streaker), m.loginStreak)| + |Reached(Thresholds(Referrer), m.totalReferrals)|
                    + |Reached(Thresholds(Withdrawer), m.settledWithdrawals)|
    ensures forall b :: b in bs <==> b in UnlockedIn(m, b.family)
  {
    var e := UnlockedIn(m, Earner);
    AppendFamily(e, m, Tasker);
    var et := e + UnlockedIn(m, Tasker);
    AppendFamily(et, m, Streaker);
    var ets := et + UnlockedIn(m, Streaker);
    AppendFamily(ets, m, Referrer);
    var etsr := ets + UnlockedIn(m, Referrer);
    AppendFamily(etsr, m, Withdrawer);
    etsr + UnlockedIn(m, Withdrawer)
  }

  /** A locked entry: the badge, the current figure and its target. */
  datatype Locked = Locked(badge: Badge, progress: int, target: int)

  /** The locked entry of a family: its next milestone, the least threshold
      above the family's figure, when there is one. */
  function LockedIn(m: Metrics, f: Family): (l: seq<Locked>)
    ensures |l| <= 1
    ensures l == [] <==> forall i :: 0 <= i < |Thresholds(f)| ==> Thresholds(f)[i] <= MeasureOf(m, f)
    ensures l != [] ==>
              && l[0].badge == Badge(f, l[0].target)
              && l[0].progress == MeasureOf(m, f) && l[0].progress < l[0].target
              && l[0].target in Thresholds(f)
              && forall i :: 0 <= i < |Thresholds(f)| && Thresholds(f)[i] > MeasureOf(m, f) ==> l[0].target <= Thresholds(f)[i]
  {
    ThresholdsAscending(f);
    NextIsLeast(Thresholds(f), MeasureOf(m, f));
    match NextMilestone(Thresholds(f), MeasureOf(m, f))
    case None => []
    case Some(t) => [Locked(Badge(f, t), MeasureOf(m, f), t)]
  }

  datatype View = View(unlocked: seq<Badge>, locked: seq<Locked>, totalUnlocked: int, totalAvailable: int)

  /** `AchievementsView.get`: the unlocked badges family by family, and the
      next earning and task milestones when there is one. */
  function Get(m: Metrics): (v: View)
    ensures v.totalUnlocked == |v.unlocked|
    ensures v.totalAvailable == |v.unlocked| + |v.locked|
    ensures |v.locked| <= 2
    ensures v.locked == LockedIn(m, Earner) + LockedIn(m, Tasker)
    ensures InListingOrder(v.unlocked)
    ensures v.totalUnlocked == |Reached(Thresholds(Earner), m.totalEarned)| + |Reached(Thresholds(Tasker), m.totalTasks)|
                               + |Reached(Thresholds(Streaker), m.loginStreak)| + |Reached(Thresholds(Referrer), m.totalReferrals)|
                               + |Reached(Thresholds(Withdrawer), m.settledWithdrawals)|
  {
    var unlocked := AllUnlocked(m);
    var locked := LockedIn(m, Earner) + LockedIn(m, Tasker);
    View(unlocked, locked, |unlocked|, |unlocked| + |locked|)
  }

  /** A badge is listed as unlocked exactly when its family's figure reaches
      its threshold. */
  lemma UnlockedExactly(m: Metrics, b: Badge)
    ensures b in Get(m).unlocked <==> b.threshold in Thresholds(b.family) && b.threshold <= MeasureOf(m, b.family)
  {
    var v := Get(m);
    assert b in v.unlocked <==> b in UnlockedIn(m, b.family);
  }

  /** A locked entry is an earning or task badge not yet unlocked, with its
      figure below its target. */
  lemma LockedNotUnlocked(m: Metrics, l: Locked)
    requires l in Get(m).locked
    ensures l.badge.family == Earner || l.badge.family == Tasker
    ensures l.progress < l.target && l.badge.threshold == l.target
    ensures l.badge !in Get(m).unlocked
  {
    var f := if l in LockedIn(m, Earner) then Earner else Tasker;
    assert l == LockedIn(m, f)[0];
    UnlockedExactly(m, l.badge);
  }

  /** A `Post` moves the poster's earning total by the posted coins when the
      row is an earning row, and leaves every other figure of every user as
      it was. */
  lemma PostMovesTotalEarned(st: State, owner: UserId, kind: TxKind, coins: int, amountRs: real, now: Instant, uid: UserId)
    requires owner < |st.users| && uid < |st.users|
    ensures var before, after := MetricsOf(st, uid), MetricsOf(Post(st, owner, kind, coins, amountRs, now), uid);
            && after.totalEarned == before.totalEarned + (if owner == uid && kind.IsEarning() then coins else 0)
            && after.totalTasks == before.totalTasks && after.loginStreak == before.loginStreak
            && after.totalReferrals == before.totalReferrals && after.settledWithdrawals == before.settledWithdrawals
  {
    var st' := Post(st, owner, kind, coins, amountRs, now);
    SumAppend(st.ledger, Tx(owner, kind, coins, amountRs, now), Earnings(uid), CoinsOf());
    CountPointwise(st.users, st'.users, ReferredBy(uid));
  }

  /** A referred sign-up adds one to the referrer's referral count and the
      50-coin referral bonus to the referrer's earning total. */
  lemma EnrolCountsReferral(st: State, username: string, code: string, ref: UserId, now: Instant)
    requires ref < |st.users|
    ensures var st' := Registration.Enrol(st, username, code, Some(ref), now);
            && MetricsOf(st', ref).totalReferrals == MetricsOf(st, ref).totalReferrals + 1
            && MetricsOf(st', ref).totalEarned == MetricsOf(st, ref).totalEarned + Registration.ReferrerBonus
  {
    var st' := Registration.Enrol(st, username, code, Some(ref), now);
    var n := |st.users|;
    var first := Tx(ref, Referral, Registration.ReferrerBonus, 0.0, now);
    var second := Tx(n, Bonus, Registration.NewcomerBonus, 0.0, now);
    assert st'.users == st'.users[..n] + [st'.users[n]];
    CountPointwise(st.users, st'.users[..n], ReferredBy(ref));
    CountAppend(st'.users[..n], st'.users[n], ReferredBy(ref));
    assert st'.ledger == st.ledger + [first] + [second];
    SumAppend(st.ledger, first, Earnings(ref), CoinsOf());
    SumAppend(st.ledger + [first], second, Earnings(ref), CoinsOf());
  }

  /** Every family is either fully unlocked or offers its next milestone, and
      the next milestone is the threshold right after the unlocked ones. */
  lemma NextFollowsUnlocked(m: Metrics, f: Family)
    ensures var ths := Thresholds(f);
            var k := |Reached(ths, MeasureOf(m, f))|;
            && (k == |ths| <==> NextMilestone(ths, MeasureOf(m, f)).None?)
            && (k < |ths| ==> NextMilestone(ths, MeasureOf(m, f)) == Some(ths[k]))
  {
    ThresholdsAscending(f);
    ReachedIsPrefix(Thresholds(f), MeasureOf(m, f));
  }
}
