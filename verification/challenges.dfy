/** The daily challenges (`core/views_challenges.py`): three threshold
    conditions re-checked on every request, each paying a fixed bonus. There
    is no record of a claim, so a met challenge pays on every claim. */
module Challenges {
  import opened Optional
  import opened Models
  import opened Ledger
  import opened Aggregates
  import opened Queries

  datatype Challenge = CompleteThreeTasks | EarnHundredCoins | ThreeDayStreak

  /** The three challenges in the order the listing shows them. */
  const AllChallenges: seq<Challenge> := [CompleteThreeTasks, EarnHundredCoins, ThreeDayStreak]

  /** The `challenge_id` of each challenge. */
  function Id(c: Challenge): string {
    match c
    case CompleteThreeTasks => "complete_3_tasks"
    case EarnHundredCoins => "earn_100_coins"
    case ThreeDayStreak => "streak_3_days"
  }

  /** The challenge a request names, if any. */
  function FromId(id: Option<string>): (c: Option<Challenge>)
    ensures c.Some? ==> id == Some(Id(c.value))
    ensures c.None? ==> forall k :: 0 <= k < |AllChallenges| ==> id != Some(Id(AllChallenges[k]))
  {
    if id == Some(Id(CompleteThreeTasks)) then Some(CompleteThreeTasks)
    else if id == Some(Id(EarnHundredCoins)) then Some(EarnHundredCoins)
    else if id == Some(Id(ThreeDayStreak)) then Some(ThreeDayStreak)
    else None
  }

  /** The ids are distinct, so every challenge is found by its own id. */
  lemma IdRoundTrip(c: Challenge)
    ensures FromId(Some(Id(c))) == Some(c)
  {
  }

  function Target(c: Challenge): int {
    match c
    case CompleteThreeTasks => 3
    case EarnHundredCoins => 100
    case ThreeDayStreak => 3
  }

  function RewardOf(c: Challenge): int {
    match c
    case CompleteThreeTasks => 30
    case EarnHundredCoins => 50
    case ThreeDayStreak => 20
  }

  /** The measured progress: completed attempts today, coins earned today
      (earn, bonus and referral rows), or the current login streak. */
  function Progress(st: State, uid: UserId, c: Challenge, today: Day): int
    requires uid < |st.users|
  {
    match c
    case CompleteThreeTasks => CompletedCountOn(st.userTasks, uid, today)
    case EarnHundredCoins => EarnedOn(st.ledger, uid, today)
    case ThreeDayStreak => st.users[uid].loginStreak
  }

  /** A challenge is met when its progress reaches its target. */
  predicate Met(st: State, uid: UserId, c: Challenge, today: Day)
    requires uid < |st.users|
  {
    Progress(st, uid, c, today) >= Target(c)
  }

  /** One entry of the listing; `claimed` is always false. */
  datatype Entry = Entry(id: string, progress: int, target: int, reward: int, completed: bool, claimed: bool)

  datatype Listing = Listing(entries: seq<Entry>, totalRewardsAvailable: int, date: Day)

  function EntryFor(st: State, uid: UserId, c: Challenge, today: Day): Entry
    requires uid < |st.users|
  {
    Entry(Id(c), Progress(st, uid, c, today), Target(c), RewardOf(c), Met(st, uid, c, today), false)
  }

  /** The reward an entry offers now: its reward when completed and not
      claimed. */
  function Available(e: Entry): int {
    if e.completed && !e.claimed then e.reward else 0
  }

  /** `DailyChallengesView.get`. */
  function List(st: State, uid: UserId, now: Instant): (l: Listing)
    requires uid < |st.users|
    ensures |l.entries| == |AllChallenges|
    ensures forall k :: 0 <= k < |AllChallenges| ==>
              && l.entries[k].id == Id(AllChallenges[k])
              && l.entries[k].progress == Progress(st, uid, AllChallenges[k], DayOf(now))
              && l.entries[k].target == Target(AllChallenges[k])
              && l.entries[k].reward == RewardOf(AllChallenges[k])
              && (l.entries[k].completed <==> l.entries[k].progress >= l.entries[k].target)
              && (l.entries[k].completed <==> Met(st, uid, AllChallenges[k], DayOf(now)))
              && !l.entries[k].claimed
    ensures l.date == DayOf(now)
    ensures l.totalRewardsAvailable ==
              (if Met(st, uid, CompleteThreeTasks, DayOf(now)) then 30 else 0)
              + (if Met(st, uid, EarnHundredCoins, DayOf(now)) then 50 else 0)
              + (if Met(st, uid, ThreeDayStreak, DayOf(now)) then 20 else 0)
    ensures 0 <= l.totalRewardsAvailable <= 100
  {
    var today := DayOf(now);
    var es := [EntryFor(st, uid, CompleteThreeTasks, today), EntryFor(st, uid, EarnHundredCoins, today),
               EntryFor(st, uid, ThreeDayStreak, today)];
    Listing(es, Available(es[0]) + Available(es[1]) + Available(es[2]), today)
  }

  /** The listing and the claim agree: claiming a listed entry's id the same
      day pays exactly when the entry shows completed, and pays the reward it
      shows. */
  lemma ListingMatchesClaim(st: State, uid: UserId, now: Instant, k: nat)
    requires uid < |st.users| && k < |AllChallenges|
    ensures var e := List(st, uid, now).entries[k];
            var r := Claim(st, uid, Some(e.id), now);
            && (r.out.ChallengeClaimed? <==> e.completed)
            && (e.completed ==> r.out.reward == e.reward)
  {
    IdRoundTrip(AllChallenges[k]);
  }

  datatype Outcome = NotCompleted | ChallengeClaimed(reward: int) {
    function Status(): int {
      match this
      case NotCompleted => 400
      case ChallengeClaimed(_) => 200
    }
  }

  /** `DailyChallengesView.post`: an unknown id or an unmet challenge is 400
      with no change; a met one pays its reward through one `bonus` row. */
  function Claim(st: State, uid: UserId, id: Option<string>, now: Instant): (r: Step<Outcome>)
    requires uid < |st.users|
    ensures r.out == NotCompleted <==> FromId(id).None? || !Met(st, uid, FromId(id).value, DayOf(now))
    ensures r.out == NotCompleted ==> r.st == st
    ensures r.out.ChallengeClaimed? ==>
              && r.out.reward == RewardOf(FromId(id).value)
              && PostedAlone(st, r.st, Tx(uid, Bonus, r.out.reward, 0.0, now))
              && r.st == st.(users := r.st.users, ledger := r.st.ledger)
    ensures Valid(st) ==> Valid(r.st)
  {
    match FromId(id)
    case None => Step(st, NotCompleted)
    case Some(c) =>
      if !Met(st, uid, c, DayOf(now)) then Step(st, NotCompleted)
      else Step(Post(st, uid, Bonus, RewardOf(c), 0.0, now), ChallengeClaimed(RewardOf(c)))
  }

  /** A claim keeps every balance equal to its ledger sum. */
  lemma ClaimReconciles(st: State, uid: UserId, id: Option<string>, now: Instant)
    requires uid < |st.users| && Reconciled(st)
    ensures Reconciled(Claim(st, uid, id, now).st)
  {
    var r := Claim(st, uid, id, now);
    if r.out.ChallengeClaimed? {
      PostedOnceReconciles(st, r.st, Tx(uid, Bonus, r.out.reward, 0.0, now));
    }
  }

  /** A claim leaves its own challenge met: the task count and the streak are
      untouched, and the claim's bonus row is itself earned today. */
  lemma {:induction false} ClaimKeepsMet(st: State, uid: UserId, id: Option<string>, now: Instant)
    requires uid < |st.users|
    requires Claim(st, uid, id, now).out.ChallengeClaimed?
    ensures Met(Claim(st, uid, id, now).st, uid, FromId(id).value, DayOf(now))
  {
    var c := FromId(id).value;
    var r := Claim(st, uid, id, now);
    var row := Tx(uid, Bonus, RewardOf(c), 0.0, now);
    SumAppend(st.ledger, row, EarningsOn(uid, DayOf(now)), CoinsOf());
    assert r.st.ledger == st.ledger + [row];
  }

  /** With no claim record, claiming a met challenge twice pays twice. */
  lemma ClaimTwicePaysTwice(st: State, uid: UserId, id: Option<string>, now: Instant, later: Instant)
    requires uid < |st.users| && DayOf(later) == DayOf(now)
    requires Claim(st, uid, id, now).out.ChallengeClaimed?
    ensures var first := Claim(st, uid, id, now);
            var second := Claim(first.st, uid, id, later);
            && second.out == first.out
            && second.st.users[uid].coinsBalance == st.users[uid].coinsBalance + 2 * RewardOf(FromId(id).value)
            && |second.st.ledger| == |st.ledger| + 2
  {
    ClaimKeepsMet(st, uid, id, now);
  }
}
