/** The daily bonus (`core/views_daily_bonus.py`): one claim per calendar day
    of a configurable number of coins, paid through one `bonus` row. */
module DailyBonus {
  import opened Optional
  import opened Text
  import opened Models
  import opened Ledger

  const BonusKey: string := "DAILY_BONUS_COINS"
  /** The fallback amount, and its text as stored in the source. */
  const DefaultBonus: int := 20
  const DefaultBonusText: string := "20"

  /** `int(Settings.get_value("DAILY_BONUS_COINS", "20"))`, with 20 when the
      stored text is not an integer. */
  function BonusAmount(settings: map<string, string>): (b: int)
    ensures BonusKey !in settings ==> b == DefaultBonus
    ensures BonusKey in settings && ParseInt(settings[BonusKey]).None? ==> b == DefaultBonus
    ensures BonusKey in settings && ParseInt(settings[BonusKey]).Some? ==> b == ParseInt(settings[BonusKey]).value
  {
    if BonusKey !in settings then DefaultBonus
    else match ParseInt(settings[BonusKey])
      case None => DefaultBonus
      case Some(n) => n
  }

  /** The value fallback agrees with parsing the default text. */
  lemma DefaultTextParses(settings: map<string, string>)
    ensures BonusAmount(settings) == ParseInt(GetValue(settings, BonusKey, DefaultBonusText)).GetOr(DefaultBonus)
  {
    if BonusKey !in settings {
      assert ShowInt(DefaultBonus) == DefaultBonusText;
      ParseShowInt(DefaultBonus);
    }
  }

  /** The reply of `DailyBonusView.get`. */
  datatype Status = Status(alreadyClaimed: bool, bonusAmount: int, lastClaimed: Option<Day>)

  /** `DailyBonusView.get`: reads only. */
  function GetStatus(st: State, uid: UserId, now: Instant): (s: Status)
    requires uid < |st.users|
    ensures s.alreadyClaimed <==> st.users[uid].dailyBonusClaimed == Some(DayOf(now))
    ensures s.bonusAmount == BonusAmount(st.settings)
    ensures s.lastClaimed == st.users[uid].dailyBonusClaimed
  {
    var u := st.users[uid];
    Status(u.dailyBonusClaimed == Some(DayOf(now)), BonusAmount(st.settings), u.dailyBonusClaimed)
  }

  datatype Outcome = AlreadyClaimed | Claimed(coins: int) {
    function Status(): int {
      match this
      case AlreadyClaimed => 400
      case Claimed(_) => 200
    }
  }

  /** `DailyBonusView.post`: a second claim on the same day is 400 with no
      change; otherwise the bonus is credited through one `bonus` row and the
      claim day recorded. */
  function Claim(st: State, uid: UserId, now: Instant): (r: Step<Outcome>)
    requires uid < |st.users|
    ensures r.out == AlreadyClaimed <==> st.users[uid].dailyBonusClaimed == Some(DayOf(now))
    ensures r.out == AlreadyClaimed ==> r.st == st
    ensures r.out.Claimed? ==>
              && r.out.coins == BonusAmount(st.settings)
              && PostedOnce(st, r.st, Tx(uid, Bonus, r.out.coins, 0.0, now))
              && r.st.users[uid] == st.users[uid].(coinsBalance := st.users[uid].coinsBalance + r.out.coins,
                                                   dailyBonusClaimed := Some(DayOf(now)))
              && r.st == st.(users := r.st.users, ledger := r.st.ledger)
    ensures Valid(st) ==> Valid(r.st)
  {
    var u := st.users[uid];
    if u.dailyBonusClaimed == Some(DayOf(now)) then Step(st, AlreadyClaimed)
    else
      var bonus := BonusAmount(st.settings);
      var st1 := SetUser(st, uid, u.(dailyBonusClaimed := Some(DayOf(now))));
      Step(Post(st1, uid, Bonus, bonus, 0.0, now), Claimed(bonus))
  }

  /** Two claims on the same day credit once: the second is refused and
      changes nothing, so the ledger grew by at most one row. */
  lemma {:induction false} OncePerDay(st: State, uid: UserId, now: Instant, later: Instant)
    requires uid < |st.users| && DayOf(later) == DayOf(now)
    ensures var first := Claim(st, uid, now);
            var second := Claim(first.st, uid, later);
            && second.out == AlreadyClaimed
            && second.st == first.st
            && |second.st.ledger| <= |st.ledger| + 1
  {
    var first := Claim(st, uid, now);
    assert first.st.users[uid].dailyBonusClaimed == Some(DayOf(now));
  }

  /** The claim is available again on any other day. */
  lemma NextDayClaims(st: State, uid: UserId, now: Instant, later: Instant)
    requires uid < |st.users| && DayOf(later) != DayOf(now)
    ensures Claim(Claim(st, uid, now).st, uid, later).out == Claimed(BonusAmount(st.settings))
  {
  }

  /** Claims keep every balance equal to its ledger sum. */
  lemma ClaimReconciles(st: State, uid: UserId, now: Instant)
    requires uid < |st.users| && Reconciled(st)
    ensures Reconciled(Claim(st, uid, now).st)
  {
    var r := Claim(st, uid, now);
    if r.out.Claimed? {
      PostedOnceReconciles(st, r.st, Tx(uid, Bonus, r.out.coins, 0.0, now));
    }
  }

  /** The configured amount is taken as written, sign included: a negative
      setting turns the claim into a debit. */
  lemma NegativeSettingDebits(st: State, uid: UserId, now: Instant, n: int)
    requires uid < |st.users| && st.users[uid].dailyBonusClaimed != Some(DayOf(now))
    requires n > 0 && st.settings == map[BonusKey := ShowInt(-n)]
    ensures Claim(st, uid, now).st.users[uid].coinsBalance == st.users[uid].coinsBalance - n
  {
    ParseShowInt(-n);
  }
}
