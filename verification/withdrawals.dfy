/** The withdrawal state machine: the user's request (`WithdrawRequestView.post`),
    which escrows coins at creation, and the administrator's approve / reject /
    mark-paid actions (`AdminWithdrawDetailView.post`). Statuses move
    pending -> approved -> paid or pending -> rejected; rejected and paid are
    terminal. */
module Withdrawals {
  import opened Optional
  import opened Text
  import opened Models
  import opened Ledger

  const RateKey: string := "COIN_TO_RS_RATE"
  const MinimumKey: string := "MIN_WITHDRAW_RS"
  /** Default rate read when a request is created, as stored text and as value. */
  const CreateDefaultRate: string := "0.05"
  const CreateDefaultRateValue: real := 0.05
  /** Default rate read when a request is rejected; it differs from the one above. */
  const RejectDefaultRate: string := "0.1"
  const RejectDefaultRateValue: real := 0.1
  const DefaultMinimum: string := "50"
  const DefaultMinimumValue: real := 50.0

  /** `float(Settings.get_value(key, default))` for a default whose text parses
      to `defaultValue` (`DefaultsParse` shows that each default used here
      does): the stored text parsed when the key is present. */
  function DecimalSetting(settings: map<string, string>, key: string, defaultValue: real): (r: Option<real>)
    ensures key !in settings ==> r == Some(defaultValue)
    ensures key in settings ==> r == ParseDecimal(settings[key])
  {
    if key in settings then ParseDecimal(settings[key]) else Some(defaultValue)
  }

  /** The configured coin-to-rupee rate as read at creation time. */
  function CreationRate(settings: map<string, string>): Option<real> {
    DecimalSetting(settings, RateKey, CreateDefaultRateValue)
  }

  /** The configured coin-to-rupee rate as read at rejection time. */
  function RejectionRate(settings: map<string, string>): Option<real> {
    DecimalSetting(settings, RateKey, RejectDefaultRateValue)
  }

  function MinimumRs(settings: map<string, string>): Option<real> {
    DecimalSetting(settings, MinimumKey, DefaultMinimumValue)
  }

  // ---------------------------------------------------------------------
  // Serializer validation
  // ---------------------------------------------------------------------

  datatype Validation = AmountOk(amount: real) | AmountNotPositive

  /** `WithdrawRequestSerializer.validate_amount_rs`: only positive amounts pass. */
  function ValidateAmountRs(value: real): (r: Validation)
    ensures r.AmountOk? <==> value > 0.0
    ensures r.AmountOk? ==> r.amount == value
  {
    if value <= 0.0 then AmountNotPositive else AmountOk(value)
  }

  // ---------------------------------------------------------------------
  // Creation
  // ---------------------------------------------------------------------

  datatype CreateOutcome =
    | MissingFields
    | InvalidAmount
    | BelowMinimum
    | InsufficientBalance
    | CreateServerError
    | WithdrawCreated(coinsNeeded: int)
  {
    function Status(): int {
      match this
      case WithdrawCreated(_) => 201
      case CreateServerError => 500
      case _ => 400
    }
  }

  /** All three request fields are present and non-empty. */
  predicate FieldsPresent(amountRs: Option<string>, payMethod: Option<string>, accountId: Option<string>) {
    Truthy(amountRs) && Truthy(payMethod) && Truthy(accountId)
  }

  /** The coins a withdrawal of `amount` rupees costs at `rate`:
      `int(amount_rs / rate)`. */
  function CoinsFor(amount: real, rate: real): int
    requires rate != 0.0
  {
    Trunc(amount / rate)
  }

  /** The pricing part of the request, in the handler's order: the amount is
      parsed, then the rate and the minimum are read, then the minimum is
      enforced, then the coins are computed (a zero rate raises). */
  datatype Pricing =
    | AmountUnparseable
    | SettingsUnreadable
    | UnderMinimum
    | ZeroRate
    | Priced(amount: real, coins: int)

  function Price(settings: map<string, string>, amountText: string): (p: Pricing)
    ensures ParseDecimal(amountText).None? <==> p == AmountUnparseable
    ensures p == SettingsUnreadable <==> ParseDecimal(amountText).Some? && (CreationRate(settings).None? || MinimumRs(settings).None?)
    ensures p == UnderMinimum <==>
              && ParseDecimal(amountText).Some? && CreationRate(settings).Some? && MinimumRs(settings).Some?
              && ParseDecimal(amountText).value < MinimumRs(settings).value
    ensures p == ZeroRate ==> CreationRate(settings) == Some(0.0)
    ensures p.Priced? ==>
              && ParseDecimal(amountText) == Some(p.amount)
              && MinimumRs(settings).Some? && p.amount >= MinimumRs(settings).value
              && CreationRate(settings).Some? && CreationRate(settings).value != 0.0
              && p.coins == CoinsFor(p.amount, CreationRate(settings).value)
  {
    match ParseDecimal(amountText)
    case None => AmountUnparseable
    case Some(amount) =>
      match (CreationRate(settings), MinimumRs(settings))
      case (Some(rate), Some(minimum)) =>
        if amount < minimum then UnderMinimum
        else if rate == 0.0 then ZeroRate
        else Priced(amount, CoinsFor(amount, rate))
      case _ => SettingsUnreadable
  }

  /** `WithdrawRequestView.post`. Missing fields, an unparseable amount or an
      amount below the minimum are 400 with no effect; an unreadable rate or
      minimum setting, or a zero rate, raises (500) with no effect. Otherwise
      `coins_needed = int(amount / rate)`; a balance below it is 400 with no
      effect, and a sufficient one is debited by exactly `coins_needed`
      through one `withdraw` row, and one `pending` request is appended. */
  function CreateWithdrawal(st: State, uid: UserId, amountRs: Option<string>, payMethod: Option<string>,
                            accountId: Option<string>, now: Instant): (r: Step<CreateOutcome>)
    requires uid < |st.users|
    ensures !r.out.WithdrawCreated? ==> r.st == st
    ensures r.out == MissingFields <==> !FieldsPresent(amountRs, payMethod, accountId)
    ensures r.out.WithdrawCreated? <==>
              && FieldsPresent(amountRs, payMethod, accountId)
              && Price(st.settings, amountRs.value).Priced?
              && st.users[uid].coinsBalance >= Price(st.settings, amountRs.value).coins
    ensures r.out.WithdrawCreated? ==>
              && FieldsPresent(amountRs, payMethod, accountId)
              && Price(st.settings, amountRs.value).Priced?
              && (var p := Price(st.settings, amountRs.value);
                  && r.out.coinsNeeded == p.coins
                  && st.users[uid].coinsBalance >= p.coins
                  && PostedAlone(st, r.st, Tx(uid, Withdraw, -p.coins, p.amount, now))
                  && r.st.withdrawals == st.withdrawals + [NewWithdrawRequest(uid, p.amount, payMethod.value, accountId.value, now)])
    ensures r.out.WithdrawCreated? ==> r.st.users[uid].coinsBalance >= 0
    ensures r.st == st.(users := r.st.users, ledger := r.st.ledger, withdrawals := r.st.withdrawals)
    ensures Valid(st) ==> Valid(r.st)
  {
    if !FieldsPresent(amountRs, payMethod, accountId) then Step(st, MissingFields)
    else Settle(st, uid, Price(st.settings, amountRs.value), payMethod.value, accountId.value, now)
  }

  /** The request once priced: each pricing failure is refused with no effect,
      a balance below the price is refused with no effect, and otherwise the
      price is escrowed. */
  function Settle(st: State, uid: UserId, p: Pricing, payMethod: string, accountId: string, now: Instant): (r: Step<CreateOutcome>)
    requires uid < |st.users|
    ensures !r.out.WithdrawCreated? ==> r.st == st
    ensures p == AmountUnparseable <==> r.out == InvalidAmount
    ensures p == UnderMinimum <==> r.out == BelowMinimum
    ensures p == SettingsUnreadable || p == ZeroRate <==> r.out == CreateServerError
    ensures r.out == InsufficientBalance <==> p.Priced? && st.users[uid].coinsBalance < p.coins
    ensures r.out.WithdrawCreated? <==> p.Priced? && st.users[uid].coinsBalance >= p.coins
    ensures r.out != MissingFields
    ensures r.out.WithdrawCreated? ==>
              && p.Priced? && r.out.coinsNeeded == p.coins
              && st.users[uid].coinsBalance >= p.coins
              && PostedAlone(st, r.st, Tx(uid, Withdraw, -p.coins, p.amount, now))
              && r.st.withdrawals == st.withdrawals + [NewWithdrawRequest(uid, p.amount, payMethod, accountId, now)]
    ensures r.st == st.(users := r.st.users, ledger := r.st.ledger, withdrawals := r.st.withdrawals)
    ensures Valid(st) ==> Valid(r.st)
  {
    match p
    case AmountUnparseable => Step(st, InvalidAmount)
    case UnderMinimum => Step(st, BelowMinimum)
    case SettingsUnreadable => Step(st, CreateServerError)
    case ZeroRate => Step(st, CreateServerError)
    case Priced(amount, coinsNeeded) =>
      if st.users[uid].coinsBalance < coinsNeeded then Step(st, InsufficientBalance)
      else Step(Escrow(st, uid, amount, coinsNeeded, payMethod, accountId, now), WithdrawCreated(coinsNeeded))
  }

  /** The successful branch: debit `coins` through one `withdraw` row and file
      one pending request. */
  function Escrow(st: State, uid: UserId, amount: real, coins: int, payMethod: string, accountId: string, now: Instant): (st': State)
    requires uid < |st.users|
    ensures PostedAlone(st, st', Tx(uid, Withdraw, -coins, amount, now))
    ensures st'.withdrawals == st.withdrawals + [NewWithdrawRequest(uid, amount, payMethod, accountId, now)]
    ensures st' == st.(users := st'.users, ledger := st'.ledger, withdrawals := st'.withdrawals)
    ensures Valid(st) ==> Valid(st')
  {
    var st1 := Post(st, uid, Withdraw, -coins, amount, now);
    st1.(withdrawals := st.withdrawals + [NewWithdrawRequest(uid, amount, payMethod, accountId, now)])
  }

  /** Every refusal of `CreateWithdrawal`, by cause: each pricing failure maps
      to its own response, and a priced request is refused exactly when the
      balance is below its coins. */
  lemma CreateRefusals(st: State, uid: UserId, amountRs: Option<string>, payMethod: Option<string>, accountId: Option<string>, now: Instant)
    requires uid < |st.users|
    requires FieldsPresent(amountRs, payMethod, accountId)
    ensures var r := CreateWithdrawal(st, uid, amountRs, payMethod, accountId, now);
            var p := Price(st.settings, amountRs.value);
            && (p == AmountUnparseable <==> r.out == InvalidAmount)
            && (p == UnderMinimum <==> r.out == BelowMinimum)
            && (p == SettingsUnreadable || p == ZeroRate <==> r.out == CreateServerError)
            && (r.out == InsufficientBalance <==> p.Priced? && st.users[uid].coinsBalance < p.coins)
  {
  }

  /** Creating a withdrawal keeps every balance equal to its ledger sum. */
  lemma CreateReconciles(st: State, uid: UserId, amountRs: Option<string>, payMethod: Option<string>, accountId: Option<string>, now: Instant)
    requires uid < |st.users| && Reconciled(st)
    ensures Reconciled(CreateWithdrawal(st, uid, amountRs, payMethod, accountId, now).st)
  {
    if FieldsPresent(amountRs, payMethod, accountId) {
      SettleReconciles(st, uid, Price(st.settings, amountRs.value), payMethod.value, accountId.value, now);
    }
  }

  /** Settling a priced or refused request keeps every balance equal to its
      ledger sum. */
  lemma SettleReconciles(st: State, uid: UserId, p: Pricing, payMethod: string, accountId: string, now: Instant)
    requires uid < |st.users| && Reconciled(st)
    ensures Reconciled(Settle(st, uid, p, payMethod, accountId, now).st)
  {
    var r := Settle(st, uid, p, payMethod, accountId, now);
    if r.out.WithdrawCreated? {
      PostedOnceReconciles(st, r.st, Tx(uid, Withdraw, -p.coins, p.amount, now));
    }
  }

  // ---------------------------------------------------------------------
  // Administrative actions
  // ---------------------------------------------------------------------

  datatype AdminOutcome =
    | RequestNotFound
    | WrongStatus(current: WithdrawStatus)
    | UnknownAction
    | AdminServerError
    | ApprovedOk
    | RejectedOk(coinsRefunded: int)
    | PaidOk
  {
    predicate Succeeded() {
      ApprovedOk? || RejectedOk? || PaidOk?
    }

    function Status(): int {
      match this
      case RequestNotFound => 404
      case WrongStatus(_) => 400
      case UnknownAction => 400
      case AdminServerError => 500
      case _ => 200
    }
  }

  /** The transitions the administrator may make, independent of the handler:
      approve and reject leave `pending`, mark-paid leaves `approved`. */
  predicate AdminTransition(from: WithdrawStatus, action: string, to: WithdrawStatus) {
    || (action == "approve" && from == Pending && to == Approved)
    || (action == "reject" && from == Pending && to == Rejected)
    || (action == "mark-paid" && from == Approved && to == Paid)
  }

  /** The status an action requires. */
  function Required(action: string): WithdrawStatus
    requires action in {"approve", "reject", "mark-paid"}
  {
    if action == "mark-paid" then Approved else Pending
  }

  /** Records the outcome of an accepted action on request `wid`. */
  function Resolve(w: WithdrawRequest, to: WithdrawStatus, adminNote: Option<string>, now: Instant): WithdrawRequest {
    w.(status := to, processedAt := Some(now), adminNote := adminNote.GetOr(w.adminNote))
  }

  /** `AdminWithdrawDetailView.post(withdraw_id, action)`. An unknown id is 404
      and an unknown action 400; an action whose required status does not hold
      is 400 naming the current status. Approve and mark-paid change only the
      request. Reject refunds `int(amount / rate)` at the rate read now (default
      0.1), adding it to the balance without any ledger row, and marks the
      request rejected. An omitted admin note keeps the stored one. */
  function AdminAction(st: State, wid: nat, action: string, adminNote: Option<string>, now: Instant): (r: Step<AdminOutcome>)
    requires Valid(st)
    ensures Valid(r.st)
    ensures !r.out.Succeeded() ==> r.st == st
    ensures r.out == RequestNotFound <==> wid >= |st.withdrawals|
    ensures r.out == UnknownAction <==> wid < |st.withdrawals| && action !in {"approve", "reject", "mark-paid"}
    ensures r.out.WrongStatus? <==>
              wid < |st.withdrawals| && action in {"approve", "reject", "mark-paid"} && st.withdrawals[wid].status != Required(action)
    ensures r.out.WrongStatus? ==> r.out.current == st.withdrawals[wid].status
    ensures r.out == AdminServerError <==>
              && wid < |st.withdrawals| && action == "reject" && st.withdrawals[wid].status == Pending
              && (RejectionRate(st.settings).None? || RejectionRate(st.settings) == Some(0.0))
    ensures r.out.Succeeded() <==>
              && wid < |st.withdrawals| && action in {"approve", "reject", "mark-paid"}
              && st.withdrawals[wid].status == Required(action)
              && !(action == "reject" && (RejectionRate(st.settings).None? || RejectionRate(st.settings) == Some(0.0)))
    ensures r.out == ApprovedOk <==> r.out.Succeeded() && action == "approve"
    ensures r.out.RejectedOk? <==> r.out.Succeeded() && action == "reject"
    ensures r.out == PaidOk <==> r.out.Succeeded() && action == "mark-paid"
    ensures r.out.Succeeded() ==>
              && wid < |st.withdrawals|
              && |r.st.withdrawals| == |st.withdrawals|
              && AdminTransition(st.withdrawals[wid].status, action, r.st.withdrawals[wid].status)
              && r.st.withdrawals[wid] == Resolve(st.withdrawals[wid], r.st.withdrawals[wid].status, adminNote, now)
              && (forall j :: 0 <= j < |st.withdrawals| && j != wid ==> r.st.withdrawals[j] == st.withdrawals[j])
              && r.st.ledger == st.ledger
              && r.st == st.(users := r.st.users, withdrawals := r.st.withdrawals)
    ensures r.out == ApprovedOk || r.out == PaidOk ==> r.st.users == st.users
    ensures r.out.RejectedOk? ==>
              && RejectionRate(st.settings).Some? && RejectionRate(st.settings).value != 0.0
              && r.out.coinsRefunded == CoinsFor(st.withdrawals[wid].amountRs, RejectionRate(st.settings).value)
              && (var owner := st.withdrawals[wid].user;
                  r.st.users == st.users[owner := st.users[owner].(coinsBalance := st.users[owner].coinsBalance + r.out.coinsRefunded)])
  {
    if wid >= |st.withdrawals| then Step(st, RequestNotFound)
    else
      var w := st.withdrawals[wid];
      if action == "approve" then
        if w.status != Pending then Step(st, WrongStatus(w.status))
        else Step(Advance(st, wid, Approved, adminNote, now), ApprovedOk)
      else if action == "reject" then
        if w.status != Pending then Step(st, WrongStatus(w.status))
        else Reject(st, wid, adminNote, now)
      else if action == "mark-paid" then
        if w.status != Approved then Step(st, WrongStatus(w.status))
        else Step(Advance(st, wid, Paid, adminNote, now), PaidOk)
      else Step(st, UnknownAction)
  }

  /** Moving request `wid` to status `to` without touching any balance keeps
      the store well formed. */
  function Advance(st: State, wid: nat, to: WithdrawStatus, adminNote: Option<string>, now: Instant): (st': State)
    requires Valid(st) && wid < |st.withdrawals|
    ensures Valid(st')
  {
    st.(withdrawals := st.withdrawals[wid := Resolve(st.withdrawals[wid], to, adminNote, now)])
  }

  /** Rejecting pending request `wid`: without a usable rate the view fails
      with a 500 and nothing changes; otherwise the owner is refunded
      `int(amount_rs / rate)` coins, with no ledger row, and the request is
      marked rejected. */
  function Reject(st: State, wid: nat, adminNote: Option<string>, now: Instant): (r: Step<AdminOutcome>)
    requires Valid(st) && wid < |st.withdrawals| && st.withdrawals[wid].status == Pending
    ensures Valid(r.st)
    ensures r.out == AdminServerError || r.out.RejectedOk?
    ensures r.out == AdminServerError <==> RejectionRate(st.settings).None? || RejectionRate(st.settings) == Some(0.0)
    ensures r.out == AdminServerError ==> r.st == st
    ensures r.out.RejectedOk? ==>
              && RejectionRate(st.settings).Some? && RejectionRate(st.settings).value != 0.0
              && r.out.coinsRefunded == CoinsFor(st.withdrawals[wid].amountRs, RejectionRate(st.settings).value)
              && (var w := st.withdrawals[wid];
                  r.st == st.(users := st.users[w.user := st.users[w.user].(coinsBalance := st.users[w.user].coinsBalance + r.out.coinsRefunded)],
                              withdrawals := st.withdrawals[wid := Resolve(w, Rejected, adminNote, now)]))
  {
    var w := st.withdrawals[wid];
    match RejectionRate(st.settings)
    case None => Step(st, AdminServerError)
    case Some(rate) =>
      if rate == 0.0 then Step(st, AdminServerError)
      else
        var refund := CoinsFor(w.amountRs, rate);
        var owner := st.users[w.user];
        Step(st.(users := st.users[w.user := owner.(coinsBalance := owner.coinsBalance + refund)],
                 withdrawals := st.withdrawals[wid := Resolve(w, Rejected, adminNote, now)]),
             RejectedOk(refund))
  }

  /** Rejected and paid requests are terminal: no action succeeds on them and
      the state is left as it was. */
  lemma TerminalStatuses(st: State, wid: nat, action: string, adminNote: Option<string>, now: Instant)
    requires Valid(st) && wid < |st.withdrawals|
    requires st.withdrawals[wid].status in {Rejected, Paid}
    ensures !AdminAction(st, wid, action, adminNote, now).out.Succeeded()
    ensures AdminAction(st, wid, action, adminNote, now).st == st
  {
  }

  /** Approving twice fails the second time with the approved status and no
      change; marking a pending request paid fails the same way. */
  lemma IllegalTransitions(st: State, wid: nat, note: Option<string>, now: Instant, later: Instant)
    requires Valid(st) && wid < |st.withdrawals| && st.withdrawals[wid].status == Pending
    ensures var once := AdminAction(st, wid, "approve", note, now);
            once.out == ApprovedOk && AdminAction(once.st, wid, "approve", note, later) == Step(once.st, WrongStatus(Approved))
    ensures AdminAction(st, wid, "mark-paid", note, now) == Step(st, WrongStatus(Pending))
  {
  }

  /** Approve and mark-paid keep every balance equal to its ledger sum. */
  lemma ApproveAndPayReconcile(st: State, wid: nat, action: string, note: Option<string>, now: Instant)
    requires Valid(st) && Reconciled(st) && action != "reject"
    ensures Reconciled(AdminAction(st, wid, action, note, now).st)
  {
  }

  /** A rejection that refunds a non-zero amount leaves the owner's balance
      different from the owner's ledger sum: the refund has no ledger row. */
  lemma RejectBreaksReconciliation(st: State, wid: nat, note: Option<string>, now: Instant)
    requires Valid(st) && Reconciled(st)
    requires AdminAction(st, wid, "reject", note, now).out.RejectedOk?
    requires AdminAction(st, wid, "reject", note, now).out.coinsRefunded != 0
    ensures !Reconciled(AdminAction(st, wid, "reject", note, now).st)
  {
    var r := AdminAction(st, wid, "reject", note, now);
    UnpairedChangeBreaks(st, r.st, st.withdrawals[wid].user);
  }

  /** An amount in whole paise: the values a two-decimal `DecimalField`
      stores unchanged. */
  predicate WholePaise(amount: real) {
    (amount * 100.0).Floor as real == amount * 100.0
  }

  /** Withdrawal round trip: when the rate is configured and unchanged, a
      rejected request refunds exactly the coins its creation debited, so the
      balance returns to where it started and the request ends `rejected`.
      The amount is in whole paise, so storing it does not round it. */
  lemma {:induction false} RoundTripWithConfiguredRate(st: State, uid: UserId, amountRs: Option<string>, payMethod: Option<string>,
                                                       accountId: Option<string>, note: Option<string>, t1: Instant, t2: Instant)
    requires Valid(st) && uid < |st.users| && RateKey in st.settings
    requires CreateWithdrawal(st, uid, amountRs, payMethod, accountId, t1).out.WithdrawCreated?
    requires WholePaise(Price(st.settings, amountRs.value).amount)
    ensures var created := CreateWithdrawal(st, uid, amountRs, payMethod, accountId, t1);
            var rejected := AdminAction(created.st, |st.withdrawals|, "reject", note, t2);
            && rejected.out == RejectedOk(created.out.coinsNeeded)
            && rejected.st.users[uid].coinsBalance == st.users[uid].coinsBalance
            && rejected.st.withdrawals[|st.withdrawals|].status == Rejected
  {
    var created := CreateWithdrawal(st, uid, amountRs, payMethod, accountId, t1);
    assert created.st.settings == st.settings;
    assert created.st.withdrawals[|st.withdrawals|] == NewWithdrawRequest(uid, ParseDecimal(amountRs.value).value, payMethod.value, accountId.value, t1);
    assert RejectionRate(st.settings) == CreationRate(st.settings);
  }

  /** Each default text parses to the value `DecimalSetting` uses for it, so
      the three settings read exactly as `float(get_value(key, default))`. */
  lemma DefaultsParse(settings: map<string, string>)
    ensures CreationRate(settings) == ParseDecimal(GetValue(settings, RateKey, CreateDefaultRate))
    ensures RejectionRate(settings) == ParseDecimal(GetValue(settings, RateKey, RejectDefaultRate))
    ensures MinimumRs(settings) == ParseDecimal(GetValue(settings, MinimumKey, DefaultMinimum))
  {
    if RateKey in settings {
      assert GetValue(settings, RateKey, CreateDefaultRate) == settings[RateKey];
      assert GetValue(settings, RateKey, RejectDefaultRate) == settings[RateKey];
    } else {
      CreateDefaultText();
      RejectDefaultText();
    }
    if MinimumKey in settings {
      assert GetValue(settings, MinimumKey, DefaultMinimum) == settings[MinimumKey];
    } else {
      MinimumDefaultText();
    }
  }

  lemma MinimumDefaultText()
    ensures ParseDecimal("50") == Some(50.0)
  {
    var s := "50";
    assert IsDigit(s[0]) && IsDigit(s[1]);
    StripUnpadded(s);
    assert SplitSign(s) == (false, s);
    assert IndexOf(s, '.') == None;
    assert DigitsValue(s) == 50 by {
      assert s[..1] == "5";
    }
  }

  lemma CreateDefaultText()
    ensures ParseDecimal("0.05") == Some(0.05)
  {
    var s := "0.05";
    assert IsDigit(s[0]) && IsDigit(s[3]);
    StripUnpadded(s);
    assert SplitSign(s) == (false, s);
    assert IndexOf(s, '.') == Some(1);
    assert s[..1] == "0" && s[2..] == "05";
    assert DigitsValue("05") == 5 by {
      assert "05"[..1] == "0";
    }
  }

  lemma RejectDefaultText()
    ensures ParseDecimal("0.1") == Some(0.1)
  {
    var s := "0.1";
    assert IsDigit(s[0]) && IsDigit(s[2]);
    StripUnpadded(s);
    assert SplitSign(s) == (false, s);
    assert IndexOf(s, '.') == Some(1);
    assert s[..1] == "0" && s[2..] == "1";
  }

  /** With no rate configured, rejection refunds at the 0.1 default while
      creation debited at the 0.05 default: for any amount the refund is
      `int(10 * amount)` against a debit of `int(20 * amount)`, e.g. a 50-rupee
      request debits 1000 coins and its rejection gives back 500. */
  lemma DefaultRateMismatch(st: State, uid: UserId, amountRs: Option<string>, payMethod: Option<string>,
                            accountId: Option<string>, note: Option<string>, t1: Instant, t2: Instant)
    requires Valid(st) && uid < |st.users| && RateKey !in st.settings
    requires CreateWithdrawal(st, uid, amountRs, payMethod, accountId, t1).out.WithdrawCreated?
    ensures var created := CreateWithdrawal(st, uid, amountRs, payMethod, accountId, t1);
            var amount := Price(st.settings, amountRs.value).amount;
            var rejected := AdminAction(created.st, |st.withdrawals|, "reject", note, t2);
            && created.out.coinsNeeded == Trunc(amount * 20.0)
            && rejected.out.RejectedOk? && rejected.out.coinsRefunded == Trunc(amount * 10.0)
  {
    var created := CreateWithdrawal(st, uid, amountRs, payMethod, accountId, t1);
    var p := Price(st.settings, amountRs.value);
    var amount := p.amount;
    PriceAtDefault(st.settings, amountRs.value);
    var wid := |st.withdrawals|;
    assert created.st.settings == st.settings;
    assert created.st.withdrawals[wid] == NewWithdrawRequest(uid, amount, payMethod.value, accountId.value, t1);
    RejectAtDefault(created.st, wid, note, t2);
  }

  /** With no rate configured, a priced amount costs twenty coins per rupee,
      truncated. */
  lemma PriceAtDefault(settings: map<string, string>, amountRs: string)
    requires RateKey !in settings && Price(settings, amountRs).Priced?
    ensures Price(settings, amountRs).coins == Trunc(Price(settings, amountRs).amount * 20.0)
  {
    var amount := Price(settings, amountRs).amount;
    assert CreationRate(settings) == Some(0.05);
    assert amount / 0.05 == amount * 20.0;
  }

  /** With no rate configured, rejecting a pending request refunds ten coins
      per rupee, truncated. */
  lemma RejectAtDefault(st: State, wid: nat, note: Option<string>, now: Instant)
    requires Valid(st) && wid < |st.withdrawals| && st.withdrawals[wid].status == Pending && RateKey !in st.settings
    ensures var r := AdminAction(st, wid, "reject", note, now);
            r.out.RejectedOk? && r.out.coinsRefunded == Trunc(st.withdrawals[wid].amountRs * 10.0)
  {
    assert RejectionRate(st.settings) == Some(0.1);
    assert st.withdrawals[wid].amountRs / 0.1 == st.withdrawals[wid].amountRs * 10.0;
  }
}
