/** The routed CPX Research postback (`core/cpx.py`): a receipt per partner
    transaction id is stored before the credit decision, and the user is
    credited (with a ledger row) only for status 1 and a positive amount. */
module Cpx {
  import opened Optional
  import opened Text
  import opened Models
  import opened Ledger

  /** The query parameters. */
  datatype Params = Params(
    transId: Option<string>,
    transactionId: Option<string>,
    extUserId: Option<string>,
    amount: Option<string>,
    status: Option<string>,
    event: Option<string>
  )

  datatype Outcome =
    | MissingIds
    | InvalidUserId
    | UnknownUser
    | StatusUnparseable
    | Duplicate
    | Recorded(credited: bool)
  {
    function Status(): int {
      match this
      case MissingIds => 400
      case InvalidUserId => 400
      case UnknownUser => 404
      case StatusUnparseable => 500
      case _ => 200
    }
  }

  /** `trans_id or transaction_id`. */
  function TransactionKey(p: Params): Option<string> {
    Or(p.transId, p.transactionId)
  }

  /** `int(status or "1")`; the `"1"` fallback is written as its value. */
  function StatusValue(p: Params): (s: Option<int>)
    ensures !Truthy(p.status) ==> s == Some(1)
    ensures Truthy(p.status) ==> s == ParseInt(p.status.value)
  {
    if !Truthy(p.status) then Some(1) else ParseInt(p.status.value)
  }

  /** `StatusValue` agrees with parsing the text the source parses. */
  lemma StatusFallback(p: Params)
    ensures StatusValue(p) == ParseInt(OrElse(p.status, "1"))
  {
    if !Truthy(p.status) {
      assert ShowInt(1) == "1";
      ParseShowInt(1);
    }
  }

  /** `(event or "complete").lower()`. */
  function EventName(p: Params): string {
    Lower(OrElse(p.event, "complete"))
  }

  /** Whether `ext_user_id` names an existing user, as `int(...)` then a lookup. */
  predicate KnownUser(st: State, extUserId: string) {
    ParseInt(extUserId).Some? && 0 <= ParseInt(extUserId).value < |st.users|
  }

  /** `cpx_postback`. Missing ids are 400, a non-integer user id 400, an
      unknown user 404. The amount is `int(float(amount or "0"))` with 0 when
      unparseable. The status is parsed while building the receipt's defaults,
      so an unparseable status fails (500) before the duplicate check. The
      rest is `Record`. */
  function Postback(st: State, p: Params, now: Instant): (r: Step<Outcome>)
    ensures !r.out.Recorded? ==> r.st == st
    ensures r.out == MissingIds <==> !Truthy(TransactionKey(p)) || !Truthy(p.extUserId)
    ensures r.out == InvalidUserId ==> ParseInt(p.extUserId.value).None?
    ensures r.out == UnknownUser ==> ParseInt(p.extUserId.value).Some? && !KnownUser(st, p.extUserId.value)
    ensures r.out == StatusUnparseable <==>
              Truthy(TransactionKey(p)) && Truthy(p.extUserId) && KnownUser(st, p.extUserId.value) && StatusValue(p).None?
    ensures r.out == Duplicate || r.out.Recorded? ==>
              && Truthy(TransactionKey(p)) && Truthy(p.extUserId) && KnownUser(st, p.extUserId.value) && StatusValue(p).Some?
              && r == Record(st, ParseInt(p.extUserId.value).value as nat, TransactionKey(p).value, EventName(p),
                             StatusValue(p).value, IntOfFloatOrZero(p.amount), now)
  {
    if !Truthy(TransactionKey(p)) || !Truthy(p.extUserId) then Step(st, MissingIds)
    else match ParseInt(p.extUserId.value)
      case None => Step(st, InvalidUserId)
      case Some(id) =>
        if !(0 <= id < |st.users|) then Step(st, UnknownUser)
        else match StatusValue(p)
          case None => Step(st, StatusUnparseable)
          case Some(status) =>
            Record(st, id, TransactionKey(p).value, EventName(p), status, IntOfFloatOrZero(p.amount), now)
  }

  /** The receipt and the credit decision. A known transaction id is
      acknowledged as a duplicate with no change. A new one always stores a
      receipt; the user is credited `coins` through one `earn` row, and the
      receipt marked applied, exactly when the status is 1 and the amount
      positive. */
  function Record(st: State, uid: UserId, key: string, event: string, status: int, coins: int, now: Instant): (r: Step<Outcome>)
    requires uid < |st.users|
    ensures key in st.cpx <==> r.out == Duplicate
    ensures key in st.cpx ==> r.st == st
    ensures key !in st.cpx ==>
              && r.out == Recorded(status == 1 && coins > 0)
              && r.st.cpx == st.cpx[key := CpxReceipt(uid, event, status, coins, status == 1 && coins > 0, now)]
    ensures r.out == Recorded(true) ==>
              && PostedAlone(st, r.st, Tx(uid, Earn, coins, 0.0, now))
              && r.st == st.(users := r.st.users, ledger := r.st.ledger, cpx := r.st.cpx)
    ensures r.out == Recorded(false) ==> r.st == st.(cpx := r.st.cpx)
    ensures Valid(st) ==> Valid(r.st)
  {
    if key in st.cpx then Step(st, Duplicate)
    else
      var stored := st.(cpx := st.cpx[key := CpxReceipt(uid, event, status, coins, false, now)]);
      if status == 1 && coins > 0 then
        var credited := Post(stored, uid, Earn, coins, 0.0, now);
        Step(credited.(cpx := st.cpx[key := CpxReceipt(uid, event, status, coins, true, now)]), Recorded(true))
      else Step(stored, Recorded(false))
  }

  /** The postback keeps every balance equal to its ledger sum. */
  lemma PostbackReconciles(st: State, p: Params, now: Instant)
    requires Reconciled(st)
    ensures Reconciled(Postback(st, p, now).st)
  {
    var r := Postback(st, p, now);
    if r.out == Recorded(true) {
      PostedOnceReconciles(st, r.st, Tx(ParseInt(p.extUserId.value).value as nat, Earn, IntOfFloatOrZero(p.amount), 0.0, now));
    }
  }

  /** Once a transaction id has a receipt, no later postback with that id
      changes anything, whatever its status or amount: a receipt stored without
      credit stays unapplied for good. */
  lemma KnownKeyNeverCredits(st: State, p: Params, now: Instant)
    requires Truthy(TransactionKey(p)) && TransactionKey(p).value in st.cpx
    ensures Postback(st, p, now).st == st
    ensures !Postback(st, p, now).out.Recorded?
  {
  }

  /** Replaying a postback is acknowledged as a duplicate and leaves the state
      as the first delivery left it; the ledger grew by at most one row. */
  lemma {:induction false} ReplayIsDuplicate(st: State, p: Params, now: Instant, later: Instant)
    requires Postback(st, p, now).out.Recorded?
    ensures var first := Postback(st, p, now);
            var second := Postback(first.st, p, later);
            && second.out == Duplicate
            && second.st == first.st
            && |second.st.ledger| <= |st.ledger| + 1
  {
    var first := Postback(st, p, now);
    assert |first.st.users| == |st.users|;
    assert KnownUser(first.st, p.extUserId.value);
    assert TransactionKey(p).value in first.st.cpx;
  }

  /** Every new transaction id leaves a receipt, credited or not. */
  lemma NewKeyLeavesReceipt(st: State, p: Params, now: Instant)
    requires Postback(st, p, now).out.Recorded?
    ensures TransactionKey(p).value !in st.cpx
    ensures TransactionKey(p).value in Postback(st, p, now).st.cpx
    ensures Postback(st, p, now).st.cpx[TransactionKey(p).value].applied == Postback(st, p, now).out.credited
  {
  }
}
