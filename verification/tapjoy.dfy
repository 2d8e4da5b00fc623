/** The Tapjoy offerwall postback (`core/tapjoy.py`): an unauthenticated
    callback that credits a user once per partner transaction id. The receipt
    table keyed by that id is what makes a replay harmless. */
module Tapjoy {
  import opened Optional
  import opened Text
  import opened Models
  import opened Ledger

  /** The request parameters as read from the JSON body or the query string. */
  datatype Params = Params(
    userId: Option<string>,
    currency: Option<string>,
    amount: Option<string>,
    transactionId: Option<string>,
    transId: Option<string>,
    signature: Option<string>
  )

  /** The server side of the call: the configured secret, the raw request body
      the signature covers, and the HMAC-SHA256 hex digest function. */
  datatype Environment = Environment(secret: string, rawBody: string, hmacHex: (string, string) -> string)

  /** `verify_tapjoy_signature`: false whenever the secret or the signature is
      empty, otherwise a comparison with the digest of the payload. */
  function VerifySignature(hmacHex: (string, string) -> string, secret: string, payload: string, signature: string): (ok: bool)
    ensures secret == "" || signature == "" ==> !ok
    ensures secret != "" && signature != "" ==> (ok <==> hmacHex(secret, payload) == signature)
  {
    if secret == "" || signature == "" then false
    else hmacHex(secret, payload) == signature
  }

  datatype Outcome =
    | MissingIds
    | InvalidSignature
    | InvalidUserId
    | UnknownUser
    | NothingToCredit
    | Duplicate
    | Credited(coins: int)
  {
    function Status(): int {
      match this
      case MissingIds => 400
      case InvalidSignature => 401
      case InvalidUserId => 400
      case UnknownUser => 404
      case _ => 200
    }
  }

  /** `transaction_id or trans_id`. */
  function TransactionId(p: Params): Option<string> {
    Or(p.transactionId, p.transId)
  }

  /** `int(float(currency or amount or "0"))`, with 0 for anything unparseable. */
  function Coins(p: Params): int {
    IntOfFloatOrZero(Or(p.currency, p.amount))
  }

  /** The signature is checked only when both the secret and the signature are
      non-empty; without either the request is accepted unsigned. */
  predicate SignatureAccepted(env: Environment, p: Params) {
    var signature := p.signature.GetOr("");
    !(env.secret != "" && signature != "") || VerifySignature(env.hmacHex, env.secret, env.rawBody, signature)
  }

  /** Whether `userId` names an existing user, as `int(user_id)` then a lookup. */
  predicate KnownUser(st: State, userId: string) {
    ParseInt(userId).Some? && 0 <= ParseInt(userId).value < |st.users|
  }

  /** `tapjoy_postback`. In order: missing ids are 400; a bad signature is
      401; a non-integer user id is 400 and an unknown user 404; the rest is
      `Credit`. Only a credit changes anything. */
  function Postback(st: State, env: Environment, p: Params, now: Instant): (r: Step<Outcome>)
    ensures !r.out.Credited? ==> r.st == st
    ensures r.out == MissingIds <==> !Truthy(TransactionId(p)) || !Truthy(p.userId)
    ensures r.out == InvalidSignature <==> Truthy(TransactionId(p)) && Truthy(p.userId) && !SignatureAccepted(env, p)
    ensures r.out == InvalidUserId <==>
              Truthy(TransactionId(p)) && Truthy(p.userId) && SignatureAccepted(env, p) && ParseInt(p.userId.value).None?
    ensures r.out == UnknownUser <==>
              && Truthy(TransactionId(p)) && Truthy(p.userId) && SignatureAccepted(env, p)
              && ParseInt(p.userId.value).Some? && !KnownUser(st, p.userId.value)
    ensures r.out in {NothingToCredit, Duplicate} || r.out.Credited? <==>
              Truthy(TransactionId(p)) && Truthy(p.userId) && SignatureAccepted(env, p) && KnownUser(st, p.userId.value)
    ensures r.out in {NothingToCredit, Duplicate} || r.out.Credited? ==>
              r == Credit(st, ParseInt(p.userId.value).value as nat, TransactionId(p).value, Coins(p), now)
  {
    if !Truthy(TransactionId(p)) || !Truthy(p.userId) then Step(st, MissingIds)
    else if !SignatureAccepted(env, p) then Step(st, InvalidSignature)
    else match ParseInt(p.userId.value)
      case None => Step(st, InvalidUserId)
      case Some(id) =>
        if !(0 <= id < |st.users|) then Step(st, UnknownUser)
        else Credit(st, id, TransactionId(p).value, Coins(p), now)
  }

  /** The crediting part, once the user is known: a non-positive amount is
      acknowledged without a receipt; a known transaction id is acknowledged
      as a duplicate; otherwise the user is credited `coins` through one
      `earn` row and an applied receipt is stored. */
  function Credit(st: State, uid: UserId, txid: string, coins: int, now: Instant): (r: Step<Outcome>)
    requires uid < |st.users|
    ensures !r.out.Credited? ==> r.st == st
    ensures r.out == NothingToCredit <==> coins <= 0
    ensures r.out == Duplicate <==> coins > 0 && txid in st.tapjoy
    ensures r.out.Credited? <==> coins > 0 && txid !in st.tapjoy
    ensures r.out.Credited? ==>
              && r.out.coins == coins
              && PostedAlone(st, r.st, Tx(uid, Earn, coins, 0.0, now))
              && r.st.tapjoy == st.tapjoy[txid := TapjoyReceipt(uid, coins, true, now)]
              && r.st == st.(users := r.st.users, ledger := r.st.ledger, tapjoy := r.st.tapjoy)
    ensures Valid(st) ==> Valid(r.st)
  {
    if coins <= 0 then Step(st, NothingToCredit)
    else if txid in st.tapjoy then Step(st, Duplicate)
    else
      var credited := Post(st, uid, Earn, coins, 0.0, now);
      Step(credited.(tapjoy := st.tapjoy[txid := TapjoyReceipt(uid, coins, true, now)]), Credited(coins))
  }

  /** The postback keeps every balance equal to its ledger sum. */
  lemma PostbackReconciles(st: State, env: Environment, p: Params, now: Instant)
    requires Reconciled(st)
    ensures Reconciled(Postback(st, env, p, now).st)
  {
    var r := Postback(st, env, p, now);
    if r.out.Credited? {
      PostedOnceReconciles(st, r.st, Tx(ParseInt(p.userId.value).value as nat, Earn, r.out.coins, 0.0, now));
    }
  }

  /** Every stored receipt is applied: receipts are only created in the
      crediting branch, which applies them in the same call. */
  predicate AllApplied(st: State) {
    forall txid :: txid in st.tapjoy ==> st.tapjoy[txid].applied
  }

  lemma PostbackKeepsAllApplied(st: State, env: Environment, p: Params, now: Instant)
    requires AllApplied(st)
    ensures AllApplied(Postback(st, env, p, now).st)
  {
  }

  /** Idempotency: delivering the same postback twice credits once. The replay
      is acknowledged as a duplicate and leaves the state exactly as the first
      delivery left it, so the user gained `coins` and the ledger one row. */
  lemma {:induction false} ReplayCreditsOnce(st: State, env: Environment, p: Params, now: Instant, later: Instant)
    requires Postback(st, env, p, now).out.Credited?
    ensures var first := Postback(st, env, p, now);
            var second := Postback(first.st, env, p, later);
            && second.out == Duplicate
            && second.st == first.st
            && |second.st.ledger| == |st.ledger| + 1
  {
    var first := Postback(st, env, p, now);
    var uid := ParseInt(p.userId.value).value;
    assert |first.st.users| == |st.users|;
    assert KnownUser(first.st, p.userId.value);
    assert TransactionId(p).value in first.st.tapjoy;
  }

  /** The signature check is skipped when no secret is configured: an unsigned
      or wrongly signed postback for a known user and a positive amount is
      still credited. */
  lemma NoSecretNoCheck(st: State, env: Environment, p: Params, now: Instant)
    requires env.secret == ""
    requires Truthy(TransactionId(p)) && Truthy(p.userId) && KnownUser(st, p.userId.value)
    requires Coins(p) > 0 && TransactionId(p).value !in st.tapjoy
    ensures Postback(st, env, p, now).out == Credited(Coins(p))
  {
  }
}
