/** The hash-checked CPX postback (`core/views_cpx.py`): users are named by
    username, status 1 credits and status 2 reverses (never below zero), and
    neither writes a ledger row, so any balance it moves is left unreconciled. */
module CpxHashed {
  import opened Optional
  import opened Text
  import opened Models
  import opened Ledger

  /** The query parameters. */
  datatype Params = Params(
    userId: Option<string>,
    transId: Option<string>,
    status: Option<string>,
    event: Option<string>,
    amountLocal: Option<string>,
    secureHash: Option<string>
  )

  /** The configured CPX security hash and the MD5 hex digest function. */
  datatype Environment = Environment(securityHash: string, md5Hex: string -> string)

  datatype Outcome =
    | MissingParams
    | ServerHashMissing
    | InvalidHash
    | InvalidAmount
    | UnknownUsername
    | StatusUnparseable
    | Duplicate
    | Credited(coins: int)
    | Reversed(coins: int)
    | RecordedOnly
  {
    function Status(): int {
      match this
      case StatusUnparseable => 500
      case Duplicate => 200
      case Credited(_) => 200
      case Reversed(_) => 200
      case RecordedOnly => 200
      case _ => 400
    }

    predicate Stored() {
      Credited? || Reversed? || RecordedOnly?
    }
  }

  /** `_verify_cpx_hash`: the supplied hash is the MD5 of
      `user_id + "-" + security_hash`. */
  function HashMatches(env: Environment, userId: string, secureHash: string): (ok: bool)
    ensures ok <==> secureHash == env.md5Hex(userId + "-" + env.securityHash)
  {
    secureHash == env.md5Hex(userId + "-" + env.securityHash)
  }

  /** `int(Decimal(amount_local))` with `"0"` when the parameter is absent
      (written as its value); `None` when the text does not parse. */
  function AmountCoins(p: Params): (c: Option<int>)
    ensures p.amountLocal.None? ==> c == Some(0)
    ensures p.amountLocal.Some? && ParseDecimal(p.amountLocal.value).None? ==> c.None?
    ensures p.amountLocal.Some? && ParseDecimal(p.amountLocal.value).Some? ==> c == Some(Trunc(ParseDecimal(p.amountLocal.value).value))
  {
    match p.amountLocal
    case None => Some(0)
    case Some(text) =>
      match ParseDecimal(text)
      case None => None
      case Some(v) => Some(Trunc(v))
  }

  /** The first user whose username is `name`. */
  function FindByUsername(users: seq<User>, name: string): (r: Option<UserId>)
    ensures r.Some? ==> r.value < |users| && users[r.value].username == name
    ensures r.None? <==> forall v :: 0 <= v < |users| ==> users[v].username != name
  {
    if |users| == 0 then None
    else if users[0].username == name then Some(0)
    else match FindByUsername(users[1..], name)
      case None => None
      case Some(v) => Some(v + 1)
  }

  /** All four required parameters present and non-empty. */
  predicate RequiredPresent(p: Params) {
    Truthy(p.userId) && Truthy(p.transId) && Truthy(p.status) && Truthy(p.secureHash)
  }

  /** The checks that precede any write, in the handler's order. */
  predicate Admitted(st: State, env: Environment, p: Params) {
    && RequiredPresent(p)
    && env.securityHash != ""
    && HashMatches(env, p.userId.value, p.secureHash.value)
    && AmountCoins(p).Some?
    && FindByUsername(st.users, p.userId.value).Some?
  }

  /** `cpx_postback` in `views_cpx.py`. Missing parameters, an unset server
      hash, a hash mismatch, an unparseable amount and an unknown username are
      each 400 with no change; an unparseable status fails (500) before the
      duplicate check because the receipt's defaults are built first. The rest
      is `Apply`. */
  function Postback(st: State, env: Environment, p: Params, now: Instant): (r: Step<Outcome>)
    ensures !r.out.Stored() ==> r.st == st
    ensures r.out == MissingParams <==> !RequiredPresent(p)
    ensures r.out == ServerHashMissing <==> RequiredPresent(p) && env.securityHash == ""
    ensures r.out == InvalidHash <==>
              RequiredPresent(p) && env.securityHash != "" && !HashMatches(env, p.userId.value, p.secureHash.value)
    ensures r.out == InvalidAmount <==>
              && RequiredPresent(p) && env.securityHash != "" && HashMatches(env, p.userId.value, p.secureHash.value)
              && AmountCoins(p).None?
    ensures r.out == UnknownUsername <==>
              && RequiredPresent(p) && env.securityHash != "" && HashMatches(env, p.userId.value, p.secureHash.value)
              && AmountCoins(p).Some? && FindByUsername(st.users, p.userId.value).None?
    ensures r.out == StatusUnparseable <==> Admitted(st, env, p) && ParseInt(p.status.value).None?
    ensures r.out == Duplicate || r.out.Stored() ==>
              && Admitted(st, env, p) && ParseInt(p.status.value).Some?
              && r == Apply(st, FindByUsername(st.users, p.userId.value).value, p.transId.value,
                            p.event.GetOr("complete"), ParseInt(p.status.value).value, AmountCoins(p).value, now)
  {
    if !RequiredPresent(p) then Step(st, MissingParams)
    else if env.securityHash == "" then Step(st, ServerHashMissing)
    else if !HashMatches(env, p.userId.value, p.secureHash.value) then Step(st, InvalidHash)
    else match AmountCoins(p)
      case None => Step(st, InvalidAmount)
      case Some(coins) =>
        match FindByUsername(st.users, p.userId.value)
        case None => Step(st, UnknownUsername)
        case Some(uid) =>
          match ParseInt(p.status.value)
          case None => Step(st, StatusUnparseable)
          case Some(status) => Apply(st, uid, p.transId.value, p.event.GetOr("complete"), status, coins, now)
  }

  /** The receipt and the balance move. A known transaction id is a duplicate
      with no change. A new one stores a receipt; status 1 adds `coins` to the
      balance, status 2 lowers it by `coins` but not below zero, and both mark
      the receipt applied; any other status only stores an unapplied receipt.
      No ledger row is written in any case. */
  function Apply(st: State, uid: UserId, key: string, event: string, status: int, coins: int, now: Instant): (r: Step<Outcome>)
    requires uid < |st.users|
    ensures key in st.cpx <==> r.out == Duplicate
    ensures key in st.cpx ==> r.st == st
    ensures r.st.ledger == st.ledger && |r.st.users| == |st.users|
    ensures key !in st.cpx ==>
              && r.st.cpx == st.cpx[key := CpxReceipt(uid, event, status, coins, status == 1 || status == 2, now)]
              && r.st == st.(users := r.st.users, cpx := r.st.cpx)
              && (forall v :: 0 <= v < |st.users| && v != uid ==> r.st.users[v] == st.users[v])
              && r.st.users[uid] == st.users[uid].(coinsBalance := r.st.users[uid].coinsBalance)
    ensures key !in st.cpx && status == 1 ==>
              r.out == Credited(coins) && r.st.users[uid].coinsBalance == st.users[uid].coinsBalance + coins
    ensures key !in st.cpx && status == 2 ==>
              && r.out == Reversed(coins)
              && r.st.users[uid].coinsBalance == if st.users[uid].coinsBalance - coins > 0 then st.users[uid].coinsBalance - coins else 0
    ensures key !in st.cpx && status != 1 && status != 2 ==> r.out == RecordedOnly && r.st.users == st.users
    ensures Valid(st) ==> Valid(r.st)
  {
    if key in st.cpx then Step(st, Duplicate)
    else
      var u := st.users[uid];
      var applied := status == 1 || status == 2;
      var receipts := st.cpx[key := CpxReceipt(uid, event, status, coins, applied, now)];
      if status == 1 then
        Step(st.(users := st.users[uid := u.(coinsBalance := u.coinsBalance + coins)], cpx := receipts), Credited(coins))
      else if status == 2 then
        var lowered := if u.coinsBalance - coins > 0 then u.coinsBalance - coins else 0;
        Step(st.(users := st.users[uid := u.(coinsBalance := lowered)], cpx := receipts), Reversed(coins))
      else Step(st.(cpx := receipts), RecordedOnly)
  }

  /** A reversal never leaves a negative balance. */
  lemma ReversalNeverNegative(st: State, env: Environment, p: Params, now: Instant)
    requires Postback(st, env, p, now).out.Reversed?
    ensures var uid := FindByUsername(st.users, p.userId.value).value;
            Postback(st, env, p, now).st.users[uid].coinsBalance >= 0
  {
  }

  /** The handler writes no ledger row, so a reconciled store in which it
      actually moves a balance is no longer reconciled. `Postback` reaches
      the store only through `Apply`. */
  lemma BalanceMoveBreaksReconciliation(st: State, uid: UserId, key: string, event: string, status: int, coins: int, now: Instant)
    requires uid < |st.users| && Reconciled(st)
    requires Apply(st, uid, key, event, status, coins, now).st.users[uid].coinsBalance != st.users[uid].coinsBalance
    ensures !Reconciled(Apply(st, uid, key, event, status, coins, now).st)
  {
    UnpairedChangeBreaks(st, Apply(st, uid, key, event, status, coins, now).st, uid);
  }

  /** Concretely: crediting a non-zero amount under a new transaction id
      always moves the balance, so it always breaks reconciliation. */
  lemma NonZeroCreditBreaksReconciliation(st: State, uid: UserId, key: string, event: string, coins: int, now: Instant)
    requires uid < |st.users| && Reconciled(st)
    requires key !in st.cpx && coins != 0
    ensures Apply(st, uid, key, event, 1, coins, now).out == Credited(coins)
    ensures !Reconciled(Apply(st, uid, key, event, 1, coins, now).st)
  {
    BalanceMoveBreaksReconciliation(st, uid, key, event, 1, coins, now);
  }

  /** A request whose `secure_hash` is not the MD5 of `user_id-secret` is
      refused as invalid and changes nothing, while a correctly hashed one
      always gets past the hash check. */
  lemma ForgedHashRefused(st: State, env: Environment, p: Params, now: Instant)
    requires RequiredPresent(p) && env.securityHash != ""
    ensures var r := Postback(st, env, p, now);
            && (r.out == InvalidHash <==> p.secureHash.value != env.md5Hex(p.userId.value + "-" + env.securityHash))
            && (p.secureHash.value != env.md5Hex(p.userId.value + "-" + env.securityHash) ==> r.st == st)
  {
  }

  /** Replaying a postback is acknowledged as a duplicate and changes nothing. */
  lemma {:induction false} ReplayIsDuplicate(st: State, env: Environment, p: Params, now: Instant, later: Instant)
    requires Postback(st, env, p, now).out.Stored()
    ensures var first := Postback(st, env, p, now);
            var second := Postback(first.st, env, p, later);
            second.out == Duplicate && second.st == first.st
  {
    var first := Postback(st, env, p, now);
    var uid := FindByUsername(st.users, p.userId.value).value;
    assert first.st.users[uid].username == st.users[uid].username;
    assert FindByUsername(first.st.users, p.userId.value).Some?;
    assert p.transId.value in first.st.cpx;
  }
}
