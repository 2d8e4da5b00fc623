/** The ledger store: a user's balance is meant to equal the sum of the coins
    of that user's ledger rows. `Post` is the paired update (balance change plus
    one ledger row) every well-behaved handler uses; `Reconciled` is the
    invariant it preserves. */
module Ledger {
  import opened Models

  /** Sum of the coins of `u`'s rows in `l`. */
  function LedgerSum(l: seq<WalletTransaction>, u: UserId): int
  {
    if |l| == 0 then 0
    else LedgerSum(l[..|l| - 1], u) + (if l[|l| - 1].user == u then l[|l| - 1].coins else 0)
  }

  /** Appending a row changes only its owner's sum, by its coins. */
  lemma LedgerSumAppend(l: seq<WalletTransaction>, t: WalletTransaction, u: UserId)
    ensures LedgerSum(l + [t], u) == LedgerSum(l, u) + (if t.user == u then t.coins else 0)
  {
    assert (l + [t])[..|l|] == l;
  }

  /** A ledger whose rows all belong to users below `n` sums to zero for `n` and above. */
  lemma {:induction false} LedgerSumOfNewcomer(l: seq<WalletTransaction>, u: UserId, n: nat)
    requires forall i :: 0 <= i < |l| ==> l[i].user < n
    requires u >= n
    ensures LedgerSum(l, u) == 0
  {
    if |l| > 0 {
      LedgerSumOfNewcomer(l[..|l| - 1], u, n);
    }
  }

  /** The reconciliation invariant: every balance equals its ledger sum. */
  predicate Reconciled(st: State) {
    forall u :: 0 <= u < |st.users| ==> st.users[u].coinsBalance == LedgerSum(st.ledger, u)
  }

  /** The ledger store's only write path: add `coins` to the balance of `uid`
      and append one row carrying the same `coins`. */
  function Post(st: State, uid: UserId, kind: TxKind, coins: int, amountRs: real, now: Instant): (st': State)
    requires uid < |st.users|
    ensures |st'.users| == |st.users|
    ensures st'.users[uid].coinsBalance == st.users[uid].coinsBalance + coins
    ensures st'.users[uid] == st.users[uid].(coinsBalance := st'.users[uid].coinsBalance)
    ensures forall v :: 0 <= v < |st.users| && v != uid ==> st'.users[v] == st.users[v]
    ensures st'.ledger == st.ledger + [Tx(uid, kind, coins, amountRs, now)]
    ensures st' == st.(users := st'.users, ledger := st'.ledger)
    ensures PostedAlone(st, st', Tx(uid, kind, coins, amountRs, now))
    ensures Valid(st) ==> Valid(st')
    ensures Reconciled(st) ==> Reconciled(st')
  {
    var u := st.users[uid];
    var t := Tx(uid, kind, coins, amountRs, now);
    var st' := st.(users := st.users[uid := u.(coinsBalance := u.coinsBalance + coins)],
                   ledger := st.ledger + [t]);
    PostReconciles(st, st', t);
    st'
  }

  lemma PostReconciles(st: State, st': State, t: WalletTransaction)
    requires t.user < |st.users|
    requires st'.ledger == st.ledger + [t]
    requires |st'.users| == |st.users|
    requires st'.users[t.user].coinsBalance == st.users[t.user].coinsBalance + t.coins
    requires forall v :: 0 <= v < |st.users| && v != t.user ==> st'.users[v].coinsBalance == st.users[v].coinsBalance
    ensures Reconciled(st) ==> Reconciled(st')
  {
    if Reconciled(st) {
      forall v | 0 <= v < |st'.users|
        ensures st'.users[v].coinsBalance == LedgerSum(st'.ledger, v)
      {
        LedgerSumAppend(st.ledger, t, v);
      }
    }
  }

  /** A step that keeps the ledger and every balance (and adds no user) keeps
      reconciliation. */
  lemma BalancesKept(st: State, st': State)
    requires BalancesUnchanged(st, st')
    ensures Reconciled(st) ==> Reconciled(st')
  {
  }

  /** A balance moved without a ledger row breaks reconciliation. */
  lemma {:induction false} UnpairedChangeBreaks(st: State, st': State, uid: UserId)
    requires Reconciled(st)
    requires st'.ledger == st.ledger && |st'.users| == |st.users|
    requires uid < |st.users| && st'.users[uid].coinsBalance != st.users[uid].coinsBalance
    ensures !Reconciled(st')
  {
    assert st.users[uid].coinsBalance == LedgerSum(st.ledger, uid);
  }

  /** `st'` differs from `st`, as far as users and ledger go, by exactly the
      posting of `t`: one row appended, the owner's balance moved by its
      coins, and every other user's record untouched. The owner's other
      fields are left to the caller, since some handlers update them too. */
  predicate PostedOnce(st: State, st': State, t: WalletTransaction) {
    && t.user < |st.users|
    && |st'.users| == |st.users|
    && st'.ledger == st.ledger + [t]
    && st'.users[t.user].coinsBalance == st.users[t.user].coinsBalance + t.coins
    && forall v :: 0 <= v < |st.users| && v != t.user ==> st'.users[v] == st.users[v]
  }

  /** `PostedOnce`, for a handler whose only change to the owner's record is
      the balance. */
  predicate PostedAlone(st: State, st': State, t: WalletTransaction) {
    && PostedOnce(st, st', t)
    && st'.users[t.user] == st.users[t.user].(coinsBalance := st.users[t.user].coinsBalance + t.coins)
  }

  /** `st'` has the ledger and every balance of `st` (and the same users). */
  predicate BalancesUnchanged(st: State, st': State) {
    && st'.ledger == st.ledger
    && |st'.users| == |st.users|
    && forall v :: 0 <= v < |st.users| ==> st'.users[v].coinsBalance == st.users[v].coinsBalance
  }

  lemma PostedOnceReconciles(st: State, st': State, t: WalletTransaction)
    requires PostedOnce(st, st', t)
    ensures Reconciled(st) ==> Reconciled(st')
  {
    PostReconciles(st, st', t);
  }
}
