/** The records of the coin ledger: users with their embedded counters, the
    task catalogue and task attempts, the append-only wallet ledger, withdrawal
    requests, fraud events, the two partners' receipt tables and the key/value
    settings store, gathered into one immutable `State`.

    Identifiers of users, task attempts and withdrawal requests are positions
    in their sequences, so creating a row appends it and the new id is the old
    length. Times are whole seconds (`Instant`) and calendar days are `Day`
    numbers; the date of an instant is its floor division by 86400 (one fixed
    time zone). */
module Models {
  import opened Optional

  type UserId = nat
  type TaskId = nat
  type Day = int
  type Instant = int

  const SecondsPerDay: int := 86400

  /** The calendar date of an instant. */
  function DayOf(t: Instant): (d: Day)
    ensures d * SecondsPerDay <= t < (d + 1) * SecondsPerDay
  {
    t / SecondsPerDay
  }

  /** The first instant of a day falls on that day. */
  lemma DayOfStart(d: Day)
    ensures DayOf(d * SecondsPerDay) == d
  {
  }

  // ---------------------------------------------------------------------
  // User
  // ---------------------------------------------------------------------

  datatype User = User(
    username: string,
    refCode: string,
    referredBy: Option<UserId>,
    deviceId: string,
    fraudScore: int,
    coinsBalance: int,
    lastEarnTime: Option<Instant>,
    dailyEarnCount: int,
    lastEarnDate: Option<Day>,
    dailyBonusClaimed: Option<Day>,
    loginStreak: int,
    lastLoginDate: Option<Day>,
    longestStreak: int
  )

  /** A freshly saved user: every counter at its column default. */
  function NewUser(username: string, refCode: string, referredBy: Option<UserId>): (u: User)
    ensures u.coinsBalance == 0 && u.fraudScore == 0 && u.dailyEarnCount == 0
    ensures u.loginStreak == 0 && u.longestStreak == 0
    ensures u.lastEarnDate.None? && u.lastLoginDate.None? && u.dailyBonusClaimed.None?
  {
    User(username, refCode, referredBy, "", 0, 0, None, 0, None, None, 0, None, 0)
  }

  // ---------------------------------------------------------------------
  // Tasks and task attempts
  // ---------------------------------------------------------------------

  datatype TaskType = Video | Quiz | Offerwall | TapjoyOfferwall | ScratchCard | SpinWheel | Puzzle

  datatype Task = Task(kind: TaskType, title: string, rewardCoins: nat, isActive: bool)

  datatype UserTaskStatus = TaskPending | TaskCompleted | TaskCancelled

  datatype UserTask = UserTask(
    user: UserId,
    task: TaskId,
    status: UserTaskStatus,
    startedAt: Instant,
    completedAt: Option<Instant>,
    ipAddress: Option<string>,
    deviceId: Option<string>
  )

  // ---------------------------------------------------------------------
  // Ledger
  // ---------------------------------------------------------------------

  datatype TxKind = Earn | Withdraw | Bonus | Referral {
    /** The kinds the read-side aggregations count as earnings. */
    predicate IsEarning() {
      Earn? || Bonus? || Referral?
    }
  }

  /** One immutable ledger row; `coins` is signed. */
  datatype WalletTransaction = Tx(user: UserId, kind: TxKind, coins: int, amountRs: real, createdAt: Instant)

  // ---------------------------------------------------------------------
  // Withdrawals
  // ---------------------------------------------------------------------

  datatype WithdrawStatus = Pending | Approved | Rejected | Paid

  datatype WithdrawRequest = WithdrawRequest(
    user: UserId,
    amountRs: real,
    payMethod: string,
    accountId: string,
    status: WithdrawStatus,
    adminNote: string,
    createdAt: Instant,
    processedAt: Option<Instant>
  )

  /** A withdrawal request as created: `pending`, no note, not processed. */
  function NewWithdrawRequest(user: UserId, amountRs: real, payMethod: string, accountId: string, now: Instant): (w: WithdrawRequest)
    ensures w.status == Pending && w.adminNote == "" && w.processedAt.None?
    ensures w.user == user && w.amountRs == amountRs && w.createdAt == now
  {
    WithdrawRequest(user, amountRs, payMethod, accountId, Pending, "", now, None)
  }

  // ---------------------------------------------------------------------
  // Fraud events
  // ---------------------------------------------------------------------

  datatype FraudEventType = SuspiciousSpeed | LimitExceeded | OtherFraud

  datatype FraudEvent = FraudEvent(
    user: UserId,
    eventType: FraudEventType,
    score: int,
    ipAddress: Option<string>,
    deviceId: Option<string>,
    createdAt: Instant
  )

  // ---------------------------------------------------------------------
  // Partner receipts (keyed by the partner's transaction id)
  // ---------------------------------------------------------------------

  datatype CpxReceipt = CpxReceipt(user: UserId, event: string, status: int, amountLocal: int, applied: bool, createdAt: Instant)

  datatype TapjoyReceipt = TapjoyReceipt(user: UserId, currencyAmount: int, applied: bool, createdAt: Instant)

  // ---------------------------------------------------------------------
  // The whole store
  // ---------------------------------------------------------------------

  datatype State = State(
    users: seq<User>,
    tasks: map<TaskId, Task>,
    userTasks: seq<UserTask>,
    ledger: seq<WalletTransaction>,
    withdrawals: seq<WithdrawRequest>,
    fraudEvents: seq<FraudEvent>,
    cpx: map<string, CpxReceipt>,
    tapjoy: map<string, TapjoyReceipt>,
    settings: map<string, string>
  )

  /** The result of a request handler: the state after it and its response. */
  datatype Step<O> = Step(st: State, out: O)

  /** Foreign keys the handlers follow: every task attempt names an existing
      user and catalogue task, every withdrawal request and ledger row an
      existing user. */
  predicate Valid(st: State) {
    && (forall i :: 0 <= i < |st.userTasks| ==> st.userTasks[i].user < |st.users| && st.userTasks[i].task in st.tasks)
    && (forall i :: 0 <= i < |st.withdrawals| ==> st.withdrawals[i].user < |st.users|)
    && (forall i :: 0 <= i < |st.ledger| ==> st.ledger[i].user < |st.users|)
  }

  /** Replaces one user's record. */
  function SetUser(st: State, uid: UserId, u: User): (st': State)
    requires uid < |st.users|
    ensures st'.users == st.users[uid := u]
    ensures st' == st.(users := st.users[uid := u])
  {
    st.(users := st.users[uid := u])
  }

  /** `Settings.get_value(key, default)`: the stored value when the key exists,
      otherwise the caller's default. */
  function GetValue(settings: map<string, string>, key: string, default: string): (r: string)
    ensures key in settings ==> r == settings[key]
    ensures key !in settings ==> r == default
  {
    if key in settings then settings[key] else default
  }
}
