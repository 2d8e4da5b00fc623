# Coin ledger and reward integrity of the earning backend

This Dafny project models the coin bookkeeping of a Django earning backend. Users
earn coins from several sources:

- completed tasks;
- instant games;
- referral sign-ups;
- a daily bonus, a login streak and daily challenges;
- two offerwall partners (CPX Research and Tapjoy), which call back server-to-server.

Users spend coins by filing withdrawal requests, which an administrator
approves, rejects or marks paid. Read-only views summarise the ledger as
achievements and analytics.

Every request handler is a pure function from a `Models.State` to a `Step`, the
state after the request together with its response variant. The state is immutable:

- the users, task attempts, ledger rows, withdrawal requests and fraud events
  are sequences, and the id of a row is its position;
- the task catalogue, the partner receipts (keyed by the partner's
  transaction id) and the settings store are maps.

The central invariant is `Ledger.Reconciled`: every user's `coins_balance`
equals the sum of the coins of that user's ledger rows. Every handler that
pairs its balance change with a ledger row goes through `Ledger.Post`, and the
model proves that those handlers keep the invariant. The model also proves
that the two handlers which move balances without a ledger row break it:

- the administrator's rejection refund;
- the hash-checked CPX postback, for credits and reversals.

Three other properties are proved where they hold:

- idempotency of the partner postbacks, through their receipt maps;
- the once-per-day rules;
- the withdrawal and login-streak state machines.

Modules follow the source files:

| module | source file |
|---|---|
| `Models`, `Ledger`, `Limiter` | `core/models.py` |
| `Fraud` | `core/utils.py` |
| `TaskFlow`, `Withdrawals` | `core/views.py`, `core/views_admin.py` |
| `Registration` | `core/serializers.py` |
| `Tapjoy` | `core/tapjoy.py` |
| `Cpx` | `core/cpx.py` |
| `CpxHashed` | `core/views_cpx.py` |
| `Games` | `core/views_games.py` |
| `Streak` | `core/views_streak.py` |
| `DailyBonus` | `core/views_daily_bonus.py` |
| `Challenges` | `core/views_challenges.py` |
| `Achievements` | `core/views_achievements.py` |
| `Analytics` | `core/views_analytics.py` |

Support modules:

- `Text` holds Python's truthiness of request parameters, `strip`/`upper`/`lower`, and `int()`/`float()`/`Decimal()` parsing.
- `Aggregates` holds the ORM's filtered `count()` and `Sum(...) or 0`.
- `Queries` holds the row filters the read-side views share.
- `Optional` holds the `Option` type.

The source's divergences are modelled as written, each with a lemma that
exhibits it:

- The default coin-to-rupee rate is `"0.05"` when a withdrawal is created and `"0.1"` when it is rejected (`Withdrawals.DefaultRateMismatch`).
- A rejection refunds without a ledger row (`Withdrawals.RejectBreaksReconciliation`).
- The hash-checked CPX postback moves balances without ledger rows (`CpxHashed.BalanceMoveBreaksReconciliation`).
- Challenges keep no claim record, so a met challenge pays on every claim (`Challenges.ClaimTwicePaysTwice`).
- Game tasks are limited to one completion per task per day (`Games.OncePerDay`), although a comment in `core/utils.py` speaks of three per type.
- The analytics "this week" window spans eight calendar days while the daily breakdown spans seven (`Analytics.WeekWindowSpansEightDays`).
- A negative `DAILY_BONUS_COINS` setting turns the daily bonus into a debit (`DailyBonus.NegativeSettingDebits`).
- A rejected withdrawal stays counted in the analytics withdrawn total (`Analytics.AdminKeepsWithdrawn`).

## Model

| member | source | states |
|---|---|---|
| Models.DayOf | core/models.py:62 | The calendar date of an instant is the day whose 86400-second span contains it. |
| Models.NewUser | core/models.py:26-46 | A freshly saved user has zero balance, fraud score, earn count and streaks, and no earn, login or bonus date. |
| Models.NewWithdrawRequest | core/models.py:204-212 | A new withdrawal request is `pending`, with an empty admin note and no processing time, for the given user, amount and time. |
| Models.GetValue | core/models.py:96-101 | `Settings.get_value` yields the stored value when the key exists and the caller's default otherwise. |
| Ledger.LedgerSumAppend | core/models.py:170-177 | Appending a ledger row changes only its owner's ledger sum, by the row's coins. |
| Ledger.LedgerSumOfNewcomer | core/serializers.py:69 | A user created after every existing ledger row has a ledger sum of zero. |
| Ledger.Post | core/views.py:138-148 | The paired write adds `coins` to one balance and appends exactly one row carrying the same coins. No other user or field changes, and reconciliation and foreign keys are preserved. |
| Ledger.UnpairedChangeBreaks | core/views_admin.py:105-112 | In a reconciled store, moving a balance while leaving the ledger unchanged breaks reconciliation. |
| Limiter.CanEarnNow | core/models.py:61-65 | `can_earn_now` holds whenever the stored earn date is not today, whatever the count. On the same day it holds exactly when the count is below the maximum. |
| Limiter.RegisterEarn | core/models.py:70-83 | On a new day `register_earn` sets the date to today and the count to 1; on the same day it adds exactly 1. It always stamps the time and changes only those three fields. |
| Limiter.RegisterEachCounts | core/models.py:61-78 | Starting from another day's counters, N registrations on one day leave the count at N, so `can_earn_now(N)` is false for the rest of that day. |
| Limiter.TryEachBoundary | core/models.py:61-78 | k attempts gated by `can_earn_now(max)` on a fresh day are granted up to the cap and no further. The count ends at min(k, max(max, 1)), because the first attempt of a day passes whatever the cap. |
| Fraud.RecordFraudEvent | core/utils.py:13-30 | Adds exactly `score` to the user's fraud score and appends exactly one event carrying it. Nothing else changes. |
| Fraud.CheckTaskSpeed | core/utils.py:36-60 | No effect when the completion time is unset or the duration is at least `min_seconds`. A faster completion records one `suspicious_speed` event of score 5 and refuses. |
| Fraud.CheckDailyTaskLimit | core/utils.py:66-101 | Counts today's starts, excluding offerwall and game types. At or above the maximum it records one `limit_exceeded` event of score 10 (no IP, the user's device) and refuses; below it there is no effect. |
| Fraud.ChecksNeverLowerScore | core/utils.py:13-101 | With the fixed scores 5 and 10, neither check ever lowers any user's fraud score. |
| TaskFlow.FirstField | core/views.py:29 | The first comma-separated field: a prefix of the header containing no comma, followed by a comma when shorter. |
| TaskFlow.ClientIp | core/views.py:27-29 | The client address is the first field of a non-empty `X-Forwarded-For`, taken without trimming, otherwise `REMOTE_ADDR`. |
| TaskFlow.StartTask | core/views.py:84-109 | The daily task limit runs first and keeps its fraud event on refusal (403). An unknown or inactive task is then 404 with no change. Otherwise exactly one `pending` attempt is appended, carrying the client address `get_client_ip` derives from the headers, and no balance or ledger row changes. |
| TaskFlow.CompleteTask | core/views.py:112-150 | An attempt that is not the caller's own pending one is 404, and a spent earning quota is 403; both leave the state unchanged. Past those guards the attempt is always marked completed, and the outcome is the reward exactly when at least `MIN_TASK_SECONDS` have passed since the start. A too-fast completion changes exactly three things: the completed attempt, the caller's fraud score (+5) and one appended `suspicious_speed` event. It earns nothing and does not call `register_earn`. Success changes exactly the completed attempt, the caller's record (`register_earn` plus the reward) and one appended `earn` row. Every other user, request, receipt and setting is unchanged. |
| TaskFlow.TaskFlowReconciles | core/views.py:136-148 | Starting and completing tasks keep every balance equal to its ledger sum. |
| Withdrawals.DecimalSetting | core/views.py:193-194 | A rate or minimum setting reads as the stored text parsed as a decimal, or as the default's value when the key is absent. |
| Withdrawals.ValidateAmountRs | core/serializers.py:190-194 | The serializer accepts an amount exactly when it is positive, and keeps it unchanged. The withdrawal view never calls this validator: it uses the serializer only to render its response, so `Withdrawals.CreateWithdrawal` does not apply it. |
| Withdrawals.Price | core/views.py:188-199 | Pricing classifies each outcome: an unparseable amount, an unreadable setting, an amount under the minimum and a zero rate. Otherwise `coins_needed = int(amount / rate)` at the creation rate, for an amount at or above the minimum. |
| Withdrawals.CreateWithdrawal | core/views.py:177-223 | Missing fields are 400 exactly when a field is absent, and every refusal leaves the state unchanged. The request succeeds exactly when the fields are present, pricing succeeds and the balance covers the price. On success the caller's record changes only in its balance, which drops by exactly `coins_needed` and stays non-negative. One `withdraw` row of `-coins_needed` and one `pending` request are appended, and nothing else changes. |
| Withdrawals.Settle | core/views.py:196-221 | Maps each pricing outcome to its response. A request is escrowed exactly when it is priced and the balance covers its coins; a priced request below the balance is refused. Escrow changes only the caller's balance, the ledger (one row) and the request list (one request). |
| Withdrawals.Escrow | core/views.py:204-221 | Debits the coins through one `withdraw` row and files one `pending` request. The owner's record changes only in its balance, and no other user, request or store changes. |
| Withdrawals.CreateRefusals | core/views.py:184-202 | Each refusal has exactly one cause: an unparseable amount, the minimum, an unreadable or zero rate, or an insufficient balance. |
| Withdrawals.CreateReconciles | core/views.py:204-221 | Creating a withdrawal keeps every balance equal to its ledger sum. |
| Withdrawals.AdminAction | core/views_admin.py:65-141 | An unknown id is 404, an unknown action 400, and the wrong current status 400 naming it; none changes state. A rejection with a zero or unreadable rate is 500. Each action succeeds exactly when the id exists, the action is known, the status is the one it requires and, for a rejection, the rate is readable and non-zero. A success changes only the request and, for a rejection, the owner's balance. Approve and mark-paid change only the request. Reject refunds `int(amount / rate)` at the rate read now (default 0.1) to the owner's balance, writes no ledger row, and marks the request rejected. An omitted note keeps the stored one. |
| Withdrawals.Reject | core/views_admin.py:94-117 | Rejecting a pending request fails with 500 and no change exactly when the rate is unreadable or zero. Otherwise the refund is `int(amount / rate)`, the owner's balance rises by it with no ledger row, the request is marked rejected with the time and note, and nothing else changes. |
| Withdrawals.TerminalStatuses | core/views_admin.py:77-141 | From `rejected` or `paid` no action succeeds, and the state is unchanged. |
| Withdrawals.IllegalTransitions | core/views_admin.py:77-130 | A second approval is refused with the approved status, and marking a pending request paid is refused, both with no change. |
| Withdrawals.ApproveAndPayReconcile | core/views_admin.py:84-130 | Approve, mark-paid and every refused action keep every balance equal to its ledger sum. |
| Withdrawals.RejectBreaksReconciliation | core/views_admin.py:101-112 | A rejection that refunds a non-zero amount leaves the owner's balance different from the ledger sum, because the refund has no ledger row. |
| Withdrawals.RoundTripWithConfiguredRate | core/views_admin.py:102-103 | With a configured, unchanged rate and an amount priced in whole paise, rejecting a fresh request refunds exactly the coins its creation debited. The balance returns to where it started. |
| Withdrawals.DefaultsParse | core/views.py:193-194 | Reading each setting with its default value agrees with `float(get_value(key, default_text))` for the source's three default texts. |
| Withdrawals.MinimumDefaultText | core/views.py:194 | The minimum's default text `"50"` parses to 50. |
| Withdrawals.CreateDefaultText | core/views.py:193 | The creation rate's default text `"0.05"` parses to 0.05. |
| Withdrawals.RejectDefaultText | core/views_admin.py:102 | The rejection rate's default text `"0.1"` parses to 0.1. |
| Withdrawals.DefaultRateMismatch | core/views_admin.py:102-103 | With no rate configured, creation debits `int(20 * amount)` but rejection refunds `int(10 * amount)`. |
| Registration.FindByRefCode | core/serializers.py:63-67 | Finds the first user holding the code, or reports that no user holds it. |
| Registration.NormalisedCode | core/serializers.py:47 | The looked-up code has the stripped code's length, and each character is that character upper-cased; it is empty when the code is omitted. |
| Registration.ReferrerFor | core/serializers.py:61-67 | A referrer is set exactly when the code is non-empty, differs from the user's own code and is held by an existing user; an unknown code is ignored. |
| Registration.Register | core/serializers.py:35-96 | Field errors are 400 exactly when some field is missing or blank after trimming, or the trimmed username is too long, malformed or taken; all errors are reported together. Trimmed passwords that differ are refused next, then a generated code that is already held. Each refusal changes nothing. On success the user is saved under the trimmed username with its generated code and referrer. With a referrer, the referrer gains exactly 50 through one `referral` row and the newcomer is saved holding exactly 20 through one `bonus` row, and no other user changes. Without one, only the user is appended. |
| Registration.Validated | core/serializers.py:35-96 | Once the fields are valid, differing passwords are refused with no change; equal ones go on to `create` with the same outcomes and effects as `Registration.Admit`. |
| Registration.Admit | core/serializers.py:46-96 | A generated code already held fails the save with no change. Otherwise the user is appended at the next id with its code and the referrer the normalised code names. A referral pays +50 to the referrer's record alone and saves the newcomer holding 20, with the two rows appended and no other user changed. Referral codes and foreign keys are preserved. |
| Registration.FieldsValid | core/serializers.py:17-33 | The fields are valid exactly when all three are present and non-blank after trimming, and the trimmed username has at most 150 allowed characters and is not taken. |
| Registration.Enrol | core/serializers.py:69-94 | Saves the newcomer with its referrer. With a referrer, that referrer's record changes only by +50 and the newcomer is a fresh user holding 20, with the two rows appended and no other user changed. Foreign keys and reconciliation are preserved. |
| Registration.PayReferral | core/serializers.py:71-94 | The two referral postings: +50 to the referrer and +20 to the newcomer, each with its own row. |
| Registration.RegisterReconciles | core/serializers.py:69-94 | A sign-up keeps every balance equal to its ledger sum. |
| Registration.NewcomerReconciles | core/serializers.py:69 | Adding a zero-balance user to a reconciled store keeps it reconciled. |
| Registration.RegisterKeepsCodesUnique | core/models.py:16 | Sign-up keeps referral codes unique. |
| Registration.ReferrerIsUnique | core/serializers.py:62-65 | With unique codes, the referrer found is the one holder of the code. |
| Registration.NormalisationIgnoresPaddingAndCase | core/serializers.py:47 | A code typed in lower case with surrounding spaces normalises to the stored upper-case code. |
| Tapjoy.VerifySignature | core/tapjoy.py:48-59 | False whenever the secret or the signature is empty; otherwise true exactly when the HMAC digest of the payload matches. |
| Tapjoy.Postback | core/tapjoy.py:76-177 | 400 exactly when the transaction id or the user id is missing. A bad signature is 401, checked only when both the secret and the signature are set. With the ids present and the signature accepted, a non-integer user id is exactly the next 400 and an unknown user exactly the 404. Only a credit changes state. |
| Tapjoy.Credit | core/tapjoy.py:139-177 | A non-positive amount is acknowledged without a receipt, and a known transaction id as a duplicate with no change. A new id credits `coins` through one `earn` row and stores an applied receipt. The credited user changes only in its balance, and no other user or store changes. |
| Tapjoy.PostbackReconciles | core/tapjoy.py:162-172 | The postback keeps every balance equal to its ledger sum. |
| Tapjoy.PostbackKeepsAllApplied | core/tapjoy.py:148-175 | Every stored receipt is applied, before and after any postback. |
| Tapjoy.ReplayCreditsOnce | core/tapjoy.py:148-175 | Replaying a credited postback is a duplicate that leaves the state as the first delivery left it, so the ledger grew by exactly one row. |
| Tapjoy.NoSecretNoCheck | core/tapjoy.py:108-117 | With no secret configured, an unsigned or wrongly signed postback is still credited. |
| Text.Or | core/tapjoy.py:92-94 | Python's `a or b` on parameters: the first when it is non-empty, else the second. The result is non-empty exactly when one of them is. |
| Text.OrElse | core/cpx.py:67-69 | Python's `a or "default"`: the parameter when it is non-empty, else the literal. |
| Text.Strip | core/serializers.py:47 | `str.strip()` removes only whitespace, and the result neither starts nor ends with whitespace. |
| Text.Upper | core/serializers.py:47 | `str.upper()` maps each character and leaves no lower-case ASCII letter. |
| Text.Lower | core/cpx.py:69 | `str.lower()` maps each character and leaves no upper-case ASCII letter. |
| Text.ParseInt | core/tapjoy.py:120-126 | `int(text)` succeeds exactly on optionally padded, optionally signed, non-empty digit strings. |
| Text.ParseShowInt | core/views_daily_bonus.py:25-29 | Parsing the decimal rendering of an integer gives the integer back. |
| Text.ParseDecimal | core/views.py:188-191 | `float(text)` succeeds exactly when the unsigned literal part parses. The value is non-negative without a minus sign and non-positive with one. |
| Text.ParseDecimalAccepts | core/views.py:188-191 | The parser accepts exactly an optional sign followed by digits with at most one decimal point and at least one digit, with whitespace around. |
| Text.ParseDecimalFraction | core/views.py:188-191 | A whole number, a point and a fraction part parse to the whole number plus the fraction's digits over ten to the power of their count. |
| Text.ParseDecimalNegated | core/views.py:188-191 | A minus sign in front of an unsigned literal negates its value, and is accepted exactly when the literal is. |
| Text.Trunc | core/views.py:199 | `int()` of a number truncates toward zero. |
| Text.IntOfFloatOrZero | core/cpx.py:90-94 | `int(float(amount))` truncates the parsed amount, and is 0 when the amount is missing or unparseable. |
| Text.IntOfFloatFallback | core/cpx.py:67-94 | Writing the `"0"` fallback as the value 0 agrees with parsing the text the source parses. |
| Cpx.StatusValue | core/cpx.py:68 | The status is `int(status or "1")`: 1 when absent or empty, otherwise the parsed text. |
| Cpx.StatusFallback | core/cpx.py:68 | Writing the `"1"` fallback as the value 1 agrees with parsing the text the source parses. |
| Cpx.Postback | core/cpx.py:54-128 | Missing ids are 400, a non-integer user id 400, an unknown user 404. An unparseable status fails before the duplicate check. Otherwise the receipt logic runs with the lower-cased event and the truncated amount (0 when unparseable). |
| Cpx.Record | core/cpx.py:96-128 | A known transaction id is a duplicate with no change. A new one always stores a receipt. It credits through one `earn` row, and marks the receipt applied, exactly when the status is 1 and the amount is positive. The credited user changes only in its balance, and no other user or store changes. |
| Cpx.PostbackReconciles | core/cpx.py:113-123 | The postback keeps every balance equal to its ledger sum. |
| Cpx.KnownKeyNeverCredits | core/cpx.py:108-110 | Once a transaction id has a receipt, no later postback with it changes anything, so an unapplied receipt stays unapplied. |
| Cpx.ReplayIsDuplicate | core/cpx.py:96-110 | Replaying a postback is a duplicate that leaves the state as the first delivery left it. |
| Cpx.NewKeyLeavesReceipt | core/cpx.py:97-126 | Every new transaction id leaves a receipt, applied exactly when it was credited. |
| CpxHashed.HashMatches | core/views_cpx.py:18-21 | The supplied hash must equal the MD5 of `user_id + "-" + security_hash`; `CpxHashed.ForgedHashRefused` states what the postback does with it. |
| CpxHashed.ForgedHashRefused | core/views_cpx.py:18-53 | With the parameters present and a server hash set, the postback answers "invalid hash" exactly when the supplied hash differs from the MD5 of `user_id + "-" + security_hash`, and such a postback changes nothing. |
| CpxHashed.AmountCoins | core/views_cpx.py:43-59 | `int(Decimal(amount_local))` truncates; an absent amount counts as 0, and unparseable text fails. |
| CpxHashed.FindByUsername | core/views_cpx.py:61-65 | Finds the user with the given username, or reports that none has it. |
| CpxHashed.Postback | core/views_cpx.py:24-106 | Missing parameters, an unset server hash, a hash mismatch, an unparseable amount and an unknown username are each 400 with no change. The amount and username refusals happen exactly when every earlier guard passed and that check fails. An unparseable status fails before the duplicate check. |
| CpxHashed.Apply | core/views_cpx.py:74-106 | A known id is a duplicate with no change. Status 1 adds the coins and status 2 lowers the balance to `max(0, balance - coins)`, both marking the receipt applied. Any other status stores an unapplied receipt. No ledger row is ever written. |
| CpxHashed.ReversalNeverNegative | core/views_cpx.py:98-104 | A reversal never leaves a negative balance. |
| CpxHashed.BalanceMoveBreaksReconciliation | core/views_cpx.py:89-104 | A credit or reversal that moves the balance breaks reconciliation, because no ledger row is written. |
| CpxHashed.NonZeroCreditBreaksReconciliation | core/views_cpx.py:91-96 | A status-1 postback with a non-zero amount under a new transaction id is a credit, and it always breaks reconciliation. |
| CpxHashed.ReplayIsDuplicate | core/views_cpx.py:74-87 | Replaying a postback is a duplicate and changes nothing. |
| Games.Reward | core/views_games.py:76-91 | Scratch card and spin wheel pay the draw; puzzle and quiz pay 50; another type pays its own positive reward. |
| Games.Complete | core/views_games.py:24-131 | The guards run in order: the task limit (403, its fraud event kept), the earning limit at 100 (403), an unknown or inactive task (404), a non-game type (400), and a completion of the same task today (400). Each refusal happens exactly when every earlier guard passed and its own check fails, and leaves the state unchanged. The game is rewarded exactly when all guards pass, and pays the per-type reward. |
| Games.Award | core/views_games.py:102-124 | A rewarded game appends one `completed` attempt, calls `register_earn` once and posts the reward as one `earn` row. No other user and no other store changes. |
| Games.RewardBounds | core/views_games.py:76-97 | The reward is within [20, 150] for every game and exactly 50 for puzzle and quiz, so the non-positive-reward refusal never happens. |
| Games.CompleteReconciles | core/views_games.py:113-124 | A game request keeps every balance equal to its ledger sum. |
| Games.AwardKeepsStarts | core/utils.py:79-85 | The attempt a rewarded game appends is not counted by the task-start limit. |
| Games.OncePerDay | core/views_games.py:61-74 | After a rewarded game, the same request later that day earns nothing and changes nothing. |
| Streak.StreakBonus | core/views_streak.py:55-56 | The bonus is twice the streak up to the cap and never above 50. |
| Streak.Advance | core/views_streak.py:26-85 | A first login starts a streak of 1, and a same-day login changes nothing. The next day extends the streak, lifts the longest and pays the capped bonus. Any other gap resets to 1 and keeps the longest. Only the consecutive branch pays. |
| Streak.Login | core/views_streak.py:18-85 | The login post applies the transition to the caller's record, and credits the bonus through one `bonus` row on a consecutive day. No other user changes, and only the ledger besides the users. |
| Streak.AdvanceKeepsInvariant | core/views_streak.py:26-85 | A new account satisfies `0 <= streak <= longest` (at least 1 once a login is recorded), and every login keeps it. |
| Streak.ResetNeedsInvariant | core/views_streak.py:75-79 | Without that invariant a reset can leave the streak above the longest streak. |
| Streak.BonusBounds | core/views_streak.py:55-56 | Under the invariant the bonus is between 0 and 50, and positive exactly on a consecutive day. |
| Streak.LoginIdempotentWithinDay | core/views_streak.py:38-44 | A second login on the same day pays nothing and changes nothing. |
| Streak.LoginReconciles | core/views_streak.py:58-67 | Logins keep every balance equal to its ledger sum. |
| Streak.ConsecutiveRun | core/views_streak.py:49-53 | Logging in on n consecutive days raises the streak by n, and the longest streak follows it. |
| Streak.GetStatus | core/views_streak.py:87-105 | The streak is reported active exactly when a login today would keep or extend it, that is when the last login was today or yesterday. |
| Streak.ActiveAfterLogin | core/views_streak.py:92-98 | Right after a login the streak is active that day and the next, but not the day after. |
| DailyBonus.BonusAmount | core/views_daily_bonus.py:51-56 | The bonus is the `DAILY_BONUS_COINS` setting parsed as an integer, or 20 when it is missing or unparseable. |
| DailyBonus.DefaultTextParses | core/views_daily_bonus.py:52-56 | Writing the `"20"` fallback as the value 20 agrees with parsing the source's default text. |
| DailyBonus.GetStatus | core/views_daily_bonus.py:12-35 | The status read changes nothing; `already_claimed` holds exactly when the claim date is today. |
| DailyBonus.Claim | core/views_daily_bonus.py:37-78 | A claim on an already-claimed day is 400 with no change. Otherwise the bonus is credited through one `bonus` row and the claim day recorded. The claimant changes only in those two fields, and no other user changes. |
| DailyBonus.OncePerDay | core/views_daily_bonus.py:44-61 | Two claims on the same day credit at most once: the second is refused and changes nothing. |
| DailyBonus.NextDayClaims | core/views_daily_bonus.py:44-49 | The claim is available again on any other day. |
| DailyBonus.ClaimReconciles | core/views_daily_bonus.py:58-69 | Claims keep every balance equal to its ledger sum. |
| DailyBonus.NegativeSettingDebits | core/views_daily_bonus.py:52-59 | A negative configured amount is taken as written and debits the balance. |
| Challenges.FromId | core/views_challenges.py:89-138 | Only the three known ids name a challenge; any other id names none. |
| Challenges.IdRoundTrip | core/views_challenges.py:94-138 | Each challenge is found by its own id. |
| Challenges.List | core/views_challenges.py:20-85 | The listing is dated today and has the three challenges in order, none claimed. Each entry shows its measured progress (tasks completed today, coins earned today, or the streak), its target 3/100/3 and its reward 30/50/20. It is completed exactly when the progress reaches the target. The total available is the sum of the met rewards, at most 100. |
| Challenges.ListingMatchesClaim | core/views_challenges.py:20-153 | Claiming a listed entry's id the same day pays exactly when the entry shows completed, and pays the reward it shows. |
| Challenges.Claim | core/views_challenges.py:87-158 | An unknown id or an unmet condition is 400 with no change. A met one pays its reward through one `bonus` row. The claimant changes only in its balance, and no other user changes. |
| Challenges.ClaimReconciles | core/views_challenges.py:100-109 | Claims keep every balance equal to its ledger sum. |
| Challenges.ClaimKeepsMet | core/views_challenges.py:117-122 | A claim leaves its challenge met, because the claim's own bonus row counts as earned today. |
| Challenges.ClaimTwicePaysTwice | core/views_challenges.py:87-153 | With no claim record, claiming a met challenge twice on the same day pays twice, with two rows. |
| Achievements.ThresholdsAscending | core/views_achievements.py:29-138 | Each family's thresholds are strictly ascending. |
| Achievements.Reached | core/views_achievements.py:29-52 | The reached thresholds are exactly those at or below the figure. |
| Achievements.NextMilestone | core/views_achievements.py:144 | The chained conditional yields a threshold above the figure, or nothing exactly when every threshold is reached. |
| Achievements.ReachedIsPrefix | core/views_achievements.py:144-167 | On ascending thresholds the reached ones form a prefix, and the next milestone is the smallest threshold above the figure. |
| Achievements.NoneReached | core/views_achievements.py:144 | Nothing is reached when every threshold is above the figure. |
| Achievements.Cumulative | core/views_achievements.py:29-80 | Badges are cumulative: reaching a threshold reaches every lower one of the family. |
| Achievements.MetricsOf | core/views_achievements.py:24-121 | The five figures are the earning sum (0 for none), the completed count, the streak, the referral count and the approved-or-paid withdrawal count. |
| Achievements.PostMovesTotalEarned | core/views_achievements.py:24-27 | Posting a row raises the owner's earning total by its coins when it is an earning row and leaves every other figure of every user unchanged. |
| Achievements.EnrolCountsReferral | core/views_achievements.py:24-101 | A referred sign-up raises the referrer's referral count by one and its earning total by the 50-coin bonus. |
| Achievements.BadgesOf | core/views_achievements.py:29-52 | Lists one badge per threshold, in order. |
| Achievements.UnlockedIn | core/views_achievements.py:29-138 | A family's unlocked badges are exactly its thresholds at or below its figure. |
| Achievements.AllUnlocked | core/views_achievements.py:29-138 | The unlocked list is the five families' lists in listing order; a badge is in it exactly when its own family unlocks it, and its length is the sum of the thresholds reached per family. |
| Achievements.LockedIn | core/views_achievements.py:143-167 | A family has a locked entry exactly when some threshold lies above its figure. The entry is that family's badge for the least such threshold, with the figure as progress. |
| Achievements.Get | core/views_achievements.py:169-174 | The unlocked list is ordered family by family (earnings, tasks, streak, referrals, withdrawals), each by threshold, so it has no duplicates. `total_unlocked` is the number of thresholds reached across the five families, and `total_available` is unlocked plus locked. The locked list is the earning family's next milestone followed by the task family's. |
| Achievements.UnlockedExactly | core/views_achievements.py:29-138 | A badge is listed as unlocked exactly when its family's figure reaches its threshold. |
| Achievements.LockedNotUnlocked | core/views_achievements.py:140-167 | A locked entry is an earning or task badge that is not unlocked, with progress below its target. |
| Achievements.NextFollowsUnlocked | core/views_achievements.py:144-167 | Each family is either fully unlocked or offers as its next milestone the threshold right after the unlocked ones. |
| Analytics.ByType | core/views_analytics.py:67-71 | There is a group for exactly the task types with a completed attempt, holding that type's count. |
| Analytics.Breakdown | core/views_analytics.py:87-99 | Exactly 7 entries, for today and the six previous days in descending order, each with that day's earnings. |
| Analytics.Get | core/views_analytics.py:24-127 | Each figure is its filtered sum or count: earnings over all time, today, the last 7 days and the last 30 days; completed tasks; withdrawn rupees; pending requests; referrals and active referrals. |
| Analytics.WindowsNested | core/views_analytics.py:26-52 | With non-negative earning rows: today ≤ week ≤ month ≤ total. |
| Analytics.TotalSplitsAtMonth | core/views_analytics.py:31-52 | Whatever the signs, the total is the month window plus the earnings dated before it. |
| Analytics.TaskCountsNested | core/views_analytics.py:54-65 | The completed counts satisfy today ≤ week ≤ total. |
| Analytics.BreakdownDescends | core/views_analytics.py:88-99 | The breakdown starts with today's figure and steps back one day at a time. |
| Analytics.WeekWindowSpansEightDays | core/views_analytics.py:27-99 | An earning dated seven days ago counts in the week total but in no breakdown entry. |
| Analytics.ActiveReferralsBounded | core/views_analytics.py:81-85 | Active referrals never exceed total referrals. |
| Analytics.TypeCountsAdd | core/views_analytics.py:67-71 | The per-type counts of distinct types add up to the count of attempts whose type is among them. |
| Analytics.ByTypeAddsUp | core/views_analytics.py:54-71 | When every attempt names a catalogue task, the per-type groups add up to the completed total. |
| Analytics.CreateCountsWithdrawn | core/views_analytics.py:73-79 | A new withdrawal raises the withdrawn total by its amount and the pending count by one. |
| Analytics.AdminKeepsWithdrawn | core/views_analytics.py:73-77 | No admin decision changes the withdrawn total, so a rejected request stays counted. |

## Left out

- HTTP and framework plumbing is not modelled. This covers the Django ORM, DRF request and response objects, JWT authentication, permission classes and URL routing. Each handler is a state transition returning a response variant, and the authenticated user is a user id.
- User ids are positions in the user sequence. `int(user_id)` is then checked against the number of users.
- Concurrency and atomicity are not modelled: `transaction.atomic`, races between `get_or_create` calls, row locking. Execution is sequential.
- Cryptography is a parameter: the HMAC-SHA256 digest (`core/tapjoy.py`) and the MD5 digest (`core/views_cpx.py`). The model treats them as functions and states only how their results are compared.
- Parsing covers plain literals only. `float()` and `Decimal()` accept just optionally padded, optionally signed `digits[.digits]` literals, computed exactly as reals. Exponents, `inf`/`nan`, underscores and non-ASCII digits count as unparseable, and binary floating-point rounding is not modelled.
- Two further number simplifications: `amount_rs` is not quantised to two decimals (see `Withdrawals.RoundTripWithConfiguredRate` below), and the fraud score is an integer, since only the scores 5.0 and 10.0 are ever added.
- Case mapping covers ASCII letters only, and `str.strip` uses the whitespace set of `str.isspace`.
- Time is whole seconds passed in as `now`, and the calendar date is `now / 86400` in one fixed time zone.
- Randomness is a parameter:
  - the referral code generation (`core/models.py:51-56`, `core/serializers.py:55-59`) is `generatedCode`;
  - the `random.randint(20, 150)` reward is `draw`, required to lie in that range.
- Free-text fields (transaction notes, fraud reasons, response messages) are not modelled. An admin note sent as JSON `null` is treated as omitted.
- Some read views and helpers are outside the core and not modelled: the wallet view, the withdrawal list, the profile, the task list, the referral/health/CORS/email views, the offerwall URL builders, the admin list views and the management commands.
- Tapjoy.Postback: the JSON body of a POST may carry non-string values, and these are not modelled; every parameter is an optional string. The source treats them differently: a `user_id` of `0` is falsy and refused as missing, while `int(5.7)` and `int(True)` accept a float or boolean id, which the model refuses.
- Tapjoy.VerifySignature: `hmac.compare_digest` raises on a signature with non-ASCII characters or of a non-string type, an unhandled 500 in the source. The model reports a mismatch (401) instead.
- Games.Complete: the catch-all `except Exception` that answers 500 (`core/views_games.py:133-142`) is not modelled, because no modelled step can raise once the guards pass.
- Analytics.Get: `user_level` and `total_experience` are not part of this model.
- Achievement names, icons, ids and descriptions are presentation and are not modelled. A badge is its family and threshold.
- Analytics.WindowsNested: proved only for users whose earning rows are non-negative, because the nesting of sums needs that. `Analytics.TotalSplitsAtMonth` holds without it.
- Registration.Register: a collision of the random code with an existing code is modelled as a failing save (500) with no change. The e-mail and phone fields and their validation are not modelled, nor are the null and surrogate characters DRF's `CharField` refuses. The username character class is ASCII only, where Django's validator also admits non-ASCII letters and digits. A field sent as JSON `null` counts as missing.
- Withdrawals.RoundTripWithConfiguredRate: proved only for amounts priced in whole paise. `amount_rs` is stored as `DecimalField(decimal_places=2)`, so an amount with three or more decimals is rounded when saved, and the refund, computed from the rounded amount, can differ from the debit by a coin.
- Withdrawals.CreateWithdrawal: an amount of 10^8 rupees or more overflows the `numeric(10, 2)` column after the balance has been debited. The source then leaves the user debited with no ledger row and no request; the model saves the request.
- Balances are unbounded integers. `coins_balance` is a 32-bit `IntegerField` in the source, and its overflow is not modelled.
