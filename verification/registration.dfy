/** Sign-up with an optional referral code (`RegisterSerializer`): the code is
    normalised, a matching other user becomes the referrer, and a referred
    sign-up pays the referrer 50 coins and the newcomer 20, each through one
    ledger row. */
module Registration {
  import opened Optional
  import opened Text
  import opened Models
  import opened Ledger

  const ReferrerBonus: int := 50
  const NewcomerBonus: int := 20

  /** The first user whose referral code is `code`. */
  function FindByRefCode(users: seq<User>, code: string): (r: Option<UserId>)
    ensures r.Some? ==> r.value < |users| && users[r.value].refCode == code
    ensures r.Some? ==> forall v :: 0 <= v < r.value ==> users[v].refCode != code
    ensures r.None? <==> forall v :: 0 <= v < |users| ==> users[v].refCode != code
  {
    if |users| == 0 then None
    else if users[0].refCode == code then Some(0)
    else match FindByRefCode(users[1..], code)
      case None => None
      case Some(v) => Some(v + 1)
  }

  /** Referral codes are unique (the column's `unique=True`). */
  predicate UniqueRefCodes(users: seq<User>) {
    forall v, w :: 0 <= v < w < |users| ==> users[v].refCode != users[w].refCode
  }

  predicate UsernameTaken(users: seq<User>, name: string) {
    exists v :: 0 <= v < |users| && users[v].username == name
  }

  /** The code as looked up: `referral_code.strip().upper()`, empty when omitted. */
  function NormalisedCode(referralCode: Option<string>): (c: string)
    ensures |c| == |Strip(referralCode.GetOr(""))| <= |referralCode.GetOr("")|
    ensures forall i :: 0 <= i < |c| ==> c[i] == UpperChar(Strip(referralCode.GetOr(""))[i])
    ensures forall i :: 0 <= i < |c| ==> !('a' <= c[i] <= 'z')
  {
    Upper(Strip(referralCode.GetOr("")))
  }

  /** The referrer a sign-up with `code` and own code `ownCode` gets: none for
      an empty code or one's own code, otherwise the user holding the code,
      and an unknown code is ignored. */
  function ReferrerFor(users: seq<User>, code: string, ownCode: string): (r: Option<UserId>)
    ensures r.Some? <==> |code| > 0 && code != ownCode && exists v :: 0 <= v < |users| && users[v].refCode == code
    ensures r.Some? ==> r.value < |users| && users[r.value].refCode == code
  {
    if |code| > 0 && code != ownCode then FindByRefCode(users, code) else None
  }

  // ---------------------------------------------------------------------
  // Field validation
  // ---------------------------------------------------------------------

  /** The three required text fields of the sign-up form. */
  datatype Field = UsernameField | PasswordField | ConfirmField

  /** One field-level validation error. DRF collects them all into a single
      400 response before the cross-field check runs. */
  datatype FieldError =
    | Missing(field: Field)
    | Blank(field: Field)
    | UsernameTooLong
    | UsernameMalformed
    | UsernameInUse

  /** The username column's `max_length`. */
  const MaxUsernameLength: nat := 150

  /** A character `^[\w.@+-]+\Z` accepts, over ASCII. */
  predicate UsernameChar(c: char) {
    || 'a' <= c <= 'z' || 'A' <= c <= 'Z' || '0' <= c <= '9'
    || c == '_' || c == '.' || c == '@' || c == '+' || c == '-'
  }

  /** The errors of one required `CharField` (trimmed, blank not allowed). */
  function TextErrors(f: Field, value: Option<string>): (es: set<FieldError>)
    ensures Missing(f) in es <==> value.None?
    ensures Blank(f) in es <==> value.Some? && Strip(value.value) == ""
    ensures forall e :: e in es ==> e == Missing(f) || e == Blank(f)
    ensures es == {} <==> value.Some? && Strip(value.value) != ""
  {
    if value.None? then {Missing(f)}
    else if Strip(value.value) == "" then {Blank(f)}
    else {}
  }

  /** A username with a character the validator refuses. */
  predicate Malformed(name: string) {
    exists i :: 0 <= i < |name| && !UsernameChar(name[i])
  }

  /** `{e}` when `b` holds, otherwise no error. */
  function Flag(b: bool, e: FieldError): (es: set<FieldError>)
    ensures e in es <==> b
    ensures forall x :: x in es ==> x == e
  {
    if b then {e} else {}
  }

  /** The username's errors: the `CharField` checks, then on the trimmed
      value the length, character and uniqueness validators, all of which
      report. */
  function UsernameErrors(users: seq<User>, username: Option<string>): (es: set<FieldError>)
    ensures Missing(UsernameField) in es <==> username.None?
    ensures Blank(UsernameField) in es <==> username.Some? && Strip(username.value) == ""
    ensures Missing(PasswordField) !in es && Blank(PasswordField) !in es
    ensures Missing(ConfirmField) !in es && Blank(ConfirmField) !in es
    ensures UsernameTooLong in es <==> username.Some? && |Strip(username.value)| > MaxUsernameLength
    ensures UsernameMalformed in es <==> username.Some? && Strip(username.value) != "" && Malformed(Strip(username.value))
    ensures UsernameInUse in es <==>
              username.Some? && Strip(username.value) != "" && UsernameTaken(users, Strip(username.value))
  {
    if username.None? || Strip(username.value) == "" then TextErrors(UsernameField, username)
    else ValidatorErrors(users, Strip(username.value))
  }

  /** The length, character and uniqueness validators on a trimmed name. */
  function ValidatorErrors(users: seq<User>, name: string): (es: set<FieldError>)
    ensures UsernameTooLong in es <==> |name| > MaxUsernameLength
    ensures UsernameMalformed in es <==> Malformed(name)
    ensures UsernameInUse in es <==> UsernameTaken(users, name)
    ensures forall e :: e in es ==> e == UsernameTooLong || e == UsernameMalformed || e == UsernameInUse
    ensures forall f :: Missing(f) !in es && Blank(f) !in es
  {
    Flag(|name| > MaxUsernameLength, UsernameTooLong) + Flag(Malformed(name), UsernameMalformed)
    + Flag(UsernameTaken(users, name), UsernameInUse)
  }

  /** Every field-level error of a sign-up request. */
  function FieldErrors(users: seq<User>, username: Option<string>, password: Option<string>, confirm: Option<string>): (es: set<FieldError>)
    ensures es == {} ==> username.Some? && password.Some? && confirm.Some?
  {
    UsernameErrors(users, username) + TextErrors(PasswordField, password) + TextErrors(ConfirmField, confirm)
  }

  /** No field-level error: the three fields are present and non-blank once
      trimmed, and the trimmed username is short, well formed and free. */
  lemma FieldsValid(users: seq<User>, username: Option<string>, password: Option<string>, confirm: Option<string>)
    ensures FieldErrors(users, username, password, confirm) == {} <==>
              && username.Some? && password.Some? && confirm.Some?
              && Strip(username.value) != "" && Strip(password.value) != "" && Strip(confirm.value) != ""
              && |Strip(username.value)| <= MaxUsernameLength
              && (forall i :: 0 <= i < |Strip(username.value)| ==> UsernameChar(Strip(username.value)[i]))
              && !UsernameTaken(users, Strip(username.value))
  {
    var es := FieldErrors(users, username, password, confirm);
    if username.None? {
      assert Missing(UsernameField) in es;
    } else if password.None? {
      assert Missing(PasswordField) in es;
    } else if confirm.None? {
      assert Missing(ConfirmField) in es;
    } else if Strip(username.value) == "" {
      assert Blank(UsernameField) in es;
    } else if Strip(password.value) == "" {
      assert Blank(PasswordField) in es;
    } else if Strip(confirm.value) == "" {
      assert Blank(ConfirmField) in es;
    } else if |Strip(username.value)| > MaxUsernameLength {
      assert UsernameTooLong in es;
    } else if Malformed(Strip(username.value)) {
      assert UsernameMalformed in es;
    } else if UsernameTaken(users, Strip(username.value)) {
      assert UsernameInUse in es;
    } else {
      assert UsernameErrors(users, username) == {};
    }
  }

  datatype RegisterOutcome =
    | InvalidFields(errors: set<FieldError>)
    | PasswordMismatch
    | RefCodeCollision
    | Registered(userId: UserId)
  {
    function Status(): int {
      match this
      case Registered(_) => 201
      case RefCodeCollision => 500
      case _ => 400
    }
  }

  /** `RegisterSerializer` validation, then `create`. Every field-level error
      is reported together as one 400; only when there is none are the
      trimmed password and confirmation compared. `generatedCode` is the
      random eight-character code the new user receives, and a collision with
      an existing code fails the save. Otherwise the new user is appended at
      id `|users|` under its trimmed username with every counter at its
      default; with a referrer, the referrer gains 50 coins through one
      `referral` row and then the newcomer 20 through one `bonus` row. */
  function Register(st: State, username: Option<string>, password: Option<string>, confirm: Option<string>,
                    referralCode: Option<string>, generatedCode: string, now: Instant): (r: Step<RegisterOutcome>)
    ensures !r.out.Registered? ==> r.st == st
    ensures r.out.InvalidFields? <==> FieldErrors(st.users, username, password, confirm) != {}
    ensures r.out.InvalidFields? ==> r.out.errors == FieldErrors(st.users, username, password, confirm)
    ensures r.out == PasswordMismatch <==>
              FieldErrors(st.users, username, password, confirm) == {} && Strip(password.value) != Strip(confirm.value)
    ensures r.out == RefCodeCollision <==>
              && FieldErrors(st.users, username, password, confirm) == {} && Strip(password.value) == Strip(confirm.value)
              && exists v :: 0 <= v < |st.users| && st.users[v].refCode == generatedCode
    ensures r.out.Registered? ==>
              && FieldErrors(st.users, username, password, confirm) == {}
              && Strip(password.value) == Strip(confirm.value)
              && r.out.userId == |st.users|
              && |r.st.users| == |st.users| + 1
              && r.st.users[|st.users|].username == Strip(username.value)
              && r.st.users[|st.users|].refCode == generatedCode
              && r.st.users[|st.users|].referredBy == ReferrerFor(st.users, NormalisedCode(referralCode), generatedCode)
              && (forall v :: 0 <= v < |st.users| ==> st.users[v].refCode != generatedCode)
              && r.st == st.(users := r.st.users, ledger := r.st.ledger)
    ensures r.out.Registered? && ReferrerFor(st.users, NormalisedCode(referralCode), generatedCode).None? ==>
              && r.st.ledger == st.ledger
              && r.st.users == st.users + [NewUser(Strip(username.value), generatedCode, None)]
    ensures r.out.Registered? && ReferrerFor(st.users, NormalisedCode(referralCode), generatedCode).Some? ==>
              ReferralPaid(st, r.st, ReferrerFor(st.users, NormalisedCode(referralCode), generatedCode).value,
                           Strip(username.value), generatedCode, now)
    ensures forall v :: 0 <= v < |st.users| ==> r.st.users[v].refCode == st.users[v].refCode
    ensures Valid(st) ==> Valid(r.st)
  {
    var errors := FieldErrors(st.users, username, password, confirm);
    if errors != {} then Step(st, InvalidFields(errors))
    else Validated(st, Strip(username.value), Strip(password.value), Strip(confirm.value), generatedCode, NormalisedCode(referralCode), now)
  }

  /** The registration once every field has passed its own checks: the
      cross-field password match, then `create`. */
  function Validated(st: State, name: string, password: string, confirm: string, generatedCode: string,
                     lookup: string, now: Instant): (r: Step<RegisterOutcome>)
    ensures !r.out.Registered? ==> r.st == st
    ensures !r.out.InvalidFields?
    ensures r.out == PasswordMismatch <==> password != confirm
    ensures r.out == RefCodeCollision <==>
              password == confirm && exists v :: 0 <= v < |st.users| && st.users[v].refCode == generatedCode
    ensures r.out.Registered? ==>
              && password == confirm
              && r.out.userId == |st.users|
              && |r.st.users| == |st.users| + 1
              && r.st.users[|st.users|].username == name
              && r.st.users[|st.users|].refCode == generatedCode
              && r.st.users[|st.users|].referredBy == ReferrerFor(st.users, lookup, generatedCode)
              && (forall v :: 0 <= v < |st.users| ==> st.users[v].refCode != generatedCode)
              && r.st == st.(users := r.st.users, ledger := r.st.ledger)
    ensures r.out.Registered? && ReferrerFor(st.users, lookup, generatedCode).None? ==>
              && r.st.ledger == st.ledger
              && r.st.users == st.users + [NewUser(name, generatedCode, None)]
    ensures r.out.Registered? && ReferrerFor(st.users, lookup, generatedCode).Some? ==>
              ReferralPaid(st, r.st, ReferrerFor(st.users, lookup, generatedCode).value, name, generatedCode, now)
    ensures forall v :: 0 <= v < |st.users| ==> r.st.users[v].refCode == st.users[v].refCode
    ensures Valid(st) ==> Valid(r.st)
  {
    if password != confirm then Step(st, PasswordMismatch)
    else Admit(st, name, generatedCode, lookup, now)
  }

  /** `create` once validation has passed: a generated code already held
      fails the save; otherwise the user is enrolled under `name` with the
      referrer `lookup` names. */
  function Admit(st: State, name: string, generatedCode: string, lookup: string, now: Instant): (r: Step<RegisterOutcome>)
    ensures r.out == RefCodeCollision || r.out.Registered?
    ensures r.out == RefCodeCollision <==> exists v :: 0 <= v < |st.users| && st.users[v].refCode == generatedCode
    ensures r.out == RefCodeCollision ==> r.st == st
    ensures r.out.Registered? ==>
              && r.out.userId == |st.users|
              && |r.st.users| == |st.users| + 1
              && r.st.users[|st.users|].username == name
              && r.st.users[|st.users|].refCode == generatedCode
              && r.st.users[|st.users|].referredBy == ReferrerFor(st.users, lookup, generatedCode)
              && (forall v :: 0 <= v < |st.users| ==> st.users[v].refCode != generatedCode)
              && r.st == st.(users := r.st.users, ledger := r.st.ledger)
    ensures r.out.Registered? && ReferrerFor(st.users, lookup, generatedCode).None? ==>
              && r.st.ledger == st.ledger
              && r.st.users == st.users + [NewUser(name, generatedCode, None)]
    ensures r.out.Registered? && ReferrerFor(st.users, lookup, generatedCode).Some? ==>
              ReferralPaid(st, r.st, ReferrerFor(st.users, lookup, generatedCode).value, name, generatedCode, now)
    ensures forall v :: 0 <= v < |st.users| ==> r.st.users[v].refCode == st.users[v].refCode
    ensures Valid(st) ==> Valid(r.st)
  {
    if FindByRefCode(st.users, generatedCode).Some? then Step(st, RefCodeCollision)
    else Step(Enrol(st, name, generatedCode, ReferrerFor(st.users, lookup, generatedCode), now), Registered(|st.users|))
  }

  /** The state after a referred sign-up saved as user `|st.users|`: the
      referrer `ref` gains the 50-coin bonus and nothing else, the newcomer is
      a fresh user named `name` with code `code` and referrer `ref` holding
      the 20-coin bonus, no other user changes, and the two rows are
      appended, the referrer's first. */
  predicate ReferralPaid(st: State, st': State, ref: UserId, name: string, code: string, now: Instant) {
    && ref < |st.users| && |st'.users| == |st.users| + 1
    && st'.ledger == st.ledger + [Tx(ref, Referral, ReferrerBonus, 0.0, now), Tx(|st.users|, Bonus, NewcomerBonus, 0.0, now)]
    && st'.users[ref] == st.users[ref].(coinsBalance := st.users[ref].coinsBalance + ReferrerBonus)
    && st'.users[|st.users|] == NewUser(name, code, Some(ref)).(coinsBalance := NewcomerBonus)
    && forall v :: 0 <= v < |st.users| && v != ref ==> st'.users[v] == st.users[v]
  }

  /** Saving the new user with its referrer, then paying the referral bonuses
      when there is a referrer. */
  function Enrol(st: State, username: string, code: string, referrer: Option<UserId>, now: Instant): (st': State)
    requires referrer.Some? ==> referrer.value < |st.users|
    ensures |st'.users| == |st.users| + 1
    ensures st'.users[|st.users|].username == username && st'.users[|st.users|].refCode == code
    ensures st'.users[|st.users|].referredBy == referrer
    ensures forall v :: 0 <= v < |st.users| ==> st'.users[v].refCode == st.users[v].refCode
    ensures st' == st.(users := st'.users, ledger := st'.ledger)
    ensures referrer.None? ==> st'.ledger == st.ledger && st'.users == st.users + [NewUser(username, code, None)]
    ensures referrer.Some? ==> ReferralPaid(st, st', referrer.value, username, code, now)
    ensures Valid(st) ==> Valid(st')
    ensures Valid(st) && Reconciled(st) ==> Reconciled(st')
  {
    var saved := st.(users := st.users + [NewUser(username, code, referrer)]);
    assert Valid(st) ==> Valid(saved);
    NewcomerReconciles(st, saved);
    match referrer
    case None => saved
    case Some(ref) => PayReferral(saved, ref, |st.users|, now)
  }

  /** The two referral postings: 50 to the referrer, then 20 to the newcomer. */
  function PayReferral(st: State, ref: UserId, newcomer: UserId, now: Instant): (st': State)
    requires ref < |st.users| && newcomer < |st.users| && ref != newcomer
    ensures |st'.users| == |st.users|
    ensures st'.ledger == st.ledger + [Tx(ref, Referral, ReferrerBonus, 0.0, now), Tx(newcomer, Bonus, NewcomerBonus, 0.0, now)]
    ensures st'.users[ref] == st.users[ref].(coinsBalance := st.users[ref].coinsBalance + ReferrerBonus)
    ensures st'.users[newcomer] == st.users[newcomer].(coinsBalance := st.users[newcomer].coinsBalance + NewcomerBonus)
    ensures forall v :: 0 <= v < |st.users| && v != ref && v != newcomer ==> st'.users[v] == st.users[v]
    ensures st' == st.(users := st'.users, ledger := st'.ledger)
    ensures Valid(st) ==> Valid(st')
    ensures Reconciled(st) ==> Reconciled(st')
  {
    var paid := Post(st, ref, Referral, ReferrerBonus, 0.0, now);
    Post(paid, newcomer, Bonus, NewcomerBonus, 0.0, now)
  }

  /** A sign-up never breaks reconciliation: the newcomer starts at zero with
      no ledger rows, and each bonus is paired with its row. */
  lemma RegisterReconciles(st: State, username: Option<string>, password: Option<string>, confirm: Option<string>,
                           referralCode: Option<string>, generatedCode: string, now: Instant)
    requires Valid(st) && Reconciled(st)
    ensures Reconciled(Register(st, username, password, confirm, referralCode, generatedCode, now).st)
  {
    if FieldErrors(st.users, username, password, confirm) == {} && Strip(password.value) == Strip(confirm.value) {
      AdmitReconciles(st, Strip(username.value), generatedCode, NormalisedCode(referralCode), now);
    }
  }

  /** `create` keeps a reconciled state reconciled. */
  lemma AdmitReconciles(st: State, name: string, generatedCode: string, lookup: string, now: Instant)
    requires Valid(st) && Reconciled(st)
    ensures Reconciled(Admit(st, name, generatedCode, lookup, now).st)
  {
    if FindByRefCode(st.users, generatedCode).None? {
      var referrer := ReferrerFor(st.users, lookup, generatedCode);
      assert Admit(st, name, generatedCode, lookup, now).st == Enrol(st, name, generatedCode, referrer, now);
    }
  }

  /** Appending a zero-balance user to a reconciled state whose ledger mentions
      only existing users keeps it reconciled. */
  lemma NewcomerReconciles(st: State, saved: State)
    requires saved.ledger == st.ledger && |saved.users| == |st.users| + 1
    requires saved.users[..|st.users|] == st.users && saved.users[|st.users|].coinsBalance == 0
    ensures Valid(st) && Reconciled(st) ==> Reconciled(saved)
  {
    if Valid(st) && Reconciled(st) {
      LedgerSumOfNewcomer(st.ledger, |st.users|, |st.users|);
      forall v | 0 <= v < |st.users|
        ensures saved.users[v].coinsBalance == LedgerSum(saved.ledger, v)
      {
        assert saved.users[v] == saved.users[..|st.users|][v];
      }
    }
  }

  /** A sign-up keeps referral codes unique. */
  lemma RegisterKeepsCodesUnique(st: State, username: Option<string>, password: Option<string>, confirm: Option<string>,
                                 referralCode: Option<string>, generatedCode: string, now: Instant)
    requires UniqueRefCodes(st.users)
    ensures UniqueRefCodes(Register(st, username, password, confirm, referralCode, generatedCode, now).st.users)
  {
    if FieldErrors(st.users, username, password, confirm) == {} && Strip(password.value) == Strip(confirm.value) {
      AdmitKeepsCodesUnique(st, Strip(username.value), generatedCode, NormalisedCode(referralCode), now);
    }
  }

  /** `create` keeps referral codes unique: it saves only under a code
      nobody holds. */
  lemma AdmitKeepsCodesUnique(st: State, name: string, generatedCode: string, lookup: string, now: Instant)
    requires UniqueRefCodes(st.users)
    ensures UniqueRefCodes(Admit(st, name, generatedCode, lookup, now).st.users)
  {
    if FindByRefCode(st.users, generatedCode).None? {
      var referrer := ReferrerFor(st.users, lookup, generatedCode);
      assert Admit(st, name, generatedCode, lookup, now).st == Enrol(st, name, generatedCode, referrer, now);
      EnrolKeepsCodesUnique(st, name, generatedCode, referrer, now);
    }
  }

  /** Saving a user under a code nobody holds keeps referral codes unique. */
  lemma EnrolKeepsCodesUnique(st: State, username: string, code: string, referrer: Option<UserId>, now: Instant)
    requires referrer.Some? ==> referrer.value < |st.users|
    requires UniqueRefCodes(st.users)
    requires forall v :: 0 <= v < |st.users| ==> st.users[v].refCode != code
    ensures UniqueRefCodes(Enrol(st, username, code, referrer, now).users)
  {
    var users := Enrol(st, username, code, referrer, now).users;
    forall v, w | 0 <= v < w < |users|
      ensures users[v].refCode != users[w].refCode
    {
      if w < |st.users| {
        assert users[v].refCode == st.users[v].refCode && users[w].refCode == st.users[w].refCode;
      } else {
        assert users[v].refCode == st.users[v].refCode;
      }
    }
  }

  /** With unique codes, the referrer found is the only holder of the code. */
  lemma {:induction false} ReferrerIsUnique(users: seq<User>, code: string, ownCode: string, v: UserId)
    requires UniqueRefCodes(users) && v < |users| && users[v].refCode == code
    requires |code| > 0 && code != ownCode
    ensures ReferrerFor(users, code, ownCode) == Some(v)
  {
  }

  /** The code matches case-insensitively and ignores surrounding whitespace:
      a code typed in lower case with padding finds the same referrer as the
      stored upper-case code. */
  lemma NormalisationIgnoresPaddingAndCase(code: string)
    requires |code| > 0 && !IsSpace(code[0]) && !IsSpace(code[|code| - 1])
    requires forall i :: 0 <= i < |code| ==> 'A' <= code[i] <= 'Z' || '0' <= code[i] <= '9'
    ensures NormalisedCode(Some(" " + Lower(code) + " ")) == code
  {
    LowerUnpadded(code);
    StripSurrounding(Lower(code));
    UpperOfLower(code);
  }

  lemma LowerUnpadded(code: string)
    requires |code| > 0 && !IsSpace(code[0]) && !IsSpace(code[|code| - 1])
    requires forall i :: 0 <= i < |code| ==> 'A' <= code[i] <= 'Z' || '0' <= code[i] <= '9'
    ensures var lowered := Lower(code); |lowered| > 0 && !IsSpace(lowered[0]) && !IsSpace(lowered[|lowered| - 1])
  {
    var lowered := Lower(code);
    assert lowered[0] == LowerChar(code[0]);
    assert lowered[|lowered| - 1] == LowerChar(code[|code| - 1]);
  }

  /** Upper-casing undoes lower-casing on upper-case letters and digits. */
  lemma UpperOfLower(code: string)
    requires forall i :: 0 <= i < |code| ==> 'A' <= code[i] <= 'Z' || '0' <= code[i] <= '9'
    ensures Upper(Lower(code)) == code
  {
    var lowered := Lower(code);
    forall i | 0 <= i < |code|
      ensures UpperChar(lowered[i]) == code[i]
    {
      assert lowered[i] == LowerChar(code[i]);
    }
  }

  /** One space on each side of an unpadded string is stripped away. */
  lemma StripSurrounding(x: string)
    requires |x| > 0 && !IsSpace(x[0]) && !IsSpace(x[|x| - 1])
    ensures Strip(" " + x + " ") == x
  {
    var padded := " " + x + " ";
    assert padded[1..] == x + " ";
    assert StripLeft(padded) == x + " " by {
      assert IsSpace(padded[0]);
      assert StripLeft(x + " ") == x + " ";
    }
    assert (x + " ")[..|x|] == x;
    assert StripRight(x + " ") == x by {
      assert StripRight(x) == x;
    }
  }
}
