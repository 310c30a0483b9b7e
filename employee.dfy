/** The Employee document of models/employeeModel.js, reduced to the paths
    the authentication core reads or writes: its validators, its pre-save
    hashing hook, the staleness test for issued tokens and the generation of
    a password-reset token. */
module Employee {
  import opened Wrappers
  import opened Crypto
  import opened Text

  const MinPasswordLength: nat := 8

  /** A reset token lives ten minutes, in milliseconds. */
  const ResetWindowMs: nat := 10 * 60 * 1000

  /** Number of random bytes behind a reset token. */
  const ResetTokenBytes: nat := 32

  const Genders: set<string> := {"male", "female"}

  /** A persisted account: the schema paths the core touches. `None` is an
      unset (undefined) path; the empty email stands for a missing one.
      `role` is carried for the role gate although the schema declares no
      such path. */
  datatype AccountRecord = AccountRecord(
    id: Id,
    email: string,
    password: Option<string>,
    passwordConfirm: Option<string>,
    changedAt: Option<nat>,
    resetToken: Option<string>,
    resetExpires: Option<nat>,
    role: Option<string>,
    gender: string)

  /** The body of a signup request, as far as the core reads it: the
      credential paths, the gender, and the three schema paths that are
      otherwise written only by the reset and change flows. */
  datatype SignupInput = SignupInput(
    email: string,
    password: Option<string>,
    passwordConfirm: Option<string>,
    gender: Option<string>,
    passwordChangedAt: Option<nat>,
    passwordResetToken: Option<string>,
    passwordResetExpires: Option<nat>)

  /** The reset hash and its expiry are set together or absent together. */
  predicate ResetPaired(r: AccountRecord)
  {
    r.resetToken.Some? <==> r.resetExpires.Some?
  }

  // ---- setters ----

  /** The email path's setters: `trim`, then `lowercase`. */
  function NormalizeEmail(s: string): string
  {
    Lower(Trim(s))
  }

  lemma {:induction false} LowerKeepsTrimmed(s: string)
    requires Trimmed(s)
    ensures Trimmed(Lower(s))
  {
  }

  lemma {:induction false} LowerIdempotent(s: string)
    ensures Lower(Lower(s)) == Lower(s)
  {
    assert forall i | 0 <= i < |s| :: LowerChar(LowerChar(s[i])) == LowerChar(s[i]);
  }

  /** A stored email has no surrounding white space and no upper-case ASCII
      letter, and normalising it again leaves it as it is. */
  lemma NormalizeEmailSpec(s: string)
    ensures Trimmed(NormalizeEmail(s))
    ensures forall i | 0 <= i < |NormalizeEmail(s)| :: !IsUpperAscii(NormalizeEmail(s)[i])
    ensures NormalizeEmail(NormalizeEmail(s)) == NormalizeEmail(s)
  {
    var t := Trim(s);
    TrimSpec(s);
    LowerKeepsTrimmed(t);
    TrimOfTrimmed(Lower(t));
    LowerIdempotent(t);
  }

  /** The password path's `trim` setter, applied to whatever was assigned. */
  function TrimPassword(p: Option<string>): Option<string>
  {
    match p
    case None => None
    case Some(s) => Some(Trim(s))
  }

  /** The gender path: the enum's default when nothing is given. */
  function GenderOrDefault(g: Option<string>): (r: string)
    ensures g.None? ==> r == "male"
    ensures g.Some? ==> r == g.value
  {
    match g
    case None => "male"
    case Some(s) => s
  }

  /** The document `Employee.create(body)` builds before validation: every
      schema path the body carries is kept, with its setters applied; `role`
      is not a schema path and stays unset. */
  function NewRecord(id: Id, input: SignupInput): (r: AccountRecord)
    ensures r.id == id && r.role.None?
    ensures Trimmed(r.email) && r.email == Lower(Trim(input.email))
    ensures r.password == TrimPassword(input.password) && r.passwordConfirm == input.passwordConfirm
    ensures r.changedAt == input.passwordChangedAt
    ensures r.resetToken == input.passwordResetToken && r.resetExpires == input.passwordResetExpires
    ensures input.gender.None? ==> r.gender == "male"
  {
    NormalizeEmailSpec(input.email);
    AccountRecord(id, NormalizeEmail(input.email), TrimPassword(input.password),
                  input.passwordConfirm, input.passwordChangedAt, input.passwordResetToken,
                  input.passwordResetExpires, None, GenderOrDefault(input.gender))
  }

  // ---- validation ----

  datatype Violation =
    | PasswordRequired
    | PasswordTooShort
    | ConfirmRequired
    | PasswordsNotSame
    | EmailRequired
    | GenderNotInEnum

  predicate Missing(v: Option<string>)
  {
    v.None? || v.value == ""
  }

  /** What Mongoose's validation reports for a document: `required`
      rejects an unset or empty string, `minlength` any present value shorter
      than 8, the confirm validator (skipped when the confirm is unset) any
      confirm other than the password, and the enum any other gender. */
  function Violations(r: AccountRecord): (v: set<Violation>)
    ensures v == {} <==>
      r.password.Some? && |r.password.value| >= MinPasswordLength &&
      r.passwordConfirm == r.password && r.email != "" && r.gender in Genders
  {
    (if Missing(r.password) then {PasswordRequired} else {}) +
    (if r.password.Some? && |r.password.value| < MinPasswordLength then {PasswordTooShort} else {}) +
    (if Missing(r.passwordConfirm) then {ConfirmRequired} else {}) +
    (if r.passwordConfirm.Some? && r.passwordConfirm != r.password then {PasswordsNotSame} else {}) +
    (if r.email == "" then {EmailRequired} else {}) +
    (if r.gender !in Genders then {GenderNotInEnum} else {})
  }

  // ---- pre-save hook ----

  /** The hook's effect on a document whose password was modified: the
      password replaced by its bcrypt hash, the confirmation dropped. */
  function Hashed(r: AccountRecord): (h: AccountRecord)
    ensures r.password.Some? ==> h.password.Some? && BCompare(r.password.value, h.password.value)
    ensures h.passwordConfirm.None?
    ensures h.(password := r.password, passwordConfirm := r.passwordConfirm) == r
  {
    r.(password := match r.password case None => None case Some(p) => Some(BHash(p)),
       passwordConfirm := None)
  }

  // ---- staleness ----

  /** `changedBadgeIdAfter(iat)`, read against the schema's change timestamp
      in milliseconds: the timestamp is cut to whole seconds and compared
      strictly with the token's `iat`. */
  function ChangedPasswordAfter(changedAt: Option<nat>, iat: nat): bool
  {
    match changedAt
    case None => false
    case Some(ms) => iat < ms / 1000
  }

  /** A token is stale exactly when a change timestamp exists and falls in a
      whole second after the one the token was issued in. */
  lemma StaleExactly(changedAt: Option<nat>, iat: nat)
    ensures ChangedPasswordAfter(changedAt, iat) <==>
            changedAt.Some? && (iat + 1) * 1000 <= changedAt.value
  {
    if changedAt.Some? {
      var ms := changedAt.value;
      assert ms / 1000 * 1000 <= ms < ms / 1000 * 1000 + 1000;
      if iat < ms / 1000 {
        assert (iat + 1) * 1000 <= ms / 1000 * 1000;
      } else {
        assert (iat + 1) * 1000 > ms / 1000 * 1000 + 999;
      }
    }
  }

  /** A token issued in the same second as the change (or later) is not
      stale; any token issued in an earlier second is. */
  lemma StaleBySecond(ms: nat, iat: nat)
    ensures ChangedPasswordAfter(Some(ms), iat) <==> iat < IssuedAt(ms)
    ensures !ChangedPasswordAfter(Some(ms), IssuedAt(ms))
  {
  }

  // ---- the in-memory document ----

  /** A Mongoose document loaded from (or about to be inserted into) the
      collection. The flows assign its paths and then save it. */
  class Account {
    const id: Id
    const email: string
    var password: Option<string>
    var passwordConfirm: Option<string>
    var changedAt: Option<nat>
    var resetToken: Option<string>
    var resetExpires: Option<nat>
    const role: Option<string>
    const gender: string
    /** `isModified('password')`. */
    var passwordModified: bool

    function Record(): AccountRecord
      reads this
    {
      AccountRecord(id, email, password, passwordConfirm, changedAt,
                    resetToken, resetExpires, role, gender)
    }

    /** A document read from the collection: nothing modified yet. */
    constructor Load(r: AccountRecord)
      ensures Record() == r && !passwordModified
    {
      id, email, password, passwordConfirm := r.id, r.email, r.password, r.passwordConfirm;
      changedAt, resetToken, resetExpires := r.changedAt, r.resetToken, r.resetExpires;
      role, gender := r.role, r.gender;
      passwordModified := false;
    }

    /** A new document built from a signup body: every path counts as modified. */
    constructor Create(newId: Id, input: SignupInput)
      ensures Record() == NewRecord(newId, input) && passwordModified
    {
      id, email := newId, NormalizeEmail(input.email);
      password, passwordConfirm := TrimPassword(input.password), input.passwordConfirm;
      changedAt := input.passwordChangedAt;
      resetToken, resetExpires := input.passwordResetToken, input.passwordResetExpires;
      role, gender := None, GenderOrDefault(input.gender);
      passwordModified := true;
    }

    /** `doc.password = p`: the trim setter runs and the path is modified. */
    method SetPassword(p: Option<string>)
      modifies this
      ensures Record() == old(Record()).(password := TrimPassword(p))
      ensures passwordModified
    {
      password := TrimPassword(p);
      passwordModified := true;
    }

    /** `createBadgeIdResetToken`: 32 random bytes, given here as `entropy`,
        become the hex token that is returned; its SHA-256 and an expiry ten
        minutes after `now` are stored together. */
    method CreateResetToken(entropy: seq<byte>, now: nat) returns (plain: string)
      requires |entropy| == ResetTokenBytes
      modifies this
      ensures plain == HexEncode(entropy) && |plain| == 64
      ensures Record() == old(Record()).(resetToken := Some(H(plain)),
                                         resetExpires := Some(now + ResetWindowMs))
      ensures ResetPaired(Record())
      ensures passwordModified == old(passwordModified)
    {
      plain := HexEncode(entropy);
      resetToken := Some(H(plain));
      resetExpires := Some(now + 10 * 60 * 1000);
    }

    /** The pre-save hook: nothing happens unless the password was modified;
        then the password is replaced by its hash and the confirmation dropped. */
    method PreSave()
      modifies this
      ensures Record() == if old(passwordModified) then Hashed(old(Record())) else old(Record())
      ensures passwordModified == old(passwordModified)
    {
      if !passwordModified {
        return;
      }
      if password.Some? {
        password := Some(BHash(password.value));
      }
      passwordConfirm := None;
    }
  }
}
