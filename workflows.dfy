/** The request handlers of controllers/authController.js that change the
    collection or the request: `signup`, `protect`, `forgotBadgeId`,
    `resetBadgeId` and `updateBadgeId`. Each loads an `Account` document,
    assigns its paths and saves it back, as the source does; they are
    written here with the schema's own path names (see the as-written
    module for what the mismatched names do). */
module Workflows {
  import opened Wrappers
  import opened Crypto
  import opened Employee
  import opened Auth

  const NoSuchUser := "There is no user with user name address."
  const EmailFailed := "There was an error sending the email. Try again later"
  const TokenInvalidOrExpired := "Token is invalid or has expired"
  const WrongCurrentPassword := "Your current password is wrong."
  const NullUser := "TypeError: Cannot read properties of null"
  const BcryptIllegal := "bcrypt: Illegal arguments"

  /** A document after a new password and its confirmation were assigned
      and the change time was recorded. */
  function WithNewPassword(r: AccountRecord, password: Option<string>, confirm: Option<string>,
                           now: nat): AccountRecord
  {
    r.(password := TrimPassword(password), passwordConfirm := confirm, changedAt := Some(now))
  }

  /** The document `resetBadgeId` saves: the new password, and the reset
      pair cleared together. */
  function AfterReset(r: AccountRecord, password: Option<string>, confirm: Option<string>,
                      now: nat): AccountRecord
  {
    WithNewPassword(r, password, confirm, now).(resetToken := None, resetExpires := None)
  }

  /** The document `signup` should build: the body's credential paths and
      gender, with the change time and the reset pair left to the flows that
      own them. */
  function SignupRecord(id: Id, input: SignupInput): AccountRecord
  {
    NewRecord(id, input).(changedAt := None, resetToken := None, resetExpires := None)
  }

  /** No signup sets a role, so the role gate refuses every account signup
      creates, whatever roles the route lists. */
  lemma RestrictToRefusesSignedUp(roles: seq<string>, id: Id, input: SignupInput)
    ensures RestrictTo(roles, Hashed(SignupRecord(id, input))) == Fail(AppError(403, NoPermission))
  {
  }

  /** Replacing a record by one with the same id and email that is itself
      well formed keeps the collection's invariant. */
  lemma ReplaceKeepsInvariant(docs: seq<AccountRecord>, k: nat, rec: AccountRecord)
    requires StoreInvariant(docs) && k < |docs|
    requires rec.id == docs[k].id && rec.email == docs[k].email && WellFormed(rec)
    ensures StoreInvariant(docs[k := rec])
  {
    var d := docs[k := rec];
    assert forall j | 0 <= j < |d| :: d[j].id == docs[j].id && d[j].email == docs[j].email;
  }

  /** Appending a well-formed record with a fresh id and an email no
      account has keeps the collection's invariant. */
  lemma AppendKeepsInvariant(docs: seq<AccountRecord>, rec: AccountRecord)
    requires StoreInvariant(docs) && WellFormed(rec)
    requires forall j | 0 <= j < |docs| :: docs[j].id != rec.id
    requires FindFirst(docs, ByEmail(rec.email)).None?
    ensures StoreInvariant(docs + [rec])
  {
  }

  /** A saved password change retires every token issued in an earlier
      second than the change, and admits the token issued with it. */
  lemma ChangeRetiresOlderTokens(docs: seq<AccountRecord>, k: nat, now: nat, iat: nat)
    requires UniqueIds(docs) && k < |docs| && docs[k].changedAt == Some(now)
    ensures Admit(docs, Claims(docs[k].id, iat)).Ok? <==> iat >= IssuedAt(now)
    ensures iat < IssuedAt(now) ==> Admit(docs, Claims(docs[k].id, iat)) == Err(AppError(401, RecentlyChanged))
    ensures Admit(docs, SendToken(docs[k], 200, now).token) == Ok(docs[k])
  {
    FindByIdFinds(docs, k);
    StaleBySecond(now, iat);
    StaleBySecond(now, IssuedAt(now));
  }

  /** A reset or update leaves the account matching no reset lookup, so the
      same plain token cannot be used twice on it. */
  lemma ResetIsSingleUse(r: AccountRecord, password: Option<string>, confirm: Option<string>,
                         now: nat, hash: string, later: nat)
    ensures !Matches(ByResetToken(hash, later), Hashed(AfterReset(r, password, confirm, now)))
    ensures ResetPaired(Hashed(AfterReset(r, password, confirm, now)))
  {
  }

  /** A stored reset pair written by `createBadgeIdResetToken` at time
      `issued` matches a presented token exactly when it is the token that
      was generated and the ten minutes have not run out; `now` equal to the
      expiry is already too late. */
  lemma ResetLookupExactly(r: AccountRecord, plain: string, presented: string, issued: nat, now: nat)
    requires r.resetToken == Some(H(plain)) && r.resetExpires == Some(issued + ResetWindowMs)
    ensures Matches(ByResetToken(H(presented), now), r) <==>
            presented == plain && now < issued + ResetWindowMs
  {
    HInjective(presented, plain);
  }

  /** The incoming request as far as `protect` sees it. */
  class Request {
    const authorization: Option<string>
    const cookieJwt: Option<string>
    var user: Option<AccountRecord>

    constructor (authorization: Option<string>, cookieJwt: Option<string>)
      ensures this.authorization == authorization && this.cookieJwt == cookieJwt
      ensures user.None?
    {
      this.authorization := authorization;
      this.cookieJwt := cookieJwt;
      user := None;
    }
  }

  /** The Employee collection. */
  class Store {
    var docs: seq<AccountRecord>

    ghost predicate Valid()
      reads this
    {
      StoreInvariant(docs)
    }

    constructor ()
      ensures Valid() && docs == []
    {
      docs := [];
    }

    /** `doc.save(...)` of a loaded document: validation first (unless
        skipped), then the pre-save hook, then the write over the stored
        record with the same id. A failed validation writes nothing. */
    method Save(doc: Account, validate: bool) returns (r: Outcome<Failure>)
      requires FindFirst(docs, ById(doc.id)).Some?
      modifies this, doc
      ensures var k := FindFirst(old(docs), ById(doc.id)).value;
              var rec := old(doc.Record());
              if validate && Violations(rec) != {} then
                r == Fail(ValidationFailed(Violations(rec))) && docs == old(docs) &&
                doc.Record() == rec
              else
                var saved := if old(doc.passwordModified) then Hashed(rec) else rec;
                r == Pass && doc.Record() == saved && !doc.passwordModified &&
                docs == old(docs)[k := saved]
    {
      var k := FindFirst(docs, ById(doc.id)).value;
      if validate {
        var v := Violations(doc.Record());
        if v != {} {
          return Fail(ValidationFailed(v));
        }
      }
      doc.PreSave();
      docs := docs[k := doc.Record()];
      doc.passwordModified := false;
      r := Pass;
    }

    /** `signup`: `Employee.create(body)` validates, hashes and inserts the
        new document (the unique email index refusing a second account with
        the same email), then a token is sent with status 201. The change
        time and the reset pair the body may carry are cleared first, so a
        client cannot plant them. */
    method Signup(id: Id, input: SignupInput, now: nat) returns (r: Result<Session, Failure>)
      requires Valid()
      requires forall j | 0 <= j < |docs| :: docs[j].id != id
      modifies this
      ensures Valid()
      ensures var rec := SignupRecord(id, input);
              if Violations(rec) != {} then
                r == Err(ValidationFailed(Violations(rec))) && docs == old(docs)
              else if FindFirst(old(docs), ByEmail(rec.email)).Some? then
                r == Err(DuplicateEmail) && docs == old(docs)
              else
                docs == old(docs) + [Hashed(rec)] && r == Ok(SendToken(Hashed(rec), 201, now))
    {
      var doc := new Account.Create(id, input);
      doc.changedAt, doc.resetToken, doc.resetExpires := None, None, None;
      var v := Violations(doc.Record());
      if v != {} {
        return Err(ValidationFailed(v));
      }
      doc.PreSave();
      if FindFirst(docs, ByEmail(doc.email)).Some? {
        return Err(DuplicateEmail);
      }
      AppendKeepsInvariant(docs, doc.Record());
      docs := docs + [doc.Record()];
      r := Ok(SendToken(doc.Record(), 201, now));
    }

    /** `protect`: find the token, verify it, load the account, refuse a
        stale token; only on success is the account attached to the request. */
    method Protect(req: Request, verify: string -> Result<Claims, TokenError>)
      returns (r: Result<AccountRecord, Failure>)
      modifies req
      ensures r == Gate(docs, req.authorization, req.cookieJwt, verify)
      ensures req.user == if r.Ok? then Some(r.value) else old(req.user)
    {
      var token: Option<string> := None;
      if BearerHeader(req.authorization) {
        var parts := Text.Split(req.authorization.value);
        if |parts| > 1 {
          token := Some(parts[1]);
        }
      } else if Truthy(req.cookieJwt) {
        token := req.cookieJwt;
      }
      if !Truthy(token) {
        return Err(AppError(401, NotLoggedIn));
      }
      var decoded := verify(token.value);
      if decoded.Err? {
        return Err(TokenRejected(decoded.error));
      }
      var found := FindFirst(docs, ById(decoded.value.id));
      if found.None? {
        return Err(AppError(401, UserGone));
      }
      var currentUser := docs[found.value];
      if ChangedPasswordAfter(currentUser.changedAt, decoded.value.iat) {
        return Err(AppError(401, RecentlyChanged));
      }
      req.user := Some(currentUser);
      r := Ok(currentUser);
    }

    /** `forgotBadgeId`: an unknown account is a 404 and nothing is written.
        Otherwise a reset token is generated from `entropy` and its hash and
        expiry saved without validation; the plain token goes to the
        notifier. If delivery fails, hash and expiry are cleared and saved
        again and the request fails with 500. */
    method ForgotPassword(email: string, entropy: seq<byte>, now: nat, delivered: bool)
      returns (r: Outcome<Failure>, mailed: Option<string>)
      requires Valid()
      requires |entropy| == ResetTokenBytes
      modifies this
      ensures Valid()
      ensures FindFirst(old(docs), ByEmail(email)).None? ==>
                r == Fail(AppError(404, NoSuchUser)) && mailed.None? && docs == old(docs)
      ensures FindFirst(old(docs), ByEmail(email)).Some? ==>
                var k := FindFirst(old(docs), ByEmail(email)).value;
                mailed == Some(HexEncode(entropy)) &&
                if delivered then
                  r == Pass &&
                  docs == old(docs)[k := old(docs)[k].(resetToken := Some(H(mailed.value)),
                                                       resetExpires := Some(now + ResetWindowMs))]
                else
                  r == Fail(AppError(500, EmailFailed)) &&
                  docs == old(docs)[k := old(docs)[k].(resetToken := None, resetExpires := None)]
    {
      var found := FindFirst(docs, ByEmail(email));
      if found.None? {
        return Fail(AppError(404, NoSuchUser)), None;
      }
      var k := found.value;
      var user := new Account.Load(docs[k]);
      FindByIdFinds(docs, k);
      var resetToken := user.CreateResetToken(entropy, now);
      ghost var pending := user.Record();
      ReplaceKeepsInvariant(docs, k, pending);
      var _ := Save(user, false);
      assert docs == old(docs)[k := pending];
      mailed := Some(resetToken);
      if delivered {
        return Pass, mailed;
      }
      FindByIdFinds(docs, k);
      user.resetToken := None;
      user.resetExpires := None;
      ghost var cleared := user.Record();
      ReplaceKeepsInvariant(docs, k, cleared);
      var _ := Save(user, false);
      r := Fail(AppError(500, EmailFailed));
    }

    /** `resetBadgeId`: the account whose stored hash equals the hash of the
        presented token and whose expiry is still ahead gets the new
        password, its reset pair cleared and its change time set, and the
        save validates; any other token is a 400 and writes nothing. */
    method ResetPassword(plain: string, password: Option<string>, passwordConfirm: Option<string>,
                         now: nat) returns (r: Result<Session, Failure>)
      requires Valid()
      modifies this
      ensures Valid()
      ensures FindFirst(old(docs), ByResetToken(H(plain), now)).None? ==>
                r == Err(AppError(400, TokenInvalidOrExpired)) && docs == old(docs)
      ensures FindFirst(old(docs), ByResetToken(H(plain), now)).Some? ==>
                var k := FindFirst(old(docs), ByResetToken(H(plain), now)).value;
                var cand := AfterReset(old(docs)[k], password, passwordConfirm, now);
                if Violations(cand) != {} then
                  r == Err(ValidationFailed(Violations(cand))) && docs == old(docs)
                else
                  docs == old(docs)[k := Hashed(cand)] && r == Ok(SendToken(Hashed(cand), 200, now))
    {
      var hashedToken := H(plain);
      var found := FindFirst(docs, ByResetToken(hashedToken, now));
      if found.None? {
        return Err(AppError(400, TokenInvalidOrExpired));
      }
      var k := found.value;
      var user := new Account.Load(docs[k]);
      FindByIdFinds(docs, k);
      user.SetPassword(password);
      user.passwordConfirm := passwordConfirm;
      user.resetToken := None;
      user.resetExpires := None;
      user.changedAt := Some(now);
      assert user.Record() == AfterReset(old(docs)[k], password, passwordConfirm, now);
      var saved := Save(user, true);
      if saved.Fail? {
        return Err(saved.error);
      }
      ReplaceKeepsInvariant(old(docs), k, user.Record());
      r := Ok(SendToken(user.Record(), 200, now));
    }

    /** `updateBadgeId` for the user `protect` attached: the current
        password must pass the bcrypt comparison (401 otherwise); then the
        new password is assigned, the change time set and the save
        validates. A user that vanished, or a missing current password,
        makes the handler throw. */
    method UpdatePassword(userId: Id, current: Option<string>, password: Option<string>,
                          passwordConfirm: Option<string>, now: nat) returns (r: Result<Session, Failure>)
      requires Valid()
      modifies this
      ensures Valid()
      ensures FindFirst(old(docs), ById(userId)).None? ==>
                r == Err(Crashed(NullUser)) && docs == old(docs)
      ensures FindFirst(old(docs), ById(userId)).Some? ==>
                var k := FindFirst(old(docs), ById(userId)).value;
                var cand := WithNewPassword(old(docs)[k], password, passwordConfirm, now);
                if current.None? then
                  r == Err(Crashed(BcryptIllegal)) && docs == old(docs)
                else if !BCompare(current.value, old(docs)[k].password.value) then
                  r == Err(AppError(401, WrongCurrentPassword)) && docs == old(docs)
                else if Violations(cand) != {} then
                  r == Err(ValidationFailed(Violations(cand))) && docs == old(docs)
                else
                  docs == old(docs)[k := Hashed(cand)] && r == Ok(SendToken(Hashed(cand), 200, now))
    {
      var found := FindFirst(docs, ById(userId));
      if found.None? {
        return Err(Crashed(NullUser));
      }
      var k := found.value;
      var user := new Account.Load(docs[k]);
      if current.None? {
        return Err(Crashed(BcryptIllegal));
      }
      if !BCompare(current.value, user.password.value) {
        return Err(AppError(401, WrongCurrentPassword));
      }
      user.SetPassword(password);
      user.passwordConfirm := passwordConfirm;
      user.changedAt := Some(now);
      assert user.Record() == WithNewPassword(old(docs)[k], password, passwordConfirm, now);
      var saved := Save(user, true);
      if saved.Fail? {
        return Err(saved.error);
      }
      ReplaceKeepsInvariant(old(docs), k, user.Record());
      r := Ok(SendToken(user.Record(), 200, now));
    }
  }
}
