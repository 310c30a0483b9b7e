/** The decisions of controllers/authController.js that compute a verdict
    without writing anything: extracting the bearer token, the
    authentication gate of `protect`, the role gate of `restrickTo`, the
    `login` decision and the response built by `createSendToken`. The
    collection of employees is a sequence of records searched in order. */
module Auth {
  import opened Wrappers
  import opened Crypto
  import opened Text
  import opened Employee

  /** How a request handler fails. `AppError` is `next(new AppError(message,
      status))`; the others are errors thrown inside the handler and passed on
      by `catchAsync` to the global error handler. */
  datatype Failure =
    | AppError(status: nat, message: string)
    | TokenRejected(reason: TokenError)
    | ValidationFailed(violations: set<Violation>)
    | DuplicateEmail
    | Crashed(cause: string)

  const NotLoggedIn := "You are not logged in! Please log in to get access."
  const UserGone := "The user belonging to this token does no longer exist."
  const RecentlyChanged := "User recently changed badgeId! Please log in again."
  const NoPermission := "You do not have permission to perform this action"
  const MissingCredentials := "Please provide user name and pin code!"
  const BadCredentials := "Incorrect user name or pin code"

  /** A successful response of `createSendToken`: status, the claims of the
      JWT that is sent in the body and in the `jwt` cookie, and the document. */
  datatype Session = Session(status: nat, token: Claims, document: AccountRecord)

  // ---- the collection ----

  /** The filters the core passes to `findById` / `findOne`. */
  datatype Query =
    | ById(id: Id)
    | ByEmail(email: string)
    | ByResetToken(hash: string, now: nat)

  predicate Matches(q: Query, r: AccountRecord)
  {
    match q
    case ById(id) => r.id == id
    case ByEmail(email) => r.email == email
    case ByResetToken(hash, now) =>
      r.resetToken == Some(hash) && r.resetExpires.Some? && r.resetExpires.value > now
  }

  /** `findOne(filter)`: the first document in collection order that matches. */
  function FindFirst(docs: seq<AccountRecord>, q: Query): (k: Option<nat>)
    ensures k.Some? ==> k.value < |docs| && Matches(q, docs[k.value]) &&
                        forall j | 0 <= j < k.value :: !Matches(q, docs[j])
    ensures k.None? ==> forall j | 0 <= j < |docs| :: !Matches(q, docs[j])
  {
    if docs == [] then None
    else if Matches(q, docs[0]) then Some(0)
    else match FindFirst(docs[1..], q)
      case None => None
      case Some(j) => Some(j + 1)
  }

  predicate UniqueIds(docs: seq<AccountRecord>)
  {
    forall i, j | 0 <= i < j < |docs| :: docs[i].id != docs[j].id
  }

  predicate UniqueEmails(docs: seq<AccountRecord>)
  {
    forall i, j | 0 <= i < j < |docs| :: docs[i].email != docs[j].email
  }

  /** What every persisted account satisfies: a password (hashed) is set,
      the plaintext confirmation is gone and the reset pair is paired. */
  predicate WellFormed(r: AccountRecord)
  {
    r.password.Some? && r.passwordConfirm.None? && ResetPaired(r)
  }

  predicate StoreInvariant(docs: seq<AccountRecord>)
  {
    UniqueIds(docs) && UniqueEmails(docs) &&
    forall k | 0 <= k < |docs| :: WellFormed(docs[k])
  }

  /** With unique ids, looking an account up by its id finds that account. */
  lemma FindByIdFinds(docs: seq<AccountRecord>, k: nat)
    requires UniqueIds(docs) && k < |docs|
    ensures FindFirst(docs, ById(docs[k].id)) == Some(k)
  {
  }

  // ---- token extraction ----

  /** JavaScript truthiness of an optional string: present and non-empty. */
  predicate Truthy(v: Option<string>)
  {
    v.Some? && v.value != ""
  }

  predicate BearerHeader(authorization: Option<string>)
  {
    Truthy(authorization) && StartsWith(authorization.value, "Bearer")
  }

  /** Step 1 of `protect`: a header starting with "Bearer" gives the second
      piece of `split(' ')` (undefined if there is none); otherwise a truthy
      `jwt` cookie; otherwise nothing. */
  function ExtractToken(authorization: Option<string>, cookieJwt: Option<string>): Option<string>
  {
    if BearerHeader(authorization) then
      var parts := Split(authorization.value);
      if |parts| > 1 then Some(parts[1]) else None
    else if Truthy(cookieJwt) then cookieJwt
    else None
  }

  /** Once the header starts with "Bearer", the cookie plays no part. */
  lemma HeaderWinsOverCookie(authorization: Option<string>, c1: Option<string>, c2: Option<string>)
    requires BearerHeader(authorization)
    ensures ExtractToken(authorization, c1) == ExtractToken(authorization, c2)
  {
  }

  /** The cookie is consulted exactly when the header is missing or not a
      bearer header, and then it is taken when truthy. */
  lemma CookieOnlyWithoutBearer(authorization: Option<string>, cookieJwt: Option<string>)
    requires !BearerHeader(authorization)
    ensures ExtractToken(authorization, cookieJwt) == (if Truthy(cookieJwt) then cookieJwt else None)
  {
  }

  /** A bearer header yields a token exactly when it holds a space; without
      one there is no token whatever the cookie holds, so "Bearer" alone wins
      over a valid cookie. */
  lemma {:induction false} BearerTokenIffSpace(h: string, cookieJwt: Option<string>)
    requires BearerHeader(Some(h))
    ensures ExtractToken(Some(h), cookieJwt).Some? <==> ' ' in h
  {
    match IndexOf(h, ' ')
    case None =>
      assert Split(h) == [h];
    case Some(i) =>
      assert Split(h) == [h[..i]] + Split(h[i + 1..]);
  }

  /** The token taken from a bearer header is the run of non-space
      characters right after the header's first space. */
  lemma {:induction false} BearerTokenIsSecondWord(h: string, cookieJwt: Option<string>, t: string)
    requires BearerHeader(Some(h))
    requires ExtractToken(Some(h), cookieJwt) == Some(t)
    ensures ' ' !in t
    ensures exists i :: 0 <= i && i + 1 + |t| <= |h| && h[i] == ' ' && ' ' !in h[..i] &&
                        h[i + 1..i + 1 + |t|] == t && (i + 1 + |t| == |h| || h[i + 1 + |t|] == ' ')
  {
    var parts := Split(h);
    match IndexOf(h, ' ')
    case None =>
      assert false;
    case Some(i) =>
      var rest := h[i + 1..];
      assert parts == [h[..i]] + Split(rest);
      assert t == Split(rest)[0];
      match IndexOf(rest, ' ')
      case None =>
        assert Split(rest) == [rest];
        assert h[i + 1..i + 1 + |t|] == t;
      case Some(j) =>
        assert Split(rest) == [rest[..j]] + Split(rest[j + 1..]);
        assert t == rest[..j];
        assert h[i + 1..i + 1 + |t|] == t;
        assert h[i + 1 + |t|] == rest[j];
  }

  // ---- the authentication gate ----

  /** Steps 3 and 4 of `protect` for claims that verified: the account named
      by the `id` claim must still exist and must not have changed its
      password after `iat`. */
  function Admit(docs: seq<AccountRecord>, c: Claims): Result<AccountRecord, Failure>
  {
    match FindFirst(docs, ById(c.id))
    case None => Err(AppError(401, UserGone))
    case Some(k) =>
      if ChangedPasswordAfter(docs[k].changedAt, c.iat) then Err(AppError(401, RecentlyChanged))
      else Ok(docs[k])
  }

  /** The whole of `protect` as a function of the store, the two token
      carriers and `jwt.verify` under the process secret. */
  function Gate(docs: seq<AccountRecord>, authorization: Option<string>, cookieJwt: Option<string>,
                verify: string -> Result<Claims, TokenError>): Result<AccountRecord, Failure>
  {
    var token := ExtractToken(authorization, cookieJwt);
    if !Truthy(token) then Err(AppError(401, NotLoggedIn))
    else match verify(token.value)
      case Err(e) => Err(TokenRejected(e))
      case Ok(c) => Admit(docs, c)
  }

  /** The gate lets a request through exactly when a token was found, it
      verifies, the account its `id` claim names exists and the token is not stale;
      what it attaches is that account. Every refusal is a 401 or a
      verification error. */
  lemma GateGrantsExactly(docs: seq<AccountRecord>, authorization: Option<string>,
                          cookieJwt: Option<string>, verify: string -> Result<Claims, TokenError>)
    requires UniqueIds(docs)
    ensures var g := Gate(docs, authorization, cookieJwt, verify);
            var t := ExtractToken(authorization, cookieJwt);
            g.Ok? <==>
              Truthy(t) && verify(t.value).Ok? &&
              exists k :: 0 <= k < |docs| && docs[k].id == verify(t.value).value.id &&
                          !ChangedPasswordAfter(docs[k].changedAt, verify(t.value).value.iat)
    ensures var g := Gate(docs, authorization, cookieJwt, verify);
            var t := ExtractToken(authorization, cookieJwt);
            g.Ok? ==> g.value in docs && g.value.id == verify(t.value).value.id
    ensures var g := Gate(docs, authorization, cookieJwt, verify);
            g.Err? ==> g.error.TokenRejected? || (g.error.AppError? && g.error.status == 401)
  {
    var t := ExtractToken(authorization, cookieJwt);
    if Truthy(t) && verify(t.value).Ok? {
      var c := verify(t.value).value;
      if exists k :: 0 <= k < |docs| && docs[k].id == c.id && !ChangedPasswordAfter(docs[k].changedAt, c.iat) {
        var k :| 0 <= k < |docs| && docs[k].id == c.id && !ChangedPasswordAfter(docs[k].changedAt, c.iat);
        FindByIdFinds(docs, k);
      }
    }
  }

  // ---- the role gate ----

  /** `restrickTo(...roles)`: the attached user's role must be one of the
      listed roles; an unset role is in no list. */
  function RestrictTo(roles: seq<string>, user: AccountRecord): (r: Outcome<Failure>)
    ensures r.Pass? <==> user.role.Some? && user.role.value in roles
    ensures r.Fail? ==> r.error == AppError(403, NoPermission)
  {
    if user.role.Some? && user.role.value in roles then Pass
    else Fail(AppError(403, NoPermission))
  }

  // ---- responses and login ----

  /** `createSendToken`, as evidently intended: a token for the user signed
      now, and the document with its password hash removed. */
  function SendToken(user: AccountRecord, status: nat, now: nat): (s: Session)
    ensures s.status == status && s.token.id == user.id
    ensures s.token.iat * 1000 <= now < s.token.iat * 1000 + 1000
    ensures s.document.password.None? && s.document.(password := user.password) == user
  {
    Session(status, Claims(user.id, IssuedAt(now)), user.(password := None))
  }

  /** `login`: both fields must be truthy, then the account with that email
      must exist and its hash must accept the password. */
  function Login(docs: seq<AccountRecord>, email: Option<string>, password: Option<string>,
                 now: nat): Result<Session, Failure>
  {
    if !Truthy(email) || !Truthy(password) then Err(AppError(400, MissingCredentials))
    else match FindFirst(docs, ByEmail(email.value))
      case None => Err(AppError(401, BadCredentials))
      case Some(k) =>
        match docs[k].password
        case None => Err(Crashed("bcrypt: Illegal arguments"))
        case Some(stored) =>
          if !BCompare(password.value, stored) then Err(AppError(401, BadCredentials))
          else Ok(SendToken(docs[k], 200, now))
  }

  /** Missing credentials are a 400. Otherwise, on a well-formed store,
      login issues a token exactly when some account has that email and a
      hash of that password, and the token is for that account; every other
      outcome is one and the same 401, so an unknown email and a wrong
      password cannot be told apart. */
  lemma LoginDecision(docs: seq<AccountRecord>, email: Option<string>, password: Option<string>, now: nat)
    requires StoreInvariant(docs)
    ensures !Truthy(email) || !Truthy(password) ==>
              Login(docs, email, password, now) == Err(AppError(400, MissingCredentials))
    ensures Truthy(email) && Truthy(password) ==>
              (Login(docs, email, password, now).Ok? <==>
                exists k :: 0 <= k < |docs| && docs[k].email == email.value &&
                            docs[k].password == Some(BHash(password.value)))
    ensures Truthy(email) && Truthy(password) && Login(docs, email, password, now).Err? ==>
              Login(docs, email, password, now) == Err(AppError(401, BadCredentials))
    ensures Login(docs, email, password, now).Ok? ==>
              var s := Login(docs, email, password, now).value;
              s.status == 200 && s.document.email == email.value && s.document.password.None? &&
              exists k :: 0 <= k < |docs| && docs[k].id == s.token.id
  {
    if Truthy(email) && Truthy(password) {
      match FindFirst(docs, ByEmail(email.value))
      case None =>
      case Some(k) =>
        BCompareExactly(password.value, docs[k].password.value);
        if exists k' :: 0 <= k' < |docs| && docs[k'].email == email.value &&
                        docs[k'].password == Some(BHash(password.value)) {
          var k' :| 0 <= k' < |docs| && docs[k'].email == email.value &&
                    docs[k'].password == Some(BHash(password.value));
          assert k' == k;
          BCompareExactly(password.value, password.value);
        }
    }
  }
}
