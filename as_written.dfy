/** The controller as written reads and writes paths the Employee schema
    does not declare (`badgeIdChangedAt`, `badgeIdResetToken`,
    `badgeIdResetExpires`, `badgeId`) and calls a method the model does not
    define (`correctPassword`). Under the schema's strict mode an assignment
    to an undeclared path is not kept and reading one gives `undefined`. This
    module models those lines literally and shows what they do to the
    properties the rest of the model proves for the schema's own paths. */
module AsWritten {
  import opened Wrappers
  import opened Crypto
  import opened Employee
  import opened Auth
  import opened Workflows

  /** Reading `badgeIdChangedAt` from a document: never set, so undefined. */
  function BadgeIdChangedAt(r: AccountRecord): Option<nat>
  {
    None
  }

  /** `changedBadgeIdAfter` as written. */
  function ChangedBadgeIdAfterAsWritten(r: AccountRecord, iat: nat): bool
  {
    ChangedPasswordAfter(BadgeIdChangedAt(r), iat)
  }

  /** The written staleness check never fires, even for a token issued a
      whole second before a recorded change that the schema's own path
      would reject. */
  lemma StaleCheckAsWrittenNeverFires(r: AccountRecord, iat: nat)
    ensures !ChangedBadgeIdAfterAsWritten(r, iat)
    ensures r.changedAt == Some((iat + 1) * 1000) ==> ChangedPasswordAfter(r.changedAt, iat)
  {
    if r.changedAt == Some((iat + 1) * 1000) {
      StaleExactly(r.changedAt, iat);
    }
  }

  /** `findOne({ badgeIdResetToken: h, badgeIdResetExpires: { $gt: now } })`:
      the filter names paths that no document holds. */
  predicate MatchesAsWritten(hash: string, now: nat, r: AccountRecord)
  {
    var badgeIdResetToken: Option<string> := None;
    var badgeIdResetExpires: Option<nat> := None;
    badgeIdResetToken == Some(hash) && badgeIdResetExpires.Some? && badgeIdResetExpires.value > now
  }

  /** `findOne` with an arbitrary filter: the first document it accepts. */
  function FirstWhere(docs: seq<AccountRecord>, accepts: AccountRecord -> bool): Option<nat>
  {
    if docs == [] then None
    else if accepts(docs[0]) then Some(0)
    else match FirstWhere(docs[1..], accepts)
      case None => None
      case Some(j) => Some(j + 1)
  }

  function ResetLookupAsWritten(docs: seq<AccountRecord>, hash: string, now: nat): Option<nat>
  {
    FirstWhere(docs, r => MatchesAsWritten(hash, now, r))
  }

  /** A filter that accepts no document finds nothing. */
  lemma {:induction false} FirstWhereRejectsAll(docs: seq<AccountRecord>, accepts: AccountRecord -> bool)
    requires forall r :: !accepts(r)
    ensures FirstWhere(docs, accepts) == None
    decreases |docs|
  {
    if docs != [] {
      FirstWhereRejectsAll(docs[1..], accepts);
    }
  }

  /** The written reset lookup finds nobody, even for the account whose
      schema fields `createBadgeIdResetToken` has just set to the hash of
      the very token presented: every reset request is a 400. */
  lemma ResetLookupAsWrittenNeverFinds(docs: seq<AccountRecord>, k: nat, plain: string, now: nat)
    requires k < |docs|
    requires docs[k].resetToken == Some(H(plain)) && docs[k].resetExpires == Some(now + ResetWindowMs)
    ensures ResetLookupAsWritten(docs, H(plain), now) == None
    ensures FindFirst(docs, ByResetToken(H(plain), now)).Some?
  {
    FirstWhereRejectsAll(docs, r => MatchesAsWritten(H(plain), now, r));
    assert Matches(ByResetToken(H(plain), now), docs[k]);
  }

  /** The catch block of `forgotBadgeId` as written: it clears
      `badgeIdResetToken` and `badgeIdResetExpires`, which the document does
      not hold, and saves it as it was. */
  function RollbackAsWritten(r: AccountRecord): AccountRecord
  {
    r
  }

  /** After a failed delivery the written rollback leaves the pending reset
      hash and expiry in place, so a token that was never delivered stays
      redeemable by the schema's lookup for ten minutes. */
  lemma RollbackAsWrittenKeepsToken(r: AccountRecord, plain: string, now: nat)
    ensures var pending := r.(resetToken := Some(H(plain)), resetExpires := Some(now + ResetWindowMs));
            RollbackAsWritten(pending).resetToken == Some(H(plain)) &&
            FindFirst([RollbackAsWritten(pending)], ByResetToken(H(plain), now)) == Some(0)
    ensures var pending := r.(resetToken := Some(H(plain)), resetExpires := Some(now + ResetWindowMs));
            !FindFirst([pending.(resetToken := None, resetExpires := None)],
                       ByResetToken(H(plain), now)).Some?
  {
  }

  /** `updateBadgeId` as written: a vanished user is a null dereference,
      and otherwise `user.correctPassword` is not a function of the model. */
  function UpdateAsWritten(docs: seq<AccountRecord>, userId: Id, current: Option<string>): Result<Session, Failure>
  {
    match FindFirst(docs, ById(userId))
    case None => Err(Crashed(NullUser))
    case Some(_) => Err(Crashed("TypeError: user.correctPassword is not a function"))
  }

  /** The written update never succeeds, even with the right current
      password of an existing account, which the schema's comparison accepts. */
  lemma UpdateAsWrittenNeverSucceeds(docs: seq<AccountRecord>, k: nat, p: string)
    requires UniqueIds(docs) && k < |docs| && docs[k].password == Some(BHash(p))
    ensures UpdateAsWritten(docs, docs[k].id, Some(p)).Err?
    ensures UpdateAsWritten(docs, docs[k].id, Some(p)).error.Crashed?
    ensures BCompare(p, docs[k].password.value)
  {
    FindByIdFinds(docs, k);
  }

  /** `findOne({ userId: req.body.userId })` in `forgotBadgeId`. `userId` is
      not a schema path and no document holds it. A given value therefore
      matches no document. An absent one is sent as `null`, which matches
      every document lacking the path, so the first document is returned. */
  function ForgotLookupAsWritten(docs: seq<AccountRecord>, userId: Option<string>): Option<nat>
  {
    match userId
    case Some(_) => FirstWhere(docs, r => false)
    case None => FirstWhere(docs, r => true)
  }

  /** As written, a forgot request that names a `userId` finds no account,
      so it is a 404 even when an account has the posted email, which the
      corrected lookup would find. */
  lemma ForgotLookupAsWrittenMissesGivenId(docs: seq<AccountRecord>, email: string, userId: string)
    ensures ForgotLookupAsWritten(docs, Some(userId)) == None
    ensures FindFirst(docs, ByEmail(email)).Some? ==>
              docs[FindFirst(docs, ByEmail(email)).value].email == email
  {
    FirstWhereRejectsAll(docs, r => false);
  }

  /** As written, a forgot request without a `userId` picks the first
      account, whatever email was posted; the corrected lookup picks the
      account with that email, or none. */
  lemma ForgotLookupAsWrittenTakesFirst(docs: seq<AccountRecord>, email: string)
    requires docs != []
    ensures ForgotLookupAsWritten(docs, None) == Some(0)
    ensures docs[0].email != email ==> FindFirst(docs, ByEmail(email)) != Some(0)
  {
  }

  /** The same `findOne` when queries are cast in strict mode (Mongoose's
      `strictQuery` option): both filter paths are undeclared and dropped, so
      the filter is empty and accepts every document. */
  function ResetLookupStrictQuery(docs: seq<AccountRecord>, hash: string, now: nat): Option<nat>
  {
    FirstWhere(docs, r => true)
  }

  /** Under `strictQuery` the written reset lookup returns the first account
      for any token at all, including one that is not that account's pending
      reset token, which the schema-path lookup would never return. */
  lemma ResetLookupStrictQueryTakesFirst(docs: seq<AccountRecord>, hash: string, now: nat)
    ensures docs == [] ==> ResetLookupStrictQuery(docs, hash, now) == None
    ensures docs != [] ==> ResetLookupStrictQuery(docs, hash, now) == Some(0)
    ensures docs != [] && docs[0].resetToken != Some(hash) ==>
              FindFirst(docs, ByResetToken(hash, now)) != Some(0)
  {
  }

  /** `createSendToken` as written: `user.badgeId = undefined` touches no
      schema path, so the document goes out as it is. */
  function SendTokenAsWritten(user: AccountRecord, status: nat, now: nat): Session
  {
    Session(status, Claims(user.id, IssuedAt(now)), user)
  }

  /** As written, the response carries the stored password hash, which the
      intended response never does. */
  lemma SendTokenAsWrittenLeaksHash(user: AccountRecord, status: nat, now: nat)
    requires user.password.Some?
    ensures SendTokenAsWritten(user, status, now).document.password == user.password
    ensures SendToken(user, status, now).document.password.None?
    ensures SendTokenAsWritten(user, status, now).token == SendToken(user, status, now).token
  {
  }

  /** `Employee.create(req.body)` as written stores whatever change time and
      reset pair the body carries. Validation does not look at them, so a
      body with a reset hash and no expiry is accepted and stored unpaired.
      A change time planted in the future is inert as written, because the
      written staleness check never reads it, but it would make every token
      issued before it stale once the check reads `passwordChangedAt`. The
      corrected signup clears the three paths and the document it stores is
      well formed. */
  lemma SignupAsWrittenKeepsClientPaths(id: Id, input: SignupInput, iat: nat)
    ensures Violations(NewRecord(id, input)) == Violations(SignupRecord(id, input))
    ensures input.passwordResetToken.Some? && input.passwordResetExpires.None? ==>
              !WellFormed(Hashed(NewRecord(id, input)))
    ensures !ChangedBadgeIdAfterAsWritten(Hashed(NewRecord(id, input)), iat)
    ensures input.passwordChangedAt.Some? && (iat + 1) * 1000 <= input.passwordChangedAt.value ==>
              ChangedPasswordAfter(Hashed(NewRecord(id, input)).changedAt, iat)
    ensures Violations(SignupRecord(id, input)) == {} ==>
              WellFormed(Hashed(SignupRecord(id, input))) &&
              !ChangedPasswordAfter(Hashed(SignupRecord(id, input)).changedAt, iat)
  {
    StaleExactly(Hashed(NewRecord(id, input)).changedAt, iat);
  }
}
