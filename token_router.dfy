/** The token checks of the tRPC token router (src/server/api/routers/token.ts).

    `getById` looks up an ELECTION_INVITATION token for the signed-in user and the election it
    invites to, reading only. `verify` checks an EMAIL_VERIFICATION or PASSWORD_RESET token and,
    for an e-mail verification, marks the user verified and deletes the user's e-mail
    verification tokens. */
module TokenRouter {
  import opened Basics
  import opened Schema

  datatype ErrorCode = BadRequest | NotFound | Forbidden | InternalServerError

  /** A `TRPCError` as the client receives it. */
  datatype ApiError = ApiError(code: ErrorCode, message: string)

  const TypeRequired := ApiError(BadRequest, "Type is required")
  const TokenRequired := ApiError(BadRequest, "Token is required")
  const TokenNotFound := ApiError(NotFound, "Token not found")
  const TokenExpired := ApiError(Forbidden, "Token expired")
  /** What the client sees when `findFirstOrThrow` or `update` finds no row. */
  const RecordMissing := ApiError(InternalServerError, "No record found")

  // ---- Relations ----

  function VoterWithId(t: Tables, id: Id): Option<InvitedVoter> {
    var k := FirstWhere(t.voters, (v: InvitedVoter) => v.id == id);
    if k < |t.voters| then Some(t.voters[k]) else None
  }

  function CommissionerWithId(t: Tables, id: Id): Option<InvitedCommissioner> {
    var k := FirstWhere(t.commissioners, (c: InvitedCommissioner) => c.id == id);
    if k < |t.commissioners| then Some(t.commissioners[k]) else None
  }

  /** `token.invitedVoter?.id` */
  function InvitedVoterId(t: Tables, tok: VerificationToken): Option<Id> {
    if tok.owner.OwnedByVoter? && VoterWithId(t, tok.owner.voterId).Some? then Some(tok.owner.voterId) else None
  }

  /** `token.invitedCommissioner?.id` */
  function InvitedCommissionerId(t: Tables, tok: VerificationToken): Option<Id> {
    if tok.owner.OwnedByCommissioner? && CommissionerWithId(t, tok.owner.commissionerId).Some?
    then Some(tok.owner.commissionerId) else None
  }

  /** The e-mail address of the invited voter or commissioner the token belongs to. */
  function InviteeEmail(t: Tables, tok: VerificationToken): Option<string> {
    match tok.owner
    case OwnedByVoter(id) => if VoterWithId(t, id).Some? then Some(VoterWithId(t, id).value.email) else None
    case OwnedByCommissioner(id) =>
      if CommissionerWithId(t, id).Some? then Some(CommissionerWithId(t, id).value.email) else None
    case _ => None
  }

  // ---- getById ----

  /** The `where` of the token lookup: this id, an election invitation, and an invitee whose
      address is the session's. */
  predicate IsInvitationFor(t: Tables, sessionEmail: string, input: Id, tok: VerificationToken) {
    tok.id == input && tok.tokenType == ElectionInvitation && InviteeEmail(t, tok) == Some(sessionEmail)
  }

  /** The election invites the token's owner: the owner is one of its invited voters or
      invited commissioners. */
  predicate InvitesOwner(t: Tables, tok: VerificationToken, e: Election) {
    (InvitedVoterId(t, tok).Some? &&
     exists v :: v in t.voters && v.electionId == e.id && v.id == InvitedVoterId(t, tok).value) ||
    (InvitedCommissionerId(t, tok).Some? &&
     exists c :: c in t.commissioners && c.electionId == e.id && c.id == InvitedCommissionerId(t, tok).value)
  }

  /** The election lookup: the first election that invites the token's owner. */
  function InviteeElection(t: Tables, tok: VerificationToken): (r: Option<Election>)
    ensures r.Some? ==> r.value in t.elections && InvitesOwner(t, tok, r.value)
    ensures r.None? <==> forall e :: e in t.elections ==> !InvitesOwner(t, tok, e)
  {
    var k := FirstWhere(t.elections, (e: Election) => InvitesOwner(t, tok, e));
    if k < |t.elections| then Some(t.elections[k]) else None
  }

  /** The election lookup as written: a relation filter `some: {id: undefined}` drops the
      condition, so the half of the `OR` for the relation the token does not have matches every
      election with at least one invited voter (or commissioner). */
  predicate MatchesAsWritten(t: Tables, tok: VerificationToken, e: Election) {
    var vid := InvitedVoterId(t, tok);
    var cid := InvitedCommissionerId(t, tok);
    (exists v :: v in t.voters && v.electionId == e.id && (vid.None? || v.id == vid.value)) ||
    (exists c :: c in t.commissioners && c.electionId == e.id && (cid.None? || c.id == cid.value))
  }

  /** The election lookup as written: the first election matched by the filter as Prisma
      reads it, and none only when no election matches it. */
  function InviteeElectionAsWritten(t: Tables, tok: VerificationToken): (r: Option<Election>)
    ensures r.Some? ==> r.value in t.elections && MatchesAsWritten(t, tok, r.value)
    ensures r.None? <==> forall e :: e in t.elections ==> !MatchesAsWritten(t, tok, e)
  {
    var k := FirstWhere(t.elections, (e: Election) => MatchesAsWritten(t, tok, e));
    if k < |t.elections| then Some(t.elections[k]) else None
  }

  /** The filter as written is looser than the intended one: an election that invites the
      token's owner always matches it. */
  lemma InvitesOwnerMatches(t: Tables, tok: VerificationToken, e: Election)
    requires InvitesOwner(t, tok, e)
    ensures MatchesAsWritten(t, tok, e)
  {
    if InvitedVoterId(t, tok).Some? && exists v :: v in t.voters && v.electionId == e.id && v.id == InvitedVoterId(t, tok).value {
      var v :| v in t.voters && v.electionId == e.id && v.id == InvitedVoterId(t, tok).value;
    } else {
      var c :| c in t.commissioners && c.electionId == e.id && c.id == InvitedCommissionerId(t, tok).value;
    }
  }

  /** The token part of `getById`: the signed-in user's invitation token with id `input`, or
      the error of the first check it fails. */
  function FindInvitation(t: Tables, sessionEmail: string, input: Id, now: int): Result<VerificationToken, ApiError> {
    var k := FirstWhere(t.tokens, (tok: VerificationToken) => IsInvitationFor(t, sessionEmail, input, tok));
    if k == |t.tokens| then Err(TokenNotFound)
    else
      var tok := t.tokens[k];
      if InvitedVoterId(t, tok).None? && InvitedCommissionerId(t, tok).None? then Err(TokenNotFound)
      else if tok.expiresAt < now then Err(TokenExpired)
      else Ok(tok)
  }

  /** `getById` as written: the token, then the election the lookup as written finds. */
  function GetById(t: Tables, sessionEmail: string, input: Id, now: int): Result<(VerificationToken, Election), ApiError> {
    match FindInvitation(t, sessionEmail, input, now)
    case Err(err) => Err(err)
    case Ok(tok) =>
      match InviteeElectionAsWritten(t, tok)
      case None => Err(RecordMissing)
      case Some(e) => Ok((tok, e))
  }

  /** `getById` with the intended election lookup. */
  function GetByIdIntended(t: Tables, sessionEmail: string, input: Id, now: int): Result<(VerificationToken, Election), ApiError> {
    match FindInvitation(t, sessionEmail, input, now)
    case Err(err) => Err(err)
    case Ok(tok) =>
      match InviteeElection(t, tok)
      case None => Err(RecordMissing)
      case Some(e) => Ok((tok, e))
  }

  /** `getById` answers NOT_FOUND exactly when no token has this id, is an election invitation
      and belongs to an invitee with the session's address. */
  lemma GetByIdNotFound(t: Tables, sessionEmail: string, input: Id, now: int)
    ensures GetById(t, sessionEmail, input, now) == Err(TokenNotFound) <==>
            forall tok :: tok in t.tokens ==> !IsInvitationFor(t, sessionEmail, input, tok)
  {
    var p := (tok: VerificationToken) => IsInvitationFor(t, sessionEmail, input, tok);
    var k := FirstWhere(t.tokens, p);
    if k < |t.tokens| {
      var tok := t.tokens[k];
      assert InviteeEmail(t, tok).Some?;
      assert InvitedVoterId(t, tok).Some? || InvitedCommissionerId(t, tok).Some?;
    }
  }

  /** On success the token is the invitation asked for, belongs to the signed-in invitee and
      has not expired (a token expiring exactly now still passes); the election returned is
      one the filter as written matches, which need not invite the token's owner. */
  lemma GetByIdOk(t: Tables, sessionEmail: string, input: Id, now: int)
    requires GetById(t, sessionEmail, input, now).Ok?
    ensures var (tok, e) := GetById(t, sessionEmail, input, now).value;
      tok in t.tokens && tok.id == input && tok.tokenType == ElectionInvitation &&
      InviteeEmail(t, tok) == Some(sessionEmail) && now <= tok.expiresAt &&
      e in t.elections && MatchesAsWritten(t, tok, e)
  {
  }

  /** With the intended lookup the election returned is one that invites the token's owner. */
  lemma GetByIdIntendedOk(t: Tables, sessionEmail: string, input: Id, now: int)
    requires GetByIdIntended(t, sessionEmail, input, now).Ok?
    ensures var (tok, e) := GetByIdIntended(t, sessionEmail, input, now).value;
      tok in t.tokens && tok.id == input && tok.tokenType == ElectionInvitation &&
      InviteeEmail(t, tok) == Some(sessionEmail) && now <= tok.expiresAt &&
      e in t.elections && InvitesOwner(t, tok, e)
  {
  }

  /** The two differ only in the election: every error as written is also the intended
      error, and whenever the intended lookup succeeds the one as written succeeds with the
      same token. */
  lemma GetByIdIntendedAgrees(t: Tables, sessionEmail: string, input: Id, now: int)
    ensures GetById(t, sessionEmail, input, now).Err? ==>
      GetByIdIntended(t, sessionEmail, input, now) == GetById(t, sessionEmail, input, now)
    ensures GetByIdIntended(t, sessionEmail, input, now).Ok? ==>
      GetById(t, sessionEmail, input, now).Ok? &&
      GetById(t, sessionEmail, input, now).value.0 == GetByIdIntended(t, sessionEmail, input, now).value.0
  {
    var f := FindInvitation(t, sessionEmail, input, now);
    if f.Ok? {
      var tok := f.value;
      if InviteeElection(t, tok).Some? {
        InvitesOwnerMatches(t, tok, InviteeElection(t, tok).value);
      }
    }
  }

  /** The expiry check is strict and comes after the lookup: the first matching token is
      refused as expired exactly when its expiry lies before `now`. */
  lemma GetByIdExpiry(t: Tables, sessionEmail: string, input: Id, now: int, k: nat)
    requires k < |t.tokens| && IsInvitationFor(t, sessionEmail, input, t.tokens[k])
    requires forall j :: 0 <= j < k ==> !IsInvitationFor(t, sessionEmail, input, t.tokens[j])
    ensures GetById(t, sessionEmail, input, now) == Err(TokenExpired) <==> t.tokens[k].expiresAt < now
  {
    var p := (tok: VerificationToken) => IsInvitationFor(t, sessionEmail, input, tok);
    var i := FirstWhere(t.tokens, p);
    assert p(t.tokens[k]);
    assert i == k;
    var tok := t.tokens[k];
    assert InviteeEmail(t, tok).Some?;
    assert InvitedVoterId(t, tok).Some? || InvitedCommissionerId(t, tok).Some?;
  }

  /** Concretely: a voter token of the second election, while the first election has an
      invited commissioner. The lookup as written returns the first election; the owner's
      own election is the second. */
  lemma InviteeElectionAsWrittenExample()
    ensures var a := Election("a", "A", "a", 0, 0, 7, 19, Private, None);
      var b := Election("b", "B", "b", 0, 0, 7, 19, Private, None);
      var tok := VerificationToken("tok", ElectionInvitation, 100, OwnedByVoter("v"));
      var t := Tables([a, b], [InvitedVoter("v", "b", "v@mail", Invited)],
                      [InvitedCommissioner("c", "a", "c@mail")], [], [tok], [], [], [], [], map[], [], 0);
      InviteeElectionAsWritten(t, tok) == Some(a) && InviteeElection(t, tok) == Some(b)
  {
    var a := Election("a", "A", "a", 0, 0, 7, 19, Private, None);
    var b := Election("b", "B", "b", 0, 0, 7, 19, Private, None);
    var tok := VerificationToken("tok", ElectionInvitation, 100, OwnedByVoter("v"));
    var v := InvitedVoter("v", "b", "v@mail", Invited);
    var c := InvitedCommissioner("c", "a", "c@mail");
    var t := Tables([a, b], [v], [c], [], [tok], [], [], [], [], map[], [], 0);
    assert VoterWithId(t, "v") == Some(v);
    assert InvitedVoterId(t, tok) == Some("v");
    assert InvitedCommissionerId(t, tok) == None;
    assert c in t.commissioners;
    assert MatchesAsWritten(t, tok, a);
    assert !InvitesOwner(t, tok, a);
    assert v in t.voters;
    assert InvitesOwner(t, tok, b);
  }

  /** The lookup as written agrees with the owner's own election when the token's owner is a
      voter and no election has an invited commissioner. */
  lemma InviteeElectionAsWrittenAgrees(t: Tables, tok: VerificationToken)
    requires InvitedVoterId(t, tok).Some? && t.commissioners == []
    ensures InviteeElectionAsWritten(t, tok) == InviteeElection(t, tok)
  {
    assert InvitedCommissionerId(t, tok) == None;
    FirstWhereAgrees(t.elections, (e: Election) => MatchesAsWritten(t, tok, e), (e: Election) => InvitesOwner(t, tok, e));
  }

  // ---- verify ----

  datatype VerifyKind = VerifyEmail | ResetPassword

  function KindTokenType(k: VerifyKind): TokenType {
    match k
    case VerifyEmail => EmailVerification
    case ResetPassword => PasswordReset
  }

  /** `user.update({where: {id}, data: {emailVerified: now}})` */
  function MarkVerified(us: seq<User>, userId: Id, now: int): (r: seq<User>)
    ensures |r| == |us|
    ensures forall k :: 0 <= k < |us| ==> r[k] == if us[k].id == userId then us[k].(emailVerified := Some(now)) else us[k]
  {
    seq(|us|, k requires 0 <= k < |us| => if us[k].id == userId then us[k].(emailVerified := Some(now)) else us[k])
  }

  /** The rows `deleteMany({where: {userId, type}})` removes. */
  predicate OwnedTokenOfType(tok: VerificationToken, userId: Id, tt: TokenType) {
    tok.owner == OwnedByUser(userId) && tok.tokenType == tt
  }

  /** `verificationToken.deleteMany({where: {userId, type}})`: the other rows, in order. */
  function DeleteUserTokens(ts: seq<VerificationToken>, userId: Id, tt: TokenType): (r: seq<VerificationToken>)
    ensures |r| <= |ts|
    ensures forall tok :: tok in r <==> tok in ts && !OwnedTokenOfType(tok, userId, tt)
    decreases |ts|
  {
    if ts == [] then []
    else
      var rest := DeleteUserTokens(ts[..|ts| - 1], userId, tt);
      if OwnedTokenOfType(ts[|ts| - 1], userId, tt) then rest else rest + [ts[|ts| - 1]]
  }

  /** `!token.userId`: no user, or an empty id. */
  predicate HasUser(tok: VerificationToken) {
    tok.owner.OwnedByUser? && tok.owner.userId != ""
  }

  /** `verify` over the tables: the tables afterwards and the reply, where `Ok(None)` is the
      `undefined` the handler returns. */
  function VerifyRequest(t: Tables, kind: Option<VerifyKind>, token: Option<string>, now: int)
    : (Tables, Result<Option<string>, ApiError>)
  {
    if kind.None? then (t, Err(TypeRequired))
    else if token.None? || token.value == "" then (t, Err(TokenRequired))
    else
      var tt := KindTokenType(kind.value);
      var k := FirstWhere(t.tokens, (tok: VerificationToken) => tok.id == token.value && tok.tokenType == tt);
      if k == |t.tokens| then (t, Err(TokenNotFound))
      else if t.tokens[k].expiresAt < now then (t, Err(TokenExpired))
      else if kind.value == ResetPassword then (t, Ok(Some("PASSWORD_RESET")))
      else if !HasUser(t.tokens[k]) then (t, Ok(None))
      else
        var userId := t.tokens[k].owner.userId;
        if forall u :: u in t.users ==> u.id != userId then (t, Err(RecordMissing))
        else (t.(users := MarkVerified(t.users, userId, now), tokens := DeleteUserTokens(t.tokens, userId, EmailVerification)),
              Ok(Some("EMAIL_VERIFICATION")))
  }

  /** The `verify` procedure. */
  method Verify(db: Database, kind: Option<VerifyKind>, token: Option<string>, now: int)
    returns (r: Result<Option<string>, ApiError>)
    modifies db
    ensures (db.Snapshot(), r) == VerifyRequest(old(db.Snapshot()), kind, token, now)
  {
    if kind.None? {
      return Err(TypeRequired);
    }
    if token.None? || token.value == "" {
      return Err(TokenRequired);
    }
    var tt := KindTokenType(kind.value);
    var k := FirstWhere(db.tokens, (tok: VerificationToken) => tok.id == token.value && tok.tokenType == tt);
    if k == |db.tokens| {
      return Err(TokenNotFound);
    }
    var found := db.tokens[k];
    if found.expiresAt < now {
      return Err(TokenExpired);
    }
    match kind.value {
      case VerifyEmail =>
        if !HasUser(found) {
          return Ok(None);
        }
        var userId := found.owner.userId;
        if forall u :: u in db.users ==> u.id != userId {
          return Err(RecordMissing);
        }
        db.users := MarkVerified(db.users, userId, now);
        db.tokens := DeleteUserTokens(db.tokens, userId, EmailVerification);
        return Ok(Some("EMAIL_VERIFICATION"));
      case ResetPassword =>
        return Ok(Some("PASSWORD_RESET"));
    }
  }

  /** The checks run in a fixed order and the first that fails decides the error; a failed
      check changes nothing. */
  lemma VerifyGuardOrder(t: Tables, kind: Option<VerifyKind>, token: Option<string>, now: int)
    ensures var (t', r) := VerifyRequest(t, kind, token, now);
      (r.Err? ==> t' == t) &&
      (kind.None? ==> r == Err(TypeRequired)) &&
      (kind.Some? && (token.None? || token.value == "") ==> r == Err(TokenRequired)) &&
      (kind.Some? && token.Some? && token.value != "" ==>
        (r == Err(TokenNotFound) <==>
           forall tok :: tok in t.tokens ==> !(tok.id == token.value && tok.tokenType == KindTokenType(kind.value))))
    ensures var (t', r) := VerifyRequest(t, kind, token, now);
      kind.Some? && token.Some? && token.value != "" ==>
        var k := FirstWhere(t.tokens, (tok: VerificationToken) => tok.id == token.value && tok.tokenType == KindTokenType(kind.value));
        k < |t.tokens| ==> (r == Err(TokenExpired) <==> t.tokens[k].expiresAt < now)
  {
    if kind.Some? && token.Some? && token.value != "" {
      var tt := KindTokenType(kind.value);
      var k := FirstWhere(t.tokens, (tok: VerificationToken) => tok.id == token.value && tok.tokenType == tt);
      if k < |t.tokens| {
        assert t.tokens[k] in t.tokens;
      }
    }
  }

  /** A successful e-mail verification marks exactly the token's user verified at `now`,
      removes exactly that user's EMAIL_VERIFICATION tokens (every other token stays, in
      order), and touches nothing else. */
  lemma VerifyEmailEffect(t: Tables, token: string, now: int)
    requires VerifyRequest(t, Some(VerifyEmail), Some(token), now).1 == Ok(Some("EMAIL_VERIFICATION"))
    ensures var t' := VerifyRequest(t, Some(VerifyEmail), Some(token), now).0;
      exists userId :: userId != "" &&
        (exists tok :: tok in t.tokens && tok.id == token && OwnedTokenOfType(tok, userId, EmailVerification) && now <= tok.expiresAt) &&
        (exists u :: u in t.users && u.id == userId) &&
        t' == t.(users := MarkVerified(t.users, userId, now), tokens := DeleteUserTokens(t.tokens, userId, EmailVerification))
  {
    var k := FirstWhere(t.tokens, (tok: VerificationToken) => tok.id == token && tok.tokenType == EmailVerification);
    var tok := t.tokens[k];
    var userId := tok.owner.userId;
    assert tok in t.tokens;
    var u :| u in t.users && u.id == userId;
  }

  /** With token ids unique, a token that verified an e-mail cannot be used again: the
      second attempt finds no token. */
  lemma VerifyEmailTwice(t: Tables, token: string, now: int, later: int)
    requires forall i, j :: 0 <= i < j < |t.tokens| ==> t.tokens[i].id != t.tokens[j].id
    requires VerifyRequest(t, Some(VerifyEmail), Some(token), now).1 == Ok(Some("EMAIL_VERIFICATION"))
    ensures var t' := VerifyRequest(t, Some(VerifyEmail), Some(token), now).0;
      VerifyRequest(t', Some(VerifyEmail), Some(token), later) == (t', Err(TokenNotFound))
  {
    var k := FirstWhere(t.tokens, (tok: VerificationToken) => tok.id == token && tok.tokenType == EmailVerification);
    var userId := t.tokens[k].owner.userId;
    var t' := VerifyRequest(t, Some(VerifyEmail), Some(token), now).0;
    forall j | 0 <= j < |t.tokens| && !OwnedTokenOfType(t.tokens[j], userId, EmailVerification)
      ensures !(t.tokens[j].id == token && t.tokens[j].tokenType == EmailVerification)
    {
      if j != k {
        assert t.tokens[j].id != t.tokens[k].id;
      }
    }
    forall tok | tok in t'.tokens
      ensures !(tok.id == token && tok.tokenType == EmailVerification)
    {
      var j :| 0 <= j < |t.tokens| && t.tokens[j] == tok;
    }
    VerifyGuardOrder(t', Some(VerifyEmail), Some(token), later);
  }

  /** A password-reset token and a user-less e-mail verification token change nothing. A
      found, unexpired reset token answers "PASSWORD_RESET"; a found, unexpired e-mail token
      without a user answers nothing. */
  lemma VerifyReadOnlyCases(t: Tables, kind: VerifyKind, token: string, now: int)
    ensures var (t', r) := VerifyRequest(t, Some(kind), Some(token), now);
      (kind == ResetPassword ==> t' == t && (r.Ok? ==> r.value == Some("PASSWORD_RESET"))) &&
      (r == Ok(None) ==> t' == t && kind == VerifyEmail)
    ensures var (t', r) := VerifyRequest(t, Some(kind), Some(token), now);
      var k := FirstWhere(t.tokens, (tok: VerificationToken) => tok.id == token && tok.tokenType == KindTokenType(kind));
      token != "" && k < |t.tokens| && now <= t.tokens[k].expiresAt ==>
        (kind == ResetPassword ==> r == Ok(Some("PASSWORD_RESET"))) &&
        (kind == VerifyEmail && !HasUser(t.tokens[k]) ==> (t', r) == (t, Ok(None)))
  {
  }
}
