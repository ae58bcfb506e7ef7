/** What every session request answers, in the fields of the rows, and what logging out, revoking and resetting end. */
module AuthAnswers {
  import opened AuthModel
  import opened AuthSessions
  import opened Strings
  import opened Wrappers

  /* Who may come in. */

  // A ban without an end, or with one still ahead.
  predicate Banned(user: User, now: int) {
    user.isPlatformBanned && (user.banExpiresAt.None? || now < user.banExpiresAt.value)
  }

  predicate Admitted(call: Call, userId: UserId, user: User) {
    !Banned(user, call.now) && user.emailVerified && call.ctx.gate(userId)
  }

  // A token whose signature has not run out, whose row is neither revoked nor past its end, and whose digest is the
  // row's.
  predicate InForceFor(db: Db, token: Token, now: int) {
    && token.Signed? && now / 1000 < token.expires && token.rid in db.refresh
    && db.refresh[token.rid].revokedAt == None && now <= db.refresh[token.rid].expiresAt
    && db.refresh[token.rid].tokenHash == Sha256(token)
  }

  // A backup code is one with a dash; any other is a one-time password of six characters.
  predicate SecondFactorOk(call: Call, user: User, code: string, totpValid: bool) {
    if '-' in Trim(code) then
      exists i :: 0 <= i < |user.backupCodes| && call.ctx.compare(Trim(code), user.backupCodes[i])
    else |Trim(code)| == 6 && user.hasTwoFactorSecret && totpValid
  }

  // The proof of identity a call carries for a user.
  predicate Proves(db: Db, call: Call, userId: UserId)
    requires userId in db.users
  {
    var user := db.users[userId];
    match call.request
    case LoginRequest(found, password, _) =>
      found == Some(userId) && call.ctx.compare(password, user.passwordHash) && !user.twoFactorEnabled
    case Login2FARequest(id, code, totpValid, _) =>
      id == userId && user.twoFactorEnabled && SecondFactorOk(call, user, code, totpValid)
    case RefreshRequest(token, _) => InForceFor(db, token, call.now) && token.sub == userId
    case _ => false
  }

  // The id a call would give a new token.
  function NewRid(request: Request): Option<Rid> {
    match request
    case LoginRequest(_, _, rid) => Some(rid)
    case Login2FARequest(_, _, _, rid) => Some(rid)
    case RefreshRequest(_, rid) => Some(rid)
    case _ => None
  }

  // Whether a call is owed a token.
  ghost predicate Earns(db: Db, call: Call, userId: UserId) {
    && userId in db.users && Proves(db, call, userId) && Admitted(call, userId, db.users[userId])
    && NewRid(call.request).Some? && NewRid(call.request).value !in db.refresh
  }

  lemma FinalizeAnswers(call: Call, db: Db, userId: UserId, rid: Rid)
    requires userId in db.users
    ensures
      var answer := FinalizeLogin(call.ctx, db, userId, rid, call.now).1;
      && (answer.Tokens? <==> Admitted(call, userId, db.users[userId]) && rid !in db.refresh)
      && (answer.Tokens? ==> answer.token.Signed? && answer.token.sub == userId)
      && (answer == Forbidden <==> !Admitted(call, userId, db.users[userId]))
      && (answer == Failed <==> Admitted(call, userId, db.users[userId]) && rid in db.refresh)
  {
  }

  // A login: unauthorized without the password, forbidden to those not admitted, sent to the second factor where one
  // is set.
  lemma LoginAnswers(db: Db, call: Call)
    requires UniqueHashes(db.resets) && call.request.LoginRequest?
    ensures
      var answer, found := Perform(db, call).1, call.request.found;
      if found.None? || found.value !in db.users
         || !call.ctx.compare(call.request.password, db.users[found.value].passwordHash) then answer == Unauthorized
      else
        var user := db.users[found.value];
        if Banned(user, call.now) || !user.emailVerified then answer == Forbidden
        else if user.twoFactorEnabled then answer == MfaRequired(found.value)
        else if !call.ctx.gate(found.value) then answer == Forbidden
        else if call.request.rid in db.refresh then answer == Failed
        else answer.Tokens? && answer.token.Signed? && answer.token.sub == found.value
  {
    hide FinalizeLogin;
    var found := call.request.found;
    if found.Some? && found.value in db.users {
      FinalizeAnswers(call, db, found.value, call.request.rid);
    }
  }

  lemma {:induction false} FirstMatchIsAny(compare: (string, string) -> bool, text: string, codes: seq<string>)
    ensures FirstMatch(compare, text, codes) < |codes| <==> exists i :: 0 <= i < |codes| && compare(text, codes[i])
  {
    var i := FirstMatch(compare, text, codes);
    if i < |codes| {
      assert compare(text, codes[i]);
    }
  }

  lemma SecondFactorAnswers(db: Db, call: Call)
    requires UniqueHashes(db.resets) && call.request.Login2FARequest?
    ensures
      var Login2FARequest(userId, code, totpValid, rid) := call.request;
      var answer := Perform(db, call).1;
      if userId !in db.users || !db.users[userId].twoFactorEnabled then answer == Unauthorized
      else
        var user := db.users[userId];
        if Banned(user, call.now) || !user.emailVerified then answer == Forbidden
        else if !SecondFactorOk(call, user, code, totpValid) then answer == Unauthorized
        else if !call.ctx.gate(userId) then answer == Forbidden
        else if rid in db.refresh then answer == Failed
        else answer.Tokens? && answer.token.Signed? && answer.token.sub == userId
  {
    hide FinalizeLogin, Trim, Without, FirstMatch;
    var Login2FARequest(userId, code, totpValid, rid) := call.request;
    if userId in db.users {
      var user := db.users[userId];
      FirstMatchIsAny(call.ctx.compare, Trim(code), user.backupCodes);
      FinalizeAnswers(call, db, userId, rid);
      var i := FirstMatch(call.ctx.compare, Trim(code), user.backupCodes);
      if i < |user.backupCodes| {
        var left := user.(backupCodes := Without(user.backupCodes, user.backupCodes[i]));
        FinalizeAnswers(call, db.(users := db.users[userId := left]), userId, rid);
      }
    }
  }

  lemma RefreshAnswers(db: Db, call: Call)
    requires UniqueHashes(db.resets) && call.request.RefreshRequest?
    ensures
      var (answer, token) := (Perform(db, call).1, call.request.token);
      if !InForceFor(db, token, call.now) then answer == Unauthorized && Perform(db, call).0 == db
      else if token.sub !in db.users then answer == Failed
      else if !Admitted(call, token.sub, db.users[token.sub]) then answer == Forbidden
      else if call.request.rid in db.refresh then answer == Failed
      else answer.Tokens? && answer.token.Signed? && answer.token.sub == token.sub
  {
    hide RevokedAll;
  }

  // A refresh with a token in force revokes it at that moment, whatever it answers.
  lemma RefreshRevokesIt(ctx: Context, db: Db, token: Token, rid: Rid, now: int)
    requires InForceFor(db, token, now)
    ensures var after := Refresh(ctx, db, token, rid, now).0;
            token.rid in after.refresh
            && after.refresh[token.rid] == db.refresh[token.rid].(revokedAt := Some(now))
  {
  }

  // A token is given exactly to a user who proved an identity and is let in, unless the new row's id is taken.
  lemma TokensExactlyForTheEntitled(db: Db, call: Call, userId: UserId)
    requires UniqueHashes(db.resets)
    ensures var answer := Perform(db, call).1;
            answer.Tokens? && answer.token.Signed? && answer.token.sub == userId <==> Earns(db, call, userId)
  {
    hide Login, Login2FA, Refresh, Logout, RequestPasswordReset, ConfirmPasswordReset, RevokedAll, UniqueHashes;
    hide InForceFor, Banned, SecondFactorOk;
    var Call(request, now, ctx) := call;
    match request
    case LoginRequest(_, _, _) => LoginAnswers(db, call);
    case Login2FARequest(_, _, _, _) => SecondFactorAnswers(db, call);
    case RefreshRequest(_, _) => RefreshAnswers(db, call);
    case LogoutRequest(token) => LogoutMoves(db, token, now);
    case ResetRequest(found, id, raw) => ResetKeepsRefresh(db, found, id, raw, now);
    case ConfirmRequest(raw, newPassword, newHash) => ConfirmMoves(db, raw, newPassword, newHash, now);
    case _ =>
  }

  /* Ending sessions. */

  // A logout revokes the token presented when it is genuine, and nothing else.
  lemma LogoutAnswers(db: Db, token: Token, now: int)
    ensures
      var (after, answer) := Logout(db, token, now);
      var genuine := token.Signed? && now / 1000 < token.expires;
      && (answer == Unauthorized
          <==> !genuine || (token.rid in db.refresh && db.refresh[token.rid].tokenHash != Sha256(token)))
      && (answer == Unauthorized || answer == Done)
      && after.users == db.users && after.resets == db.resets && after.refresh.Keys == db.refresh.Keys
      && forall other :: Unrevoked(after.refresh, other)
           <==> Unrevoked(db.refresh, other) && !(answer == Done && other == token.rid)
    ensures Logout(db, token, now).1 == Done && token.Signed? && Unrevoked(db.refresh, token.rid) ==>
      Logout(db, token, now).0.refresh
      == db.refresh[token.rid := db.refresh[token.rid].(revokedAt := Some(now))]
  {
  }

  // So the token of a completed logout is never taken again.
  lemma {:induction false} LogoutEndsTheSession(h: History, logout: Call, calls: seq<Call>, token: Token, call: Call)
    requires ResetsSound(h) && logout.request == LogoutRequest(token) && token.Signed? && token.rid in h.db.refresh
    requires Logout(h.db, token, logout.now).1 == Done
    requires call.request.RefreshRequest? && call.request.token == token
    ensures ResetsSound(Step(h, logout))
    ensures var end := Run(Step(h, logout), calls);
            Perform(end.db, call) == (end.db, Unauthorized)
  {
    StepIsUnique(h);
    StepKeepsResetsSound(h, logout);
    LogoutAnswers(h.db, token, logout.now);
    assert Step(h, logout).db == Logout(h.db, token, logout.now).0;
    hide ResetsSound, Logout, Redeemed, Confirmed, Perform;
    RevokedIsOver(Step(h, logout), calls, token, call);
  }

  // Revoking the sessions of a user revokes all of that user's and nobody else's.
  lemma RevokesOneUser(refresh: RefreshTable, userId: UserId, now: int, rid: Rid)
    ensures Unrevoked(RevokedAll(refresh, userId, now), rid)
        <==> Unrevoked(refresh, rid) && refresh[rid].userId != userId
    ensures rid in refresh && refresh[rid].userId != userId ==>
      rid in RevokedAll(refresh, userId, now) && RevokedAll(refresh, userId, now)[rid] == refresh[rid]
    ensures Unrevoked(refresh, rid) && refresh[rid].userId == userId ==>
      RevokedAll(refresh, userId, now)[rid] == refresh[rid].(revokedAt := Some(now))
  {
  }

  // So does a refresh by a user whose e-mail address is no longer verified, and a confirmed reset.
  lemma UnverifiedRefreshEndsSessions(ctx: Context, db: Db, token: Token, rid: Rid, now: int, other: Rid)
    requires InForceFor(db, token, now) && token.sub in db.users && !db.users[token.sub].emailVerified
    requires !Banned(db.users[token.sub], now) && ctx.gate(token.sub)
    ensures
      var (after, answer) := Refresh(ctx, db, token, rid, now);
      && answer == Forbidden
      && (Unrevoked(after.refresh, other)
          <==> Unrevoked(db.refresh, other) && other != token.rid && db.refresh[other].userId != token.sub)
  {
    RevokesOneUser(RevokedOne(db.refresh, token.rid, now), token.sub, now, other);
    hide RevokedAll;
  }

  /* Reset tokens. */

  // A row with which a password can be set now.
  predicate Usable(db: Db, raw: string, now: int, id: ResetId) {
    && id in db.resets && db.resets[id].tokenHash == Sha256(Trim(raw))
    && db.resets[id].consumedAt == None && now <= db.resets[id].expiresAt
    && db.resets[id].userId in db.users && db.users[db.resets[id].userId].email == db.resets[id].email
  }

  // A reset is carried out exactly with a usable token and a password of at least eight characters.
  lemma ResetAnswers(db: Db, raw: string, newPassword: string, newHash: string, now: int)
    requires UniqueHashes(db.resets)
    ensures var answer := ConfirmPasswordReset(db, raw, newPassword, newHash, now).1;
            && (answer == Done || answer == BadRequest)
            && (answer == Done
                <==> Trim(raw) != "" && |newPassword| >= 8 && exists id :: Usable(db, raw, now, id))
  {
    hide Trim, ResetDone;
    var id := FindReset(db, Trim(raw));
    if other :| Usable(db, raw, now, other) {
      assert id.Some? && id.value == other;
    }
    if id.Some? && Confirms(db, raw, newPassword, now, id.value) {
      assert Usable(db, raw, now, id.value);
    }
  }

  // The token a reset is carried out with is used up at that moment.
  lemma ResetUsesItsToken(db: Db, id: ResetId, newHash: string, now: int)
    requires id in db.resets && db.resets[id].userId in db.users
    ensures var after := ResetDone(db, id, newHash, now);
            id in after.resets && after.resets[id] == db.resets[id].(consumedAt := Some(now))
  {
  }

  // Asking for a reset answers everybody alike. For a user, with an id and a text not used before, it makes a token
  // that can be used for an hour, takes all earlier ones of that user out of use, and leaves those of others alone.
  lemma ResetIsOpenForAnHour(
      db: Db, found: Option<UserId>, id: ResetId, raw: string, now: int, text: string, later: int, other: ResetId)
    ensures RequestPasswordReset(db, found, id, raw, now).1 == Done
    ensures found.None? || found.value !in db.users ==> RequestPasswordReset(db, found, id, raw, now).0 == db
    ensures found.Some? && found.value in db.users && id !in db.resets
            && (forall r :: r in db.resets ==> db.resets[r].tokenHash != Sha256(raw)) ==>
      var after := RequestPasswordReset(db, found, id, raw, now).0;
      && after.users == db.users && after.refresh == db.refresh
      && (Usable(after, text, later, id) <==> Trim(text) == raw && later <= now + 3_600_000)
      && (other != id ==>
            (Usable(after, text, later, other)
             <==> Usable(db, text, later, other) && db.resets[other].userId != found.value))
  {
    hide Trim;
    if found.Some? && found.value in db.users {
      assert ConsumedAll(db.resets, found.value, now).Keys == db.resets.Keys;
    }
  }
}
