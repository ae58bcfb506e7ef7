/** The authentication service, whose methods change the token and user rows step by step. */
module AuthServices {
  import opened AuthModel
  import opened Strings
  import opened Wrappers

  class AuthService {
    const ctx: Context
    var users: map<UserId, User>
    var refreshTokens: RefreshTable
    var resetTokens: map<ResetId, ResetRow>

    ghost function Rows(): Db
      reads this
    {
      Db(users, refreshTokens, resetTokens)
    }

    constructor (ctx: Context, users: map<UserId, User>)
      ensures this.ctx == ctx && Rows() == Db(users, map[], map[])
    {
      this.ctx := ctx;
      this.users := users;
      refreshTokens := map[];
      resetTokens := map[];
    }

    method IssueTokens(userId: UserId, rid: Rid, now: int) returns (answer: Answer)
      modifies this
      ensures (Rows(), answer) == AuthModel.IssueTokens(ctx, old(Rows()), userId, rid, now)
    {
      var refreshToken := Signed(userId, rid, now / 1000, now / 1000 + ctx.ttlSeconds);
      var expiresAt := now + ctx.ttlSeconds * 1000;
      if rid in refreshTokens {
        return Failed;
      }
      refreshTokens := refreshTokens[rid := RefreshRow(userId, Sha256(refreshToken), None, expiresAt)];
      return Tokens(refreshToken);
    }

    method RevokeAllRefreshTokensForUser(userId: UserId, now: int)
      modifies this
      ensures Rows() == old(Rows()).(refresh := RevokedAll(old(refreshTokens), userId, now))
    {
      refreshTokens := map rid | rid in refreshTokens ::
        if refreshTokens[rid].userId == userId && refreshTokens[rid].revokedAt.None? then
          refreshTokens[rid].(revokedAt := Some(now))
        else refreshTokens[rid];
    }

    method FinalizeLogin(userId: UserId, rid: Rid, now: int) returns (answer: Answer)
      requires userId in users
      modifies this
      ensures (Rows(), answer) == AuthModel.FinalizeLogin(ctx, old(Rows()), userId, rid, now)
    {
      var user := users[userId];
      if IsPlatformBanActive(user, now) {
        return Forbidden;
      }
      if !user.emailVerified {
        return Forbidden;
      }
      if !ctx.gate(userId) {
        return Forbidden;
      }
      answer := IssueTokens(userId, rid, now);
    }

    method Login(found: Option<UserId>, password: string, rid: Rid, now: int) returns (answer: Answer)
      modifies this
      ensures (Rows(), answer) == AuthModel.Login(ctx, old(Rows()), found, password, rid, now)
    {
      if found.None? || found.value !in users {
        return Unauthorized;
      }
      var user := users[found.value];
      if !ctx.compare(password, user.passwordHash) {
        return Unauthorized;
      }
      if IsPlatformBanActive(user, now) || !user.emailVerified {
        return Forbidden;
      }
      if user.twoFactorEnabled {
        return MfaRequired(found.value);
      }
      answer := FinalizeLogin(found.value, rid, now);
    }

    method Login2FA(userId: UserId, code: string, totpValid: bool, rid: Rid, now: int) returns (answer: Answer)
      modifies this
      ensures (Rows(), answer) == AuthModel.Login2FA(ctx, old(Rows()), userId, code, totpValid, rid, now)
    {
      hide IsPlatformBanActive, Trim, Without, AuthModel.FinalizeLogin;
      var token := Trim(code);
      if userId !in users || !users[userId].twoFactorEnabled {
        return Unauthorized;
      }
      var user := users[userId];
      if IsPlatformBanActive(user, now) || !user.emailVerified {
        return Forbidden;
      }
      var isBackupFormat := '-' in token;
      if !isBackupFormat && |token| == 6 && user.hasTwoFactorSecret && totpValid {
        answer := FinalizeLogin(userId, rid, now);
        return;
      }
      if isBackupFormat {
        var backupCodes := user.backupCodes;
        for i := 0 to |backupCodes|
          invariant Rows() == old(Rows())
          invariant forall j :: 0 <= j < i ==> !ctx.compare(token, backupCodes[j])
        {
          var hashedCode := backupCodes[i];
          if ctx.compare(token, hashedCode) {
            assert FirstMatch(ctx.compare, token, backupCodes) == i;
            users := users[userId := user.(backupCodes := Without(backupCodes, hashedCode))];
            answer := FinalizeLogin(userId, rid, now);
            return;
          }
        }
      }
      return Unauthorized;
    }

    method Refresh(refreshToken: Token, rid: Rid, now: int) returns (answer: Answer)
      modifies this
      ensures (Rows(), answer) == AuthModel.Refresh(ctx, old(Rows()), refreshToken, rid, now)
    {
      if !Verify(refreshToken, now) || refreshToken.rid !in refreshTokens {
        return Unauthorized;
      }
      var record := refreshTokens[refreshToken.rid];
      if record.revokedAt.Some? {
        return Unauthorized;
      }
      if record.expiresAt < now {
        return Unauthorized;
      }
      if Sha256(refreshToken) != record.tokenHash {
        return Unauthorized;
      }
      refreshTokens := refreshTokens[refreshToken.rid := record.(revokedAt := Some(now))];
      var userId := refreshToken.sub;
      if userId !in users {
        return Failed;
      }
      var user := users[userId];
      if IsPlatformBanActive(user, now) || !ctx.gate(userId) {
        return Forbidden;
      }
      if !user.emailVerified {
        RevokeAllRefreshTokensForUser(userId, now);
        return Forbidden;
      }
      answer := IssueTokens(userId, rid, now);
    }

    method Logout(refreshToken: Token, now: int) returns (answer: Answer)
      modifies this
      ensures (Rows(), answer) == AuthModel.Logout(old(Rows()), refreshToken, now)
    {
      if !Verify(refreshToken, now) {
        return Unauthorized;
      }
      if refreshToken.rid !in refreshTokens {
        return Done;
      }
      var record := refreshTokens[refreshToken.rid];
      if Sha256(refreshToken) != record.tokenHash {
        return Unauthorized;
      }
      if record.revokedAt.None? {
        refreshTokens := refreshTokens[refreshToken.rid := record.(revokedAt := Some(now))];
      }
      return Done;
    }

    method RequestPasswordReset(found: Option<UserId>, id: ResetId, rawToken: string, now: int) returns (answer: Answer)
      modifies this
      ensures (Rows(), answer) == AuthModel.RequestPasswordReset(old(Rows()), found, id, rawToken, now)
    {
      if found.None? || found.value !in users {
        return Done;
      }
      var userId := found.value;
      resetTokens := map id | id in resetTokens ::
        if resetTokens[id].userId == userId && resetTokens[id].consumedAt.None? then
          resetTokens[id].(consumedAt := Some(now))
        else resetTokens[id];
      var free := forall other :: other in resetTokens ==> resetTokens[other].tokenHash != Sha256(rawToken);
      if id !in resetTokens && free {
        resetTokens := resetTokens[
          id := ResetRow(userId, users[userId].email, Sha256(rawToken), None, now + RESET_TTL_MS)];
      }
      return Done;
    }

    method ConfirmPasswordReset(token: string, newPassword: string, passwordHash: string, now: int)
      returns (answer: Answer)
      requires UniqueHashes(resetTokens)
      modifies this
      ensures (Rows(), answer) == AuthModel.ConfirmPasswordReset(old(Rows()), token, newPassword, passwordHash, now)
    {
      hide Trim;
      var normalizedToken := Trim(token);
      var id := FindReset(Db(users, refreshTokens, resetTokens), normalizedToken);
      if normalizedToken == "" || |newPassword| < 8 || id.None? {
        return BadRequest;
      }
      var record := resetTokens[id.value];
      if record.consumedAt.Some? || record.expiresAt < now {
        return BadRequest;
      }
      if record.userId !in users || users[record.userId].email != record.email {
        return BadRequest;
      }
      var userId := record.userId;
      resetTokens := resetTokens[id.value := record.(consumedAt := Some(now))];
      resetTokens := map other | other in resetTokens ::
        if resetTokens[other].userId == userId && resetTokens[other].consumedAt.None? then
          resetTokens[other].(consumedAt := Some(now))
        else resetTokens[other];
      RevokeAllRefreshTokensForUser(userId, now);
      users := users[userId := users[userId].(passwordHash := passwordHash)];
      return Done;
    }
  }
}
