/** Sessions: refresh tokens, password-reset tokens and backup codes, as functions on the rows they live in. */
module AuthModel {
  import opened Strings
  import opened Wrappers

  type UserId = string
  type Rid = string
  type ResetId = string

  /* Values. */

  // A digest, which only its own text has.
  datatype Digest<T> = Sha256(of: T)

  // A text presented as a refresh token: one signed with the refresh secret, or any other.
  datatype Token =
    | Signed(sub: UserId, rid: Rid, issuedAt: int, expires: int)
    | Other(text: string)

  datatype User = User(
    email: string, passwordHash: string, emailVerified: bool, isPlatformBanned: bool, banExpiresAt: Option<int>,
    twoFactorEnabled: bool, hasTwoFactorSecret: bool, backupCodes: seq<string>)

  datatype RefreshRow = RefreshRow(userId: UserId, tokenHash: Digest<Token>, revokedAt: Option<int>, expiresAt: int)

  datatype ResetRow = ResetRow(
    userId: UserId, email: string, tokenHash: Digest<string>, consumedAt: Option<int>, expiresAt: int)

  type RefreshTable = map<Rid, RefreshRow>

  datatype Db = Db(users: map<UserId, User>, refresh: RefreshTable, resets: map<ResetId, ResetRow>)

  // What the code depends on from outside: the lifetime of a refresh token, the password hasher's comparison of a
  // text with a hash, and whether the login gate lets a user in.
  datatype Context = Context(ttlSeconds: int, compare: (string, string) -> bool, gate: UserId -> bool)

  datatype Answer =
    | Tokens(token: Token) | MfaRequired(userId: UserId) | Done | Unauthorized | Forbidden | BadRequest | Failed

  const RESET_TTL_MS := 60 * 60 * 1000

  /* Reading. */

  // Signatures are checked in whole seconds.
  function Verify(token: Token, now: int): bool {
    token.Signed? && now / 1000 < token.expires
  }

  function IsPlatformBanActive(user: User, now: int): bool {
    user.isPlatformBanned && !(user.banExpiresAt.Some? && user.banExpiresAt.value <= now)
  }

  predicate Unrevoked(refresh: RefreshTable, rid: Rid) {
    rid in refresh && refresh[rid].revokedAt.None?
  }

  /* Refresh tokens. */

  function RevokedAll(refresh: RefreshTable, userId: UserId, now: int): RefreshTable {
    map rid | rid in refresh ::
      if refresh[rid].userId == userId && refresh[rid].revokedAt.None? then refresh[rid].(revokedAt := Some(now))
      else refresh[rid]
  }

  function RevokedOne(refresh: RefreshTable, rid: Rid, now: int): RefreshTable
    requires rid in refresh
  {
    refresh[rid := refresh[rid].(revokedAt := Some(now))]
  }

  // A row whose id is taken is refused by the table.
  function IssueTokens(ctx: Context, db: Db, userId: UserId, rid: Rid, now: int): (Db, Answer) {
    var token := Signed(userId, rid, now / 1000, now / 1000 + ctx.ttlSeconds);
    if rid in db.refresh then (db, Failed)
    else
      (db.(refresh := db.refresh[rid := RefreshRow(userId, Sha256(token), None, now + ctx.ttlSeconds * 1000)]),
       Tokens(token))
  }

  function FinalizeLogin(ctx: Context, db: Db, userId: UserId, rid: Rid, now: int): (Db, Answer)
    requires userId in db.users
  {
    var user := db.users[userId];
    if IsPlatformBanActive(user, now) || !user.emailVerified || !ctx.gate(userId) then (db, Forbidden)
    else IssueTokens(ctx, db, userId, rid, now)
  }

  // `found` is the user the identifier names.
  function Login(ctx: Context, db: Db, found: Option<UserId>, password: string, rid: Rid, now: int): (Db, Answer) {
    if found.None? || found.value !in db.users then (db, Unauthorized)
    else
      var user := db.users[found.value];
      if !ctx.compare(password, user.passwordHash) then (db, Unauthorized)
      else if IsPlatformBanActive(user, now) || !user.emailVerified then (db, Forbidden)
      else if user.twoFactorEnabled then (db, MfaRequired(found.value))
      else FinalizeLogin(ctx, db, found.value, rid, now)
  }

  // The first stored code that the text matches.
  function FirstMatch(compare: (string, string) -> bool, text: string, codes: seq<string>): (i: nat)
    ensures i <= |codes| && (i < |codes| ==> compare(text, codes[i]))
    ensures forall j :: 0 <= j < i ==> !compare(text, codes[j])
  {
    if codes == [] || compare(text, codes[0]) then 0 else 1 + FirstMatch(compare, text, codes[1..])
  }

  function Without(codes: seq<string>, code: string): (rest: seq<string>)
    ensures code !in rest && |rest| <= |codes|
    ensures code in codes ==> |rest| < |codes|
    ensures forall c :: c in rest <==> c in codes && c != code
  {
    if codes == [] then []
    else (if codes[0] == code then [] else [codes[0]]) + Without(codes[1..], code)
  }

  // Whether the second factor is a backup code rather than a one-time password.
  predicate IsBackupFormat(code: string) {
    '-' in Trim(code)
  }

  function Login2FA(
      ctx: Context, db: Db, userId: UserId, code: string, totpValid: bool, rid: Rid, now: int): (Db, Answer)
  {
    if userId !in db.users || !db.users[userId].twoFactorEnabled then (db, Unauthorized)
    else
      var user := db.users[userId];
      if IsPlatformBanActive(user, now) || !user.emailVerified then (db, Forbidden)
      else if IsBackupFormat(code) then
        var i := FirstMatch(ctx.compare, Trim(code), user.backupCodes);
        if i == |user.backupCodes| then (db, Unauthorized)
        else
          var left := user.(backupCodes := Without(user.backupCodes, user.backupCodes[i]));
          FinalizeLogin(ctx, db.(users := db.users[userId := left]), userId, rid, now)
      else if |Trim(code)| == 6 && user.hasTwoFactorSecret && totpValid then FinalizeLogin(ctx, db, userId, rid, now)
      else (db, Unauthorized)
  }

  // Whether a refresh gets past the checks of its token, and so revokes it.
  predicate Redeems(db: Db, token: Token, now: int) {
    && Verify(token, now) && Unrevoked(db.refresh, token.rid)
    && db.refresh[token.rid].expiresAt >= now && db.refresh[token.rid].tokenHash == Sha256(token)
  }

  function Refresh(ctx: Context, db: Db, token: Token, rid: Rid, now: int): (Db, Answer) {
    if !Redeems(db, token, now) then (db, Unauthorized)
    else
      var redeemed := db.(refresh := RevokedOne(db.refresh, token.rid, now));
      if token.sub !in db.users then (redeemed, Failed)
      else
        var user := db.users[token.sub];
        if IsPlatformBanActive(user, now) || !ctx.gate(token.sub) then (redeemed, Forbidden)
        else if !user.emailVerified then
          (redeemed.(refresh := RevokedAll(redeemed.refresh, token.sub, now)), Forbidden)
        else IssueTokens(ctx, redeemed, token.sub, rid, now)
  }

  function Logout(db: Db, token: Token, now: int): (Db, Answer) {
    if !Verify(token, now) then (db, Unauthorized)
    else if token.rid !in db.refresh then (db, Done)
    else if db.refresh[token.rid].tokenHash != Sha256(token) then (db, Unauthorized)
    else if db.refresh[token.rid].revokedAt.Some? then (db, Done)
    else (db.(refresh := RevokedOne(db.refresh, token.rid, now)), Done)
  }

  /* Password resets. */

  function ConsumedAll(resets: map<ResetId, ResetRow>, userId: UserId, now: int): map<ResetId, ResetRow> {
    map id | id in resets ::
      if resets[id].userId == userId && resets[id].consumedAt.None? then resets[id].(consumedAt := Some(now))
      else resets[id]
  }

  // Issuing a reset token consumes the open ones first; the caller swallows a refused insert.
  function RequestPasswordReset(db: Db, found: Option<UserId>, id: ResetId, raw: string, now: int): (Db, Answer) {
    if found.None? || found.value !in db.users then (db, Done)
    else
      var userId := found.value;
      var consumed := ConsumedAll(db.resets, userId, now);
      if id in consumed || (exists other :: other in consumed && consumed[other].tokenHash == Sha256(raw)) then
        (db.(resets := consumed), Done)
      else
        (db.(resets := consumed[id := ResetRow(userId, db.users[userId].email, Sha256(raw), None, now + RESET_TTL_MS)]),
         Done)
  }

  // Whether a reset is carried out with the row of that id.
  predicate Confirms(db: Db, raw: string, newPassword: string, now: int, id: ResetId) {
    && Trim(raw) != "" && |newPassword| >= 8
    && id in db.resets && db.resets[id].tokenHash == Sha256(Trim(raw))
    && db.resets[id].consumedAt.None? && db.resets[id].expiresAt >= now
    && db.resets[id].userId in db.users && db.users[db.resets[id].userId].email == db.resets[id].email
  }

  ghost predicate UniqueHashes(resets: map<ResetId, ResetRow>) {
    forall a, b :: a in resets && b in resets && resets[a].tokenHash == resets[b].tokenHash ==> a == b
  }

  function FindReset(db: Db, raw: string): (id: Option<ResetId>)
    requires UniqueHashes(db.resets)
    ensures id.Some? ==> id.value in db.resets && db.resets[id.value].tokenHash == Sha256(raw)
    ensures id.None? ==> forall other :: other in db.resets ==> db.resets[other].tokenHash != Sha256(raw)
  {
    if other :| other in db.resets && db.resets[other].tokenHash == Sha256(raw) then Some(other) else None
  }

  function ResetDone(db: Db, id: ResetId, newHash: string, now: int): Db
    requires id in db.resets && db.resets[id].userId in db.users
  {
    var userId := db.resets[id].userId;
    Db(db.users[userId := db.users[userId].(passwordHash := newHash)],
       RevokedAll(db.refresh, userId, now),
       ConsumedAll(db.resets[id := db.resets[id].(consumedAt := Some(now))], userId, now))
  }

  function ConfirmPasswordReset(db: Db, raw: string, newPassword: string, newHash: string, now: int): (Db, Answer)
    requires UniqueHashes(db.resets)
  {
    var id := FindReset(db, Trim(raw));
    if id.Some? && Confirms(db, raw, newPassword, now, id.value) then (ResetDone(db, id.value, newHash, now), Done)
    else (db, BadRequest)
  }

  /* Requests. */

  // The last two stand for the rest of the system: a moderator revoking a user's sessions, and any change of a user
  // that this service does not make.
  datatype Request =
    | LoginRequest(found: Option<UserId>, password: string, rid: Rid)
    | Login2FARequest(userId: UserId, code: string, totpValid: bool, rid: Rid)
    | RefreshRequest(token: Token, rid: Rid)
    | LogoutRequest(token: Token)
    | ResetRequest(found: Option<UserId>, id: ResetId, raw: string)
    | ConfirmRequest(raw: string, newPassword: string, newHash: string)
    | RevokeAllRequest(userId: UserId)
    | ChangeUserRequest(userId: UserId, user: User)

  // A request, the time at which it is served and what is outside the service then.
  datatype Call = Call(request: Request, now: int, ctx: Context)

  function Perform(db: Db, call: Call): (Db, Answer)
    requires UniqueHashes(db.resets)
  {
    var Call(request, now, ctx) := call;
    match request
    case LoginRequest(found, password, rid) => Login(ctx, db, found, password, rid, now)
    case Login2FARequest(userId, code, totpValid, rid) => Login2FA(ctx, db, userId, code, totpValid, rid, now)
    case RefreshRequest(token, rid) => Refresh(ctx, db, token, rid, now)
    case LogoutRequest(token) => Logout(db, token, now)
    case ResetRequest(found, id, raw) => RequestPasswordReset(db, found, id, raw, now)
    case ConfirmRequest(raw, newPassword, newHash) => ConfirmPasswordReset(db, raw, newPassword, newHash, now)
    case RevokeAllRequest(userId) => (db.(refresh := RevokedAll(db.refresh, userId, now)), Done)
    case ChangeUserRequest(userId, user) => (db.(users := db.users[userId := user]), Done)
  }
}
