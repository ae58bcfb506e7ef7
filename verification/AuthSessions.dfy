/** What every run of session requests keeps: refresh chains, single use, and the end of sessions at a reset. */
module AuthSessions {
  import opened AuthModel
  import opened Strings
  import opened Wrappers

  /* Histories. */

  // The rows, and beside them which login each refresh token descends from, the logins completed, and the tokens
  // that have been redeemed.
  datatype History = History(
    db: Db, origin: map<Rid, Rid>, logins: seq<Rid>, redeemed: seq<Rid>, confirmed: seq<ResetId>)

  // The refresh token a call redeems, the password-reset token it carries out, and the refresh token it issues.
  function Redeemed(db: Db, call: Call): Option<Rid> {
    var request := call.request;
    if request.RefreshRequest? && Redeems(db, request.token, call.now) then Some(request.token.rid) else None
  }

  function Confirmed(db: Db, call: Call): Option<ResetId>
    requires UniqueHashes(db.resets)
  {
    if !call.request.ConfirmRequest? then None
    else
      var id := FindReset(db, Trim(call.request.raw));
      if id.Some? && Confirms(db, call.request.raw, call.request.newPassword, call.now, id.value) then id else None
  }

  function Issued(answer: Answer): Option<Rid> {
    if answer.Tokens? && answer.token.Signed? then Some(answer.token.rid) else None
  }

  function Append<T>(s: seq<T>, x: Option<T>): seq<T> {
    if x.Some? then s + [x.value] else s
  }

  function Advance(
      h: History, db: Db, issued: Option<Rid>, redeemed: Option<Rid>, confirmed: Option<ResetId>): History
  {
    var root := if redeemed.Some? && redeemed.value in h.origin then Some(h.origin[redeemed.value]) else issued;
    History(
      db,
      if issued.Some? then h.origin[issued.value := root.value] else h.origin,
      if redeemed.None? then Append(h.logins, issued) else h.logins,
      Append(h.redeemed, redeemed),
      Append(h.confirmed, confirmed))
  }

  function Step(h: History, call: Call): History
    requires UniqueHashes(h.db.resets)
  {
    var (db, answer) := Perform(h.db, call);
    Advance(h, db, Issued(answer), Redeemed(h.db, call), Confirmed(h.db, call))
  }

  /* What one request does to the refresh tokens. */

  // Rows stay, and at most become revoked.
  ghost predicate Evolves(before: RefreshTable, after: RefreshTable) {
    && before.Keys <= after.Keys
    && forall rid :: rid in before ==>
         || after[rid] == before[rid]
         || (before[rid].revokedAt.None? && after[rid].revokedAt.Some?
             && after[rid] == before[rid].(revokedAt := after[rid].revokedAt))
  }

  ghost predicate Moves(before: RefreshTable, after: RefreshTable, issued: Option<Rid>, redeemed: Option<Rid>) {
    && Evolves(before, after)
    && (redeemed.Some? ==> Unrevoked(before, redeemed.value) && !Unrevoked(after, redeemed.value))
    && (issued.None? ==> after.Keys == before.Keys)
    && (issued.Some? ==>
          && issued.value !in before && after.Keys == before.Keys + {issued.value}
          && Unrevoked(after, issued.value) && IsSigned(after[issued.value])
          && (redeemed.Some? && IsSigned(before[redeemed.value]) ==>
                after[issued.value].userId == before[redeemed.value].userId))
  }

  // A row of a token signed for the row's user.
  predicate IsSigned(row: RefreshRow) {
    row.tokenHash.of.Signed? && row.tokenHash.of.sub == row.userId
  }

  lemma LoginMoves(ctx: Context, db: Db, userId: UserId, rid: Rid, now: int)
    requires userId in db.users
    ensures var (after, answer) := FinalizeLogin(ctx, db, userId, rid, now);
            Moves(db.refresh, after.refresh, Issued(answer), None)
  {
  }

  lemma RefreshMoves(ctx: Context, db: Db, token: Token, rid: Rid, now: int)
    ensures var (after, answer) := Refresh(ctx, db, token, rid, now);
            var redeemed := if Redeems(db, token, now) then Some(token.rid) else None;
            Moves(db.refresh, after.refresh, Issued(answer), redeemed)
  {
  }

  lemma LogoutMoves(db: Db, token: Token, now: int)
    ensures var (after, answer) := Logout(db, token, now);
            Moves(db.refresh, after.refresh, None, None) && !answer.Tokens?
  {
  }

  lemma RevokedAllMoves(refresh: RefreshTable, userId: UserId, now: int)
    ensures Moves(refresh, RevokedAll(refresh, userId, now), None, None)
  {
  }

  lemma ConfirmMoves(db: Db, raw: string, newPassword: string, newHash: string, now: int)
    requires UniqueHashes(db.resets)
    ensures var (after, answer) := ConfirmPasswordReset(db, raw, newPassword, newHash, now);
            Moves(db.refresh, after.refresh, None, None) && !answer.Tokens?
  {
    var id := FindReset(db, Trim(raw));
    if id.Some? && Confirms(db, raw, newPassword, now, id.value) {
      RevokedAllMoves(db.refresh, db.resets[id.value].userId, now);
    }
  }

  lemma NothingMoves(refresh: RefreshTable)
    ensures Moves(refresh, refresh, None, None)
  {
  }

  lemma PasswordLoginMoves(ctx: Context, db: Db, found: Option<UserId>, password: string, rid: Rid, now: int)
    ensures var (after, answer) := Login(ctx, db, found, password, rid, now);
            Moves(db.refresh, after.refresh, Issued(answer), None)
  {
    hide FinalizeLogin, IsPlatformBanActive, Moves;
    NothingMoves(db.refresh);
    if found.Some? && found.value in db.users {
      LoginMoves(ctx, db, found.value, rid, now);
    }
  }

  lemma SecondFactorMoves(ctx: Context, db: Db, userId: UserId, code: string, totpValid: bool, rid: Rid, now: int)
    ensures var (after, answer) := Login2FA(ctx, db, userId, code, totpValid, rid, now);
            Moves(db.refresh, after.refresh, Issued(answer), None)
  {
    hide FinalizeLogin, IsPlatformBanActive, Moves, FirstMatch, Without, IsBackupFormat, Trim;
    NothingMoves(db.refresh);
    if userId in db.users {
      var user := db.users[userId];
      LoginMoves(ctx, db, userId, rid, now);
      var i := FirstMatch(ctx.compare, Trim(code), user.backupCodes);
      if i < |user.backupCodes| {
        var left := user.(backupCodes := Without(user.backupCodes, user.backupCodes[i]));
        LoginMoves(ctx, db.(users := db.users[userId := left]), userId, rid, now);
      }
    }
  }

  lemma ResetKeepsRefresh(db: Db, found: Option<UserId>, id: ResetId, raw: string, now: int)
    ensures var (after, answer) := RequestPasswordReset(db, found, id, raw, now);
            after.refresh == db.refresh && !answer.Tokens?
  {
    hide ConsumedAll;
  }

  lemma PerformMoves(db: Db, call: Call)
    requires UniqueHashes(db.resets)
    ensures var (after, answer) := Perform(db, call);
            Moves(db.refresh, after.refresh, Issued(answer), Redeemed(db, call))
  {
    hide Login, Login2FA, Refresh, Redeems, Logout, RequestPasswordReset, ConfirmPasswordReset, RevokedAll, Moves;
    hide UniqueHashes;
    NothingMoves(db.refresh);
    var Call(request, now, ctx) := call;
    match request {
      case LoginRequest(found, password, rid) => PasswordLoginMoves(ctx, db, found, password, rid, now);
      case Login2FARequest(userId, code, totpValid, rid) =>
        SecondFactorMoves(ctx, db, userId, code, totpValid, rid, now);
      case RefreshRequest(token, rid) => RefreshMoves(ctx, db, token, rid, now);
      case LogoutRequest(token) => LogoutMoves(db, token, now);
      case ResetRequest(found, id, raw) => ResetKeepsRefresh(db, found, id, raw, now);
      case ConfirmRequest(raw, newPassword, newHash) => ConfirmMoves(db, raw, newPassword, newHash, now);
      case RevokeAllRequest(userId) => RevokedAllMoves(db.refresh, userId, now);
      case ChangeUserRequest(_, _) =>
    }
  }

  /* Chains. */

  // The token's chain starts at a token of the same user.
  ghost predicate Descends(origin: map<Rid, Rid>, refresh: RefreshTable, r: Rid) {
    && r in refresh && IsSigned(refresh[r])
    && r in origin && origin[r] in origin && origin[r] in refresh
    && refresh[origin[r]].userId == refresh[r].userId && origin[origin[r]] == origin[r]
  }

  ghost predicate Rooted(h: History) {
    && h.origin.Keys == h.db.refresh.Keys
    && forall r :: r in h.db.refresh ==> Descends(h.origin, h.db.refresh, r)
  }

  // Each login started one chain.
  ghost predicate LoginsAreRoots(h: History) {
    AreRoots(h.logins, h.origin)
  }

  ghost predicate AreRoots(logins: seq<Rid>, origin: map<Rid, Rid>) {
    && (forall i, j :: 0 <= i < j < |logins| ==> logins[i] != logins[j])
    && (forall r :: r in logins <==> r in origin && origin[r] == r)
  }

  lemma RootsGrow(logins: seq<Rid>, origin: map<Rid, Rid>, issued: Rid, root: Rid)
    requires AreRoots(logins, origin) && issued !in origin && (root == issued || root in origin)
    ensures AreRoots(if root == issued then logins + [issued] else logins, origin[issued := root])
  {
    assert issued !in logins;
  }

  // A chain holds at most one token that is not revoked.
  ghost predicate OnePerChain(h: History) {
    h.origin.Keys == h.db.refresh.Keys
    && forall r, s :: Unrevoked(h.db.refresh, r) && Unrevoked(h.db.refresh, s) && h.origin[r] == h.origin[s] ==> r == s
  }

  // No token was redeemed twice, and none can be.
  ghost predicate RedeemedOnce(h: History) {
    && (forall i, j :: 0 <= i < j < |h.redeemed| ==> h.redeemed[i] != h.redeemed[j])
    && (forall r :: r in h.redeemed ==> r in h.db.refresh && h.db.refresh[r].revokedAt.Some?)
  }

  ghost predicate Sound(h: History) {
    Rooted(h) && LoginsAreRoots(h) && OnePerChain(h) && RedeemedOnce(h)
  }

  lemma AdvanceKeepsRooted(h: History, db: Db, issued: Option<Rid>, redeemed: Option<Rid>, confirmed: Option<ResetId>)
    requires Rooted(h) && Moves(h.db.refresh, db.refresh, issued, redeemed)
    ensures Rooted(Advance(h, db, issued, redeemed, confirmed))
  {
    var next := Advance(h, db, issued, redeemed, confirmed);
    var before, after := h.db.refresh, db.refresh;
    AdvanceOrigin(h, db, issued, redeemed, confirmed);
    MovesKeys(before, after, issued, redeemed);
    hide Advance, Moves, Descends;
    forall r | r in after ensures Descends(next.origin, after, r) {
      if issued != Some(r) {
        DescentKept(before, after, issued, redeemed, h.origin, next.origin, r);
      } else {
        NewDescent(before, after, r, redeemed, h.origin, next.origin);
      }
    }
  }

  lemma MovesKeys(before: RefreshTable, after: RefreshTable, issued: Option<Rid>, redeemed: Option<Rid>)
    requires Moves(before, after, issued, redeemed)
    ensures after.Keys == before.Keys + (if issued.Some? then {issued.value} else {})
    ensures issued.Some? ==> issued.value !in before
    ensures redeemed.Some? ==> redeemed.value in before
  {
  }

  lemma NewDescent(
      before: RefreshTable, after: RefreshTable, issued: Rid, redeemed: Option<Rid>,
      origin: map<Rid, Rid>, next: map<Rid, Rid>)
    requires Moves(before, after, Some(issued), redeemed) && issued in next
    requires redeemed.Some? ==> Descends(origin, before, redeemed.value)
    requires next[issued] == if redeemed.Some? then origin[redeemed.value] else issued
    requires forall s :: s in origin && issued != s ==> s in next && next[s] == origin[s]
    ensures Descends(next, after, issued)
  {
    if redeemed.Some? {
      DescentKept(before, after, Some(issued), redeemed, origin, next, redeemed.value);
    }
  }

  lemma DescentKept(
      before: RefreshTable, after: RefreshTable, issued: Option<Rid>, redeemed: Option<Rid>,
      origin: map<Rid, Rid>, next: map<Rid, Rid>, r: Rid)
    requires Moves(before, after, issued, redeemed) && Descends(origin, before, r)
    requires forall s :: s in origin && issued != Some(s) ==> s in next && next[s] == origin[s]
    ensures Descends(next, after, r) && after[r].userId == before[r].userId
  {
    assert issued != Some(r) && issued != Some(origin[r]);
  }

  lemma AdvanceOrigin(h: History, db: Db, issued: Option<Rid>, redeemed: Option<Rid>, confirmed: Option<ResetId>)
    requires redeemed.Some? ==> redeemed.value in h.origin
    ensures var next := Advance(h, db, issued, redeemed, confirmed);
            && next.db == db
            && next.origin.Keys == h.origin.Keys + (if issued.Some? then {issued.value} else {})
            && (forall r :: r in h.origin && issued != Some(r) ==> next.origin[r] == h.origin[r])
            && (issued.Some? ==>
                  next.origin[issued.value] == if redeemed.Some? then h.origin[redeemed.value] else issued.value)
  {
  }

  lemma AdvanceKeepsRoots(h: History, db: Db, issued: Option<Rid>, redeemed: Option<Rid>, confirmed: Option<ResetId>)
    requires Rooted(h) && LoginsAreRoots(h) && Moves(h.db.refresh, db.refresh, issued, redeemed)
    ensures LoginsAreRoots(Advance(h, db, issued, redeemed, confirmed))
  {
    MovesKeys(h.db.refresh, db.refresh, issued, redeemed);
    assert redeemed.Some? ==> Descends(h.origin, h.db.refresh, redeemed.value);
    hide Moves, Rooted, IsSigned, AreRoots;
    if issued.Some? {
      RootsGrow(h.logins, h.origin, issued.value, if redeemed.Some? then h.origin[redeemed.value] else issued.value);
    }
  }

  lemma AdvanceKeepsOnePerChain(
      h: History, db: Db, issued: Option<Rid>, redeemed: Option<Rid>, confirmed: Option<ResetId>)
    requires Rooted(h) && OnePerChain(h) && Moves(h.db.refresh, db.refresh, issued, redeemed)
    ensures OnePerChain(Advance(h, db, issued, redeemed, confirmed))
  {
    var next := Advance(h, db, issued, redeemed, confirmed);
    AdvanceOrigin(h, db, issued, redeemed, confirmed);
    MovesKeys(h.db.refresh, db.refresh, issued, redeemed);
    hide Advance, Moves, Rooted, Unrevoked, OnePerChain;
    forall r, s | Unrevoked(db.refresh, r) && Unrevoked(db.refresh, s) && next.origin[r] == next.origin[s]
      ensures r == s
    {
      if issued != Some(r) && issued != Some(s) {
        StillApart(h, db, issued, redeemed, r, s);
      } else if issued != Some(s) {
        ChainHasEnded(h, db, r, redeemed, next.origin, s);
      } else if issued != Some(r) {
        ChainHasEnded(h, db, s, redeemed, next.origin, r);
      }
    }
    OnePerChainFrom(next);
  }

  lemma OnePerChainFrom(h: History)
    requires h.origin.Keys == h.db.refresh.Keys
    requires forall r, s :: Unrevoked(h.db.refresh, r) && Unrevoked(h.db.refresh, s) && h.origin[r] == h.origin[s] ==>
        r == s
    ensures OnePerChain(h)
  {
  }

  lemma StillApart(h: History, db: Db, issued: Option<Rid>, redeemed: Option<Rid>, r: Rid, s: Rid)
    requires OnePerChain(h) && Moves(h.db.refresh, db.refresh, issued, redeemed)
    requires issued != Some(r) && issued != Some(s) && Unrevoked(db.refresh, r) && Unrevoked(db.refresh, s)
    ensures r in h.origin && s in h.origin && (h.origin[r] == h.origin[s] ==> r == s)
  {
    assert Unrevoked(h.db.refresh, r) && Unrevoked(h.db.refresh, s);
  }

  // The chain a new token joins has no other token in force.
  lemma ChainHasEnded(h: History, db: Db, issued: Rid, redeemed: Option<Rid>, next: map<Rid, Rid>, other: Rid)
    requires Rooted(h) && OnePerChain(h) && Moves(h.db.refresh, db.refresh, Some(issued), redeemed)
    requires other != issued && Unrevoked(db.refresh, other)
    requires issued in next && next[issued] == if redeemed.Some? then h.origin[redeemed.value] else issued
    requires other in next && other in h.origin && next[other] == h.origin[other]
    ensures next[issued] != next[other]
  {
    assert Unrevoked(h.db.refresh, other) && redeemed != Some(other);
    assert Descends(h.origin, h.db.refresh, other);
  }

  lemma AdvanceKeepsRedeemedOnce(
      h: History, db: Db, issued: Option<Rid>, redeemed: Option<Rid>, confirmed: Option<ResetId>)
    requires RedeemedOnce(h) && Moves(h.db.refresh, db.refresh, issued, redeemed)
    ensures RedeemedOnce(Advance(h, db, issued, redeemed, confirmed))
  {
  }

  lemma StepKeepsSound(h: History, call: Call)
    requires UniqueHashes(h.db.resets) && Sound(h)
    ensures Sound(Step(h, call))
  {
    PerformMoves(h.db, call);
    hide Perform, Moves, Rooted, LoginsAreRoots, OnePerChain, RedeemedOnce, Redeemed, Confirmed, Advance;
    var (db, answer) := Perform(h.db, call);
    AdvanceKeepsRooted(h, db, Issued(answer), Redeemed(h.db, call), Confirmed(h.db, call));
    AdvanceKeepsRoots(h, db, Issued(answer), Redeemed(h.db, call), Confirmed(h.db, call));
    AdvanceKeepsOnePerChain(h, db, Issued(answer), Redeemed(h.db, call), Confirmed(h.db, call));
    AdvanceKeepsRedeemedOnce(h, db, Issued(answer), Redeemed(h.db, call), Confirmed(h.db, call));
  }

  /* Password-reset tokens. */

  predicate Open(resets: map<ResetId, ResetRow>, id: ResetId) {
    id in resets && resets[id].consumedAt.None?
  }

  // Hashes are unique, no token was used twice, and a user has at most one open token.
  ghost predicate ResetsSound(h: History) {
    && UniqueHashes(h.db.resets)
    && (forall i, j :: 0 <= i < j < |h.confirmed| ==> h.confirmed[i] != h.confirmed[j])
    && (forall id :: id in h.confirmed ==> id in h.db.resets && !Open(h.db.resets, id))
    && (forall a, b :: Open(h.db.resets, a) && Open(h.db.resets, b) ==>
          h.db.resets[a].userId == h.db.resets[b].userId ==> a == b)
  }

  // Rows stay and at most become consumed; a new row finds no other of its user open.
  ghost predicate ResetsMove(
      before: map<ResetId, ResetRow>, after: map<ResetId, ResetRow>, added: Option<ResetId>, confirmed: Option<ResetId>)
  {
    && after.Keys == before.Keys + (if added.Some? then {added.value} else {})
    && (forall id :: id in before ==>
          && (Open(after, id) ==> Open(before, id))
          && after[id].userId == before[id].userId && after[id].tokenHash == before[id].tokenHash)
    && (confirmed.Some? ==> Open(before, confirmed.value) && !Open(after, confirmed.value))
    && (added.Some? ==>
          && added.value !in before
          && (forall id :: id in before ==> before[id].tokenHash != after[added.value].tokenHash)
          && (forall id :: id in before && before[id].userId == after[added.value].userId ==> !Open(after, id)))
  }

  // The row a request for a reset adds.
  function Requested(db: Db, call: Call): Option<ResetId>
    requires UniqueHashes(db.resets)
  {
    if call.request.ResetRequest? && call.request.id !in db.resets && call.request.id in Perform(db, call).0.resets then
      Some(call.request.id)
    else None
  }

  lemma RequestMovesResets(db: Db, found: Option<UserId>, id: ResetId, raw: string, now: int)
    ensures var after := RequestPasswordReset(db, found, id, raw, now).0.resets;
            ResetsMove(db.resets, after, if id !in db.resets && id in after then Some(id) else None, None)
  {
  }

  lemma ConfirmMovesResets(db: Db, id: ResetId, newHash: string, now: int)
    requires Open(db.resets, id) && db.resets[id].userId in db.users
    ensures ResetsMove(db.resets, ResetDone(db, id, newHash, now).resets, None, Some(id))
  {
  }

  lemma ConfirmsOpen(db: Db, raw: string, newPassword: string, now: int, id: ResetId)
    requires Confirms(db, raw, newPassword, now, id)
    ensures Open(db.resets, id) && db.resets[id].userId in db.users
  {
  }

  lemma PerformMovesResets(db: Db, call: Call)
    requires UniqueHashes(db.resets)
    ensures ResetsMove(db.resets, Perform(db, call).0.resets, Requested(db, call), Confirmed(db, call))
  {
    hide *;
    if call.request.ResetRequest? {
      RequestCallMovesResets(db, call);
    } else if call.request.ConfirmRequest? {
      ConfirmCallMovesResets(db, call);
    } else {
      OtherCallsKeepResets(db, call);
    }
  }

  lemma RequestCallMovesResets(db: Db, call: Call)
    requires UniqueHashes(db.resets) && call.request.ResetRequest?
    ensures ResetsMove(db.resets, Perform(db, call).0.resets, Requested(db, call), Confirmed(db, call))
  {
    hide RequestPasswordReset, ResetsMove, UniqueHashes, FindReset;
    RequestMovesResets(db, call.request.found, call.request.id, call.request.raw, call.now);
  }

  lemma OtherCallsKeepResets(db: Db, call: Call)
    requires UniqueHashes(db.resets) && !call.request.ResetRequest? && !call.request.ConfirmRequest?
    ensures ResetsMove(db.resets, Perform(db, call).0.resets, Requested(db, call), Confirmed(db, call))
  {
    assert ResetsMove(db.resets, db.resets, None, None);
    hide Login, Login2FA, Refresh, Logout, RevokedAll, ResetsMove, UniqueHashes, FindReset;
    match call.request
    case LoginRequest(found, password, rid) => LoginKeepsResets(call.ctx, db, found, password, rid, call.now);
    case Login2FARequest(userId, code, totpValid, rid) =>
      Login2FAKeepsResets(call.ctx, db, userId, code, totpValid, rid, call.now);
    case RefreshRequest(token, rid) => RefreshKeepsResets(call.ctx, db, token, rid, call.now);
    case LogoutRequest(token) => LogoutKeepsResets(db, token, call.now);
    case _ =>
  }

  lemma ConfirmCallMovesResets(db: Db, call: Call)
    requires UniqueHashes(db.resets) && call.request.ConfirmRequest?
    ensures ResetsMove(db.resets, Perform(db, call).0.resets, Requested(db, call), Confirmed(db, call))
  {
    assert ResetsMove(db.resets, db.resets, None, None);
    hide Confirms, ResetsMove, UniqueHashes, Trim, ResetDone, FindReset;
    var confirmed := Confirmed(db, call);
    if confirmed.Some? {
      ConfirmsOpen(db, call.request.raw, call.request.newPassword, call.now, confirmed.value);
      ConfirmMovesResets(db, confirmed.value, call.request.newHash, call.now);
    }
  }

  lemma LoginKeepsResets(ctx: Context, db: Db, found: Option<UserId>, password: string, rid: Rid, now: int)
    ensures Login(ctx, db, found, password, rid, now).0.resets == db.resets
  {
  }

  lemma Login2FAKeepsResets(ctx: Context, db: Db, userId: UserId, code: string, totpValid: bool, rid: Rid, now: int)
    ensures Login2FA(ctx, db, userId, code, totpValid, rid, now).0.resets == db.resets
  {
    hide FirstMatch, Without, IsBackupFormat, IsPlatformBanActive, Trim;
  }

  lemma RefreshKeepsResets(ctx: Context, db: Db, token: Token, rid: Rid, now: int)
    ensures Refresh(ctx, db, token, rid, now).0.resets == db.resets
  {
  }

  lemma LogoutKeepsResets(db: Db, token: Token, now: int)
    ensures Logout(db, token, now).0.resets == db.resets
  {
  }

  lemma StepKeepsResetsSound(h: History, call: Call)
    requires ResetsSound(h)
    ensures ResetsSound(Step(h, call))
  {
    PerformMovesResets(h.db, call);
    hide Perform, Redeemed, Confirmed, Requested;
    var (db, answer) := Perform(h.db, call);
    AdvanceKeepsResetsSound(h, db, Issued(answer), Redeemed(h.db, call), Confirmed(h.db, call), Requested(h.db, call));
  }

  lemma AdvanceKeepsResetsSound(
      h: History, db: Db, issued: Option<Rid>, redeemed: Option<Rid>, confirmed: Option<ResetId>,
      added: Option<ResetId>)
    requires ResetsSound(h) && ResetsMove(h.db.resets, db.resets, added, confirmed)
    ensures ResetsSound(Advance(h, db, issued, redeemed, confirmed))
  {
  }

  /* Runs. */

  ghost function Run(h: History, calls: seq<Call>): (end: History)
    requires ResetsSound(h)
    ensures ResetsSound(end)
    decreases |calls|
  {
    if calls == [] then h
    else
      StepKeepsResetsSound(h, calls[0]);
      Run(Step(h, calls[0]), calls[1..])
  }

  // No tokens yet.
  function Start(users: map<UserId, User>): (h: History)
    ensures Sound(h) && ResetsSound(h)
  {
    History(Db(users, map[], map[]), map[], [], [], [])
  }

  // Along every run each login starts a chain with at most one token in force, and no token is redeemed twice.
  lemma {:induction false} RunKeepsSound(h: History, calls: seq<Call>)
    requires Sound(h) && ResetsSound(h)
    ensures Sound(Run(h, calls))
    decreases |calls|
  {
    if calls != [] {
      hide Sound, ResetsSound, Step;
      StepKeepsResetsSound(h, calls[0]);
      StepIsUnique(h);
      StepKeepsSound(h, calls[0]);
      RunKeepsSound(Step(h, calls[0]), calls[1..]);
    }
  }

  lemma StepIsUnique(h: History)
    requires ResetsSound(h)
    ensures UniqueHashes(h.db.resets)
  {
  }

  /* Sessions and logins. */

  ghost function InForce(h: History, userId: UserId): set<Rid> {
    set rid | rid in h.db.refresh && h.db.refresh[rid].userId == userId && h.db.refresh[rid].revokedAt.None?
  }

  // The logins of a user that were completed, each by the token it issued.
  ghost function LoginsOf(h: History, userId: UserId): set<Rid> {
    set rid | rid in h.logins && rid in h.db.refresh && h.db.refresh[rid].userId == userId
  }

  lemma {:induction false} AtMostImages(rids: set<Rid>, image: map<Rid, Rid>, into: set<Rid>)
    requires forall r :: r in rids ==> r in image && image[r] in into
    requires forall r, s :: r in rids && s in rids && image[r] == image[s] ==> r == s
    ensures |rids| <= |into|
    decreases rids
  {
    if rids != {} {
      var r :| r in rids;
      AtMostImages(rids - {r}, image, into - {image[r]});
    }
  }

  // A user never has more sessions in force than completed logins.
  lemma {:induction false} SessionsAreAtMostLogins(users: map<UserId, User>, calls: seq<Call>, userId: UserId)
    ensures var h := Run(Start(users), calls);
            |InForce(h, userId)| <= |LoginsOf(h, userId)|
  {
    RunKeepsSound(Start(users), calls);
    var h := Run(Start(users), calls);
    forall r | r in InForce(h, userId) ensures h.origin[r] in LoginsOf(h, userId) {
      assert Descends(h.origin, h.db.refresh, r);
    }
    AtMostImages(InForce(h, userId), h.origin, LoginsOf(h, userId));
  }

  /* Tokens that are over. */

  lemma {:induction false} RunEvolves(h: History, calls: seq<Call>)
    requires ResetsSound(h)
    ensures Evolves(h.db.refresh, Run(h, calls).db.refresh)
    decreases |calls|
  {
    hide ResetsSound, Perform, Redeemed, Confirmed;
    if calls != [] {
      StepIsUnique(h);
      PerformMoves(h.db, calls[0]);
      StepKeepsResetsSound(h, calls[0]);
      RunEvolves(Step(h, calls[0]), calls[1..]);
    }
  }

  // A revoked token stays refused after any further requests, and trying it changes nothing.
  lemma {:induction false} RevokedIsOver(h: History, calls: seq<Call>, token: Token, call: Call)
    requires ResetsSound(h) && token.Signed? && token.rid in h.db.refresh && h.db.refresh[token.rid].revokedAt.Some?
    requires call.request.RefreshRequest? && call.request.token == token
    ensures var end := Run(h, calls);
            Perform(end.db, call) == (end.db, Unauthorized)
  {
    RunEvolves(h, calls);
  }

  // A password reset ends every session its user had: no token from before it is ever taken again.
  lemma {:induction false} ResetEndsSessions(h: History, reset: Call, calls: seq<Call>, token: Token, call: Call)
    requires ResetsSound(h) && Confirmed(h.db, reset).Some?
    requires token.Signed? && token.rid in h.db.refresh
    requires h.db.refresh[token.rid].userId == h.db.resets[Confirmed(h.db, reset).value].userId
    requires call.request.RefreshRequest? && call.request.token == token
    ensures ResetsSound(Step(h, reset))
    ensures var end := Run(Step(h, reset), calls);
            Perform(end.db, call) == (end.db, Unauthorized)
  {
    StepKeepsResetsSound(h, reset);
    var after := Step(h, reset);
    assert after.db.refresh == RevokedAll(h.db.refresh, h.db.resets[Confirmed(h.db, reset).value].userId, reset.now);
    RevokedIsOver(after, calls, token, call);
  }

  // A token just issued is redeemed exactly until its lifetime, counted in whole seconds, has passed.
  lemma IssuedIsRedeemed(ctx: Context, db: Db, userId: UserId, rid: Rid, now: int, later: int)
    requires rid !in db.refresh
    ensures var (after, answer) := IssueTokens(ctx, db, userId, rid, now);
            && answer == Tokens(Signed(userId, rid, now / 1000, now / 1000 + ctx.ttlSeconds))
            && (Redeems(after, answer.token, later) <==> later / 1000 < now / 1000 + ctx.ttlSeconds)
  {
  }

  // A refresh while the user is banned revokes the presented token only: the branch that would revoke the user's
  // other tokens lies behind a check that has already refused.
  lemma BannedRefreshKeepsOtherSessions(ctx: Context, db: Db, token: Token, rid: Rid, now: int)
    requires Redeems(db, token, now) && token.sub in db.users && IsPlatformBanActive(db.users[token.sub], now)
    ensures var (after, answer) := Refresh(ctx, db, token, rid, now);
            && answer == Forbidden
            && forall other :: Unrevoked(after.refresh, other) <==> Unrevoked(db.refresh, other) && other != token.rid
  {
  }

  /* Backup codes. */

  // The stored code a call uses up.
  function Spent(db: Db, call: Call, userId: UserId): Option<string> {
    if !call.request.Login2FARequest? || call.request.userId != userId || userId !in db.users then None
    else
      var user, code := db.users[userId], call.request.code;
      if !user.twoFactorEnabled || IsPlatformBanActive(user, call.now) || !user.emailVerified then None
      else if !IsBackupFormat(code) then None
      else
        var i := FirstMatch(call.ctx.compare, Trim(code), user.backupCodes);
        if i < |user.backupCodes| then Some(user.backupCodes[i]) else None
  }

  ghost function SpentIn(h: History, calls: seq<Call>, userId: UserId): seq<string>
    requires ResetsSound(h)
    decreases |calls|
  {
    if calls == [] then []
    else
      StepKeepsResetsSound(h, calls[0]);
      var rest := SpentIn(Step(h, calls[0]), calls[1..], userId);
      if Spent(h.db, calls[0], userId).Some? then [Spent(h.db, calls[0], userId).value] + rest else rest
  }

  // Nothing but a login by backup code and a change of the user touches the codes.
  lemma StepSpends(db: Db, call: Call, userId: UserId)
    requires UniqueHashes(db.resets) && userId in db.users
    requires call.request.ChangeUserRequest? ==> call.request.userId != userId
    ensures var after := Perform(db, call).0;
            && userId in after.users
            && after.users[userId].backupCodes
               == match Spent(db, call, userId)
                  case Some(code) => Without(db.users[userId].backupCodes, code)
                  case None => db.users[userId].backupCodes
  {
    hide Without, FirstMatch, IsBackupFormat, IsPlatformBanActive, Trim, RevokedAll, ConsumedAll, Redeems;
  }

  // While nobody sets new codes, each stored code admits at most one login.
  lemma {:induction false} CodesAreSpentOnce(h: History, calls: seq<Call>, userId: UserId)
    requires ResetsSound(h) && userId in h.db.users
    requires forall i :: 0 <= i < |calls| && calls[i].request.ChangeUserRequest? ==> calls[i].request.userId != userId
    ensures var spent, codes := SpentIn(h, calls, userId), h.db.users[userId].backupCodes;
            && (forall code :: code in spent ==> code in codes)
            && (forall i, j :: 0 <= i < j < |spent| ==> spent[i] != spent[j])
            && |spent| <= |codes|
    decreases |calls|
  {
    hide Perform, Spent, Redeemed, Confirmed, ResetsSound;
    if calls != [] {
      StepIsUnique(h);
      StepKeepsResetsSound(h, calls[0]);
      StepSpends(h.db, calls[0], userId);
      var next := Step(h, calls[0]);
      CodesAreSpentOnce(next, calls[1..], userId);
      var code := Spent(h.db, calls[0], userId);
      if code.Some? {
        SpentIsStored(h.db, calls[0], userId);
        assert next.db.users[userId].backupCodes == Without(h.db.users[userId].backupCodes, code.value);
      }
    }
  }

  lemma SpentIsStored(db: Db, call: Call, userId: UserId)
    requires userId in db.users && Spent(db, call, userId).Some?
    ensures Spent(db, call, userId).value in db.users[userId].backupCodes
  {
  }
}
