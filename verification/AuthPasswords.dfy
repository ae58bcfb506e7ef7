/** Passwords over whole runs: what a reset changes, which password logs in afterwards, and how long a reset token can
    be used. */
module AuthPasswords {
  import opened AuthModel
  import opened AuthSessions
  import opened Strings
  import opened Wrappers

  /* Which call sets a password. */

  // The user whose reset a call carries out.
  function ResetBy(db: Db, call: Call): Option<UserId>
    requires UniqueHashes(db.resets)
  {
    var id := Confirmed(db, call);
    if id.Some? && id.value in db.resets then Some(db.resets[id.value].userId) else None
  }

  // The password hash a call gives a user, if it gives one.
  function Given(db: Db, call: Call, userId: UserId): Option<string>
    requires UniqueHashes(db.resets)
  {
    if call.request.ChangeUserRequest? && call.request.userId == userId then Some(call.request.user.passwordHash)
    else if call.request.ConfirmRequest? && ResetBy(db, call) == Some(userId) then Some(call.request.newHash)
    else None
  }

  lemma LoginsKeepUsers(db: Db, call: Call, userId: UserId)
    requires UniqueHashes(db.resets) && userId in db.users
    requires !call.request.ConfirmRequest? && !call.request.ChangeUserRequest?
    ensures var after := Perform(db, call).0;
            userId in after.users && after.users[userId].passwordHash == db.users[userId].passwordHash
  {
    hide Without, FirstMatch, IsBackupFormat, IsPlatformBanActive, Trim, RevokedAll, ConsumedAll, Redeems;
  }

  // A reset changes one user, and of that user the password alone.
  lemma ResetChangesOnlyThePassword(db: Db, call: Call)
    requires UniqueHashes(db.resets) && call.request.ConfirmRequest?
    ensures
      var (after, answer) := Perform(db, call);
      match ResetBy(db, call)
      case None => answer == BadRequest && after == db
      case Some(userId) =>
        && answer == Done && userId in db.users && after.users.Keys == db.users.Keys
        && (forall other :: other in db.users && other != userId ==> after.users[other] == db.users[other])
        && after.users[userId] == db.users[userId].(passwordHash := call.request.newHash)
  {
    hide Trim, RevokedAll, ConsumedAll, FindReset;
  }

  lemma StepSetsPassword(db: Db, call: Call, userId: UserId)
    requires UniqueHashes(db.resets) && userId in db.users
    ensures
      var after, given := Perform(db, call).0, Given(db, call, userId);
      && userId in after.users
      && after.users[userId].passwordHash == if given.Some? then given.value else db.users[userId].passwordHash
  {
    hide Login, Login2FA, Refresh, Logout, RequestPasswordReset, ConfirmPasswordReset, RevokedAll, UniqueHashes;
    hide ResetBy;
    if call.request.ConfirmRequest? {
      ResetChangesOnlyThePassword(db, call);
    } else if !call.request.ChangeUserRequest? {
      LoginsKeepUsers(db, call, userId);
    }
  }

  /* Over runs. */

  ghost function LastGiven(h: History, calls: seq<Call>, userId: UserId, hash: string): string
    requires ResetsSound(h)
    decreases |calls|
  {
    if calls == [] then hash
    else
      StepKeepsResetsSound(h, calls[0]);
      var given := Given(h.db, calls[0], userId);
      LastGiven(Step(h, calls[0]), calls[1..], userId, if given.Some? then given.value else hash)
  }

  // In every run a user's password is the one of the last confirmed reset or change of the user.
  lemma {:induction false} PasswordIsTheLastGiven(h: History, calls: seq<Call>, userId: UserId)
    requires ResetsSound(h) && userId in h.db.users
    ensures userId in Run(h, calls).db.users
    ensures Run(h, calls).db.users[userId].passwordHash
         == LastGiven(h, calls, userId, h.db.users[userId].passwordHash)
    decreases |calls|
  {
    hide Perform, Given, Redeemed, Confirmed, ResetsSound;
    if calls != [] {
      StepIsUnique(h);
      StepKeepsResetsSound(h, calls[0]);
      StepSetsPassword(h.db, calls[0], userId);
      PasswordIsTheLastGiven(Step(h, calls[0]), calls[1..], userId);
    }
  }

  ghost predicate NoneGiven(h: History, calls: seq<Call>, userId: UserId)
    requires ResetsSound(h)
    decreases |calls|
  {
    if calls == [] then true
    else
      StepKeepsResetsSound(h, calls[0]);
      Given(h.db, calls[0], userId).None? && NoneGiven(Step(h, calls[0]), calls[1..], userId)
  }

  lemma {:induction false} KeptWhenNoneGiven(h: History, calls: seq<Call>, userId: UserId, hash: string)
    requires ResetsSound(h) && NoneGiven(h, calls, userId)
    ensures LastGiven(h, calls, userId, hash) == hash
    decreases |calls|
  {
    hide Step, Given, ResetsSound;
    if calls != [] {
      StepIsUnique(h);
      StepKeepsResetsSound(h, calls[0]);
      KeptWhenNoneGiven(Step(h, calls[0]), calls[1..], userId, hash);
    }
  }

  lemma WrongPasswordIsUnauthorized(ctx: Context, db: Db, userId: UserId, tried: string, rid: Rid, now: int)
    requires userId in db.users
    ensures Login(ctx, db, Some(userId), tried, rid, now).1 == Unauthorized
        <==> !ctx.compare(tried, db.users[userId].passwordHash)
  {
  }

  // After a confirmed reset, and whatever else happens until the next password is given, a login of that user is
  // refused as unauthorized exactly if the password tried does not match the new hash.
  lemma {:induction false} ResetReplacesThePassword(
      h: History, reset: Call, calls: seq<Call>, userId: UserId, login: Call, tried: string)
    requires ResetsSound(h) && reset.request.ConfirmRequest? && ResetBy(h.db, reset) == Some(userId)
    requires login.request.LoginRequest? && login.request.found == Some(userId) && login.request.password == tried
    ensures ResetsSound(Step(h, reset))
    ensures NoneGiven(Step(h, reset), calls, userId) ==>
      var end := Run(Step(h, reset), calls);
      Perform(end.db, login).1 == Unauthorized <==> !login.ctx.compare(tried, reset.request.newHash)
  {
    StepIsUnique(h);
    StepKeepsResetsSound(h, reset);
    ResetChangesOnlyThePassword(h.db, reset);
    hide ResetsSound, Confirmed, Redeemed, Login, ResetBy, ConfirmPasswordReset;
    var after := Step(h, reset);
    if NoneGiven(after, calls, userId) {
      PasswordIsTheLastGiven(after, calls, userId);
      KeptWhenNoneGiven(after, calls, userId, reset.request.newHash);
      StepIsUnique(Run(after, calls));
      WrongPasswordIsUnauthorized(login.ctx, Run(after, calls).db, userId, tried, login.request.rid, login.now);
    }
  }
}
