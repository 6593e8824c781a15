/** The token, login and password-reset services as objects over their tables. Every request is
  * shown to be one step of AuthModel, so what is proved over runs holds of the services. */
module AuthServices {
  import opened Wrappers
  import opened AuthModel
  import opened TokenFamilies

  /** The refresh_tokens table. A row is found by the raw token in place of its hash. */
  class RefreshTokenRepository {
    var tokens: map<RawToken, Token>
    ghost var issued: seq<Issue>

    constructor ()
      ensures tokens == map[] && issued == []
    {
      tokens := map[];
      issued := [];
    }

    method Create(raw: RawToken, row: Token, ghost previous: Option<RawToken>)
      requires raw !in tokens
      modifies this
      ensures tokens == old(tokens)[raw := row]
      ensures issued == old(issued) + [Issue(raw, row.userId, row.tenantId, row.familyId, previous)]
    {
      tokens := tokens[raw := row];
      issued := issued + [Issue(raw, row.userId, row.tenantId, row.familyId, previous)];
    }

    method FindByTokenHash(raw: RawToken) returns (row: Option<Token>)
      ensures row.Some? <==> raw in tokens
      ensures row.Some? ==> row.value == tokens[raw]
    {
      if raw in tokens {
        return Some(tokens[raw]);
      }
      row := None;
    }

    method RevokeToken(raw: RawToken, reason: Reason)
      modifies `tokens
      ensures tokens == Revoke(old(tokens), raw, reason)
    {
      if raw in tokens {
        tokens := tokens[raw := tokens[raw].(revoked := Some(reason))];
      }
    }

    method RevokeFamily(f: FamilyId, reason: Reason)
      modifies `tokens
      ensures tokens == AuthModel.RevokeFamily(old(tokens), f, reason)
    {
      var hit := map raw | raw in tokens && tokens[raw].familyId == f :: tokens[raw].(revoked := Some(reason));
      tokens := tokens + hit;
    }

    method RevokeAllForUser(u: UserId, reason: Reason)
      modifies `tokens
      ensures tokens == AuthModel.RevokeAllForUser(old(tokens), u, reason)
    {
      var hit := map raw | raw in tokens && tokens[raw].userId == u && tokens[raw].revoked.None? ::
        tokens[raw].(revoked := Some(reason));
      tokens := tokens + hit;
    }

    method RevokeAllForUserInTenant(u: UserId, t: TenantId, reason: Reason)
      modifies `tokens
      ensures tokens == AuthModel.RevokeAllForUserInTenant(old(tokens), u, t, reason)
    {
      var hit := map raw | raw in tokens && tokens[raw].userId == u && tokens[raw].tenantId == t && tokens[raw].revoked.None? ::
        tokens[raw].(revoked := Some(reason));
      tokens := tokens + hit;
    }

    method DeleteExpired(now: int) returns (count: nat)
      modifies `tokens
      ensures tokens == DeleteExpiredTokens(old(tokens), now)
      ensures count == |old(tokens)| - |tokens|
    {
      var gone := set raw | raw in tokens && tokens[raw].expiresAt <= now;
      var kept := tokens - gone;
      assert kept.Keys == tokens.Keys - gone;
      assert |tokens| == |tokens.Keys| && |kept| == |kept.Keys|;
      tokens := kept;
      count := |gone|;
    }
  }

  class UserRepository {
    var users: map<UserId, User>

    constructor ()
      ensures users == map[]
    {
      users := map[];
    }

    method FindById(u: UserId) returns (row: Option<User>)
      ensures row.Some? <==> u in users
      ensures row.Some? ==> row.value == users[u]
    {
      if u in users {
        return Some(users[u]);
      }
      row := None;
    }

    method Create(u: UserId)
      requires u !in users
      modifies this
      ensures users == old(users)[u := User(true, 0, None)]
    {
      users := users[u := User(true, 0, None)];
    }

    method UpdatePassword(u: UserId)
      modifies this
      ensures users == if u in old(users) then old(users)[u := Cleared(old(users)[u])] else old(users)
    {
      if u in users {
        users := users[u := users[u].(failedLoginAttempts := 0, lockedUntil := None)];
      }
    }

    method IncrementFailedAttempts(u: UserId) returns (attempts: nat)
      modifies this
      ensures u !in old(users) ==> attempts == 0 && users == old(users)
      ensures u in old(users) ==> attempts == old(users)[u].failedLoginAttempts + 1
                                  && users == old(users)[u := old(users)[u].(failedLoginAttempts := attempts)]
    {
      if u !in users {
        return 0;
      }
      attempts := users[u].failedLoginAttempts + 1;
      users := users[u := users[u].(failedLoginAttempts := attempts)];
    }

    method LockAccount(u: UserId, lockedUntil: int)
      modifies this
      ensures users == if u in old(users) then old(users)[u := old(users)[u].(lockedUntil := Some(lockedUntil))] else old(users)
    {
      if u in users {
        users := users[u := users[u].(lockedUntil := Some(lockedUntil))];
      }
    }

    method ResetFailedAttempts(u: UserId)
      modifies this
      ensures users == if u in old(users) then old(users)[u := Cleared(old(users)[u])] else old(users)
    {
      if u in users {
        users := users[u := users[u].(failedLoginAttempts := 0, lockedUntil := None)];
      }
    }
  }

  /** The password_reset_tokens table. */
  class Database {
    var passwordResetTokens: map<RawToken, ResetToken>

    constructor ()
      ensures passwordResetTokens == map[]
    {
      passwordResetTokens := map[];
    }
  }

  datatype Rotation = Rotation(userId: UserId, tenantId: TenantId, familyId: FamilyId)

  class TokenService {
    const refreshTokenRepo: RefreshTokenRepository

    constructor (refreshTokenRepo: RefreshTokenRepository)
      ensures this.refreshTokenRepo == refreshTokenRepo
    {
      this.refreshTokenRepo := refreshTokenRepo;
    }

    /** `raw` and `freshFamily` are the random values drawn here. */
    method GenerateTokenPair(u: UserId, t: TenantId, familyId: Option<FamilyId>, raw: RawToken, freshFamily: FamilyId,
                             expiresAt: int, ghost previous: Option<RawToken>)
      returns (refreshToken: RawToken)
      requires raw !in refreshTokenRepo.tokens
      modifies refreshTokenRepo
      ensures refreshToken == raw
      ensures var f := if familyId.Some? then familyId.value else freshFamily;
        refreshTokenRepo.tokens == old(refreshTokenRepo.tokens)[raw := Token(u, t, f, expiresAt, None)]
        && refreshTokenRepo.issued == old(refreshTokenRepo.issued) + [Issue(raw, u, t, f, previous)]
    {
      var newFamilyId := if familyId.Some? then familyId.value else freshFamily;
      refreshTokenRepo.Create(raw, Token(u, t, newFamilyId, expiresAt, None), previous);
      refreshToken := raw;
    }

    /** Answers with the owner of the token exactly if the token is stored, live and not expired. */
    method RotateRefreshToken(raw: RawToken, now: int) returns (rotated: Option<Rotation>)
      modifies refreshTokenRepo`tokens
      ensures var tokens := old(refreshTokenRepo.tokens);
        && (rotated.Some? <==> raw in tokens && tokens[raw].revoked.None? && tokens[raw].expiresAt >= now)
        && (rotated.Some? ==>
              && rotated.value == Rotation(tokens[raw].userId, tokens[raw].tenantId, tokens[raw].familyId)
              && refreshTokenRepo.tokens == Revoke(tokens, raw, Rotated))
        && (rotated.None? ==>
              refreshTokenRepo.tokens ==
              if raw !in tokens then tokens
              else if tokens[raw].revoked.Some? then AuthModel.RevokeFamily(tokens, tokens[raw].familyId, TokenReuse)
              else Revoke(tokens, raw, Expired))
    {
      var storedToken := refreshTokenRepo.FindByTokenHash(raw);
      if storedToken.None? {
        return None;
      }
      var token := storedToken.value;
      if token.revoked.Some? {
        refreshTokenRepo.RevokeFamily(token.familyId, TokenReuse);
        return None;
      }
      if token.expiresAt < now {
        refreshTokenRepo.RevokeToken(raw, Expired);
        return None;
      }
      refreshTokenRepo.RevokeToken(raw, Rotated);
      rotated := Some(Rotation(token.userId, token.tenantId, token.familyId));
    }

    method RevokeAllTokens(u: UserId, t: TenantId)
      modifies refreshTokenRepo`tokens
      ensures refreshTokenRepo.tokens == AuthModel.RevokeAllForUserInTenant(old(refreshTokenRepo.tokens), u, t, LoggedOut)
    {
      refreshTokenRepo.RevokeAllForUserInTenant(u, t, LoggedOut);
    }

    method RevokeAllUserTokens(u: UserId)
      modifies refreshTokenRepo`tokens
      ensures refreshTokenRepo.tokens == AuthModel.RevokeAllForUser(old(refreshTokenRepo.tokens), u, AccountAction)
    {
      refreshTokenRepo.RevokeAllForUser(u, AccountAction);
    }

    method CleanupExpiredTokens(now: int) returns (count: nat)
      modifies refreshTokenRepo`tokens
      ensures refreshTokenRepo.tokens == DeleteExpiredTokens(old(refreshTokenRepo.tokens), now)
      ensures count == |old(refreshTokenRepo.tokens)| - |refreshTokenRepo.tokens|
    {
      count := refreshTokenRepo.DeleteExpired(now);
    }
  }

  ghost function StateOf(now: int, userRepo: UserRepository, refreshTokenRepo: RefreshTokenRepository, db: Database): State
    reads userRepo, refreshTokenRepo, db
  {
    State(now, userRepo.users, refreshTokenRepo.tokens, db.passwordResetTokens, refreshTokenRepo.issued)
  }

  datatype Reply =
    | Tokens(refreshToken: RawToken)
    | InvalidCredentials
    | AccountDeactivated
    | AccountLocked(until: int)
    | InvalidToken
    | NotAllowed

  class AuthService {
    const userRepo: UserRepository
    const tokenService: TokenService
    const db: Database

    constructor (userRepo: UserRepository, tokenService: TokenService, db: Database)
      ensures this.userRepo == userRepo && this.tokenService == tokenService && this.db == db
    {
      this.userRepo := userRepo;
      this.tokenService := tokenService;
      this.db := db;
    }

    ghost function StateAt(now: int): State
      reads userRepo, tokenService.refreshTokenRepo, db
    {
      StateOf(now, userRepo, tokenService.refreshTokenRepo, db)
    }

    method HandleFailedLogin(u: UserId, now: int)
      requires u in userRepo.users
      modifies userRepo
      ensures userRepo.users == old(userRepo.users)[u := AfterFailedCheck(old(userRepo.users)[u], now)]
    {
      var attempts := userRepo.IncrementFailedAttempts(u);
      if attempts >= MAX_FAILED_LOGIN_ATTEMPTS {
        userRepo.LockAccount(u, now + LOCKOUT_MS);
      }
    }

    /** `u` is the id behind the e-mail address given, known or not. */
    method Login(u: UserId, passwordOk: bool, tenant: TenantId, tenantOk: bool, employeeOk: bool,
                 now: int, raw: RawToken, family: FamilyId, expiresAt: int)
      returns (reply: Reply)
      requires var l := Label.Login(u, passwordOk, tenant, tenantOk, employeeOk, raw, family, expiresAt);
        Inv(StateAt(now)) && Enabled(StateAt(now), l)
      modifies userRepo, tokenService.refreshTokenRepo
      ensures var l := Label.Login(u, passwordOk, tenant, tenantOk, employeeOk, raw, family, expiresAt);
        && StateAt(now) == Apply(old(StateAt(now)), l) && Inv(StateAt(now))
        && (reply.Tokens? <==> LogsIn(old(StateAt(now)), l))
        && (reply.Tokens? ==> reply.refreshToken == raw)
      ensures var users := old(userRepo.users);
        var active := u in users && users[u].isActive;
        var locked := u in users && users[u].lockedUntil.Some? && now < users[u].lockedUntil.value;
        && (reply.AccountDeactivated? <==> u in users && !active)
        && (reply.AccountLocked? <==> active && locked)
        && (reply.AccountLocked? ==> users[u].lockedUntil == Some(reply.until))
        && (reply.InvalidCredentials? <==> u !in users || (active && !locked && !passwordOk))
        && (reply.NotAllowed? <==> active && !locked && passwordOk && !(tenantOk && employeeOk))
        && (reply.Tokens? <==> active && !locked && passwordOk && tenantOk && employeeOk)
      ensures reply.Tokens? ==>
        && userRepo.users[u] == User(true, 0, None)
        && tokenService.refreshTokenRepo.tokens == old(tokenService.refreshTokenRepo.tokens)[raw := Token(u, tenant, family, expiresAt, None)]
    {
      StepKeepsInv(StateAt(now), Label.Login(u, passwordOk, tenant, tenantOk, employeeOk, raw, family, expiresAt));
      StoredTokensAreIssued(StateAt(now));
      var user := userRepo.FindById(u);
      if user.None? {
        return InvalidCredentials;
      }
      if !user.value.isActive {
        return AccountDeactivated;
      }
      if user.value.lockedUntil.Some? && user.value.lockedUntil.value > now {
        return AccountLocked(user.value.lockedUntil.value);
      }
      if !passwordOk {
        HandleFailedLogin(u, now);
        return InvalidCredentials;
      }
      if !tenantOk || !employeeOk {
        return NotAllowed;
      }
      var token := tokenService.GenerateTokenPair(u, tenant, None, raw, family, expiresAt, None);
      userRepo.ResetFailedAttempts(u);
      reply := Tokens(token);
    }

    method RefreshTokens(presented: RawToken, tenantOk: bool, employeeOk: bool, now: int, raw: RawToken, expiresAt: int)
      returns (reply: Reply)
      requires var l := Label.Refresh(presented, tenantOk, employeeOk, raw, expiresAt);
        Inv(StateAt(now)) && Enabled(StateAt(now), l)
      modifies tokenService.refreshTokenRepo
      ensures var l := Label.Refresh(presented, tenantOk, employeeOk, raw, expiresAt);
        && StateAt(now) == Apply(old(StateAt(now)), l) && Inv(StateAt(now))
        && (reply.Tokens? <==> Refreshes(old(StateAt(now)), l))
        && (reply.Tokens? ==> reply.refreshToken == raw)
      ensures var tokens, users := old(tokenService.refreshTokenRepo.tokens), userRepo.users;
        var usable := presented in tokens && tokens[presented].revoked.None? && now <= tokens[presented].expiresAt;
        var active := usable && tokens[presented].userId in users && users[tokens[presented].userId].isActive;
        && (reply.InvalidToken? <==> !usable)
        && (reply.AccountDeactivated? <==> usable && !active)
        && (reply.NotAllowed? <==> active && !(tenantOk && employeeOk))
        && (reply.Tokens? <==> active && tenantOk && employeeOk)
        && (reply.Tokens? ==>
              tokenService.refreshTokenRepo.tokens
              == tokens[presented := tokens[presented].(revoked := Some(Rotated))][raw := tokens[presented].(expiresAt := expiresAt)])
    {
      StepKeepsInv(StateAt(now), Label.Refresh(presented, tenantOk, employeeOk, raw, expiresAt));
      StoredTokensAreIssued(StateAt(now));
      var rotated := tokenService.RotateRefreshToken(presented, now);
      if rotated.None? {
        return InvalidToken;
      }
      var owner := rotated.value;
      var user := userRepo.FindById(owner.userId);
      if user.None? || !user.value.isActive {
        tokenService.RevokeAllUserTokens(owner.userId);
        return AccountDeactivated;
      }
      if !tenantOk || !employeeOk {
        return NotAllowed;
      }
      var token := tokenService.GenerateTokenPair(
        owner.userId, owner.tenantId, Some(owner.familyId), raw, 0, expiresAt, Some(presented));
      reply := Tokens(token);
    }

    method Logout(u: UserId, t: TenantId, now: int)
      modifies tokenService.refreshTokenRepo
      ensures StateAt(now) == Apply(old(StateAt(now)), Label.Logout(u, t))
    {
      tokenService.RevokeAllTokens(u, t);
    }

    method ChangePassword(u: UserId, currentOk: bool, differs: bool, now: int) returns (accepted: bool)
      modifies userRepo, tokenService.refreshTokenRepo
      ensures StateAt(now) == Apply(old(StateAt(now)), Label.ChangePassword(u, currentOk, differs))
      ensures accepted <==> ChangesPassword(old(StateAt(now)), Label.ChangePassword(u, currentOk, differs), u)
    {
      var user := userRepo.FindById(u);
      if user.None? || !currentOk || !differs {
        return false;
      }
      userRepo.UpdatePassword(u);
      tokenService.RevokeAllUserTokens(u);
      accepted := true;
    }
  }

  class PasswordResetService {
    const db: Database
    const userRepo: UserRepository
    const tokenService: TokenService

    constructor (db: Database, userRepo: UserRepository, tokenService: TokenService)
      ensures this.db == db && this.userRepo == userRepo && this.tokenService == tokenService
    {
      this.db := db;
      this.userRepo := userRepo;
      this.tokenService := tokenService;
    }

    ghost function StateAt(now: int): State
      reads userRepo, tokenService.refreshTokenRepo, db
    {
      StateOf(now, userRepo, tokenService.refreshTokenRepo, db)
    }

    /** The answer is the same whether or not the account exists, so there is none. */
    method ForgotPassword(u: UserId, now: int, reset: RawToken)
      modifies db
      ensures StateAt(now) == Apply(old(StateAt(now)), Label.ForgotPassword(u, reset))
    {
      var user := userRepo.FindById(u);
      if user.None? {
        return;
      }
      if !user.value.isActive {
        return;
      }
      db.passwordResetTokens := db.passwordResetTokens[reset := ResetToken(u, now + RESET_EXPIRY_MS, false)];
    }

    method ResetPassword(reset: RawToken, now: int) returns (accepted: bool)
      modifies db, userRepo, tokenService.refreshTokenRepo
      ensures StateAt(now) == Apply(old(StateAt(now)), Label.ResetPassword(reset))
      ensures accepted <==> ResetValid(old(StateAt(now)), reset)
    {
      if reset !in db.passwordResetTokens {
        return false;
      }
      var resetToken := db.passwordResetTokens[reset];
      if resetToken.isUsed || resetToken.expiresAt <= now {
        return false;
      }
      userRepo.UpdatePassword(resetToken.userId);
      db.passwordResetTokens := db.passwordResetTokens[reset := resetToken.(isUsed := true)];
      tokenService.RevokeAllUserTokens(resetToken.userId);
      accepted := true;
    }
  }
}
