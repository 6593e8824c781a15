/** Users, refresh tokens and password-reset tokens, and the requests that change them. A request
  * is one step. Raw tokens, family ids and reset tokens are fresh random values and hashing is
  * injective, so a stored token is found by its raw value. Password checks, the tenant check and
  * the employee check come in as their answers.
  *
  * `issued` is history that no code reads.
  */
module AuthModel {
  import opened Wrappers

  type UserId = nat
  type TenantId = nat
  type FamilyId = nat
  type RawToken = nat

  const MAX_FAILED_LOGIN_ATTEMPTS := 5
  const LOCKOUT_MS := 30 * 60 * 1_000
  const RESET_EXPIRY_MS := 60 * 60 * 1_000

  datatype User = User(isActive: bool, failedLoginAttempts: nat, lockedUntil: Option<int>)

  datatype Reason = TokenReuse | Expired | Rotated | LoggedOut | AccountAction

  datatype Token = Token(
    userId: UserId,
    tenantId: TenantId,
    familyId: FamilyId,
    expiresAt: int,
    revoked: Option<Reason>)

  datatype ResetToken = ResetToken(userId: UserId, expiresAt: int, isUsed: bool)

  /** A token handed out, and the token it was exchanged for. */
  datatype Issue = Issue(raw: RawToken, userId: UserId, tenantId: TenantId, familyId: FamilyId, previous: Option<RawToken>)

  datatype State = State(
    now: int,
    users: map<UserId, User>,
    tokens: map<RawToken, Token>,
    resets: map<RawToken, ResetToken>,
    issued: seq<Issue>)

  datatype Label =
    | Tick(delta: nat)
    | Register(user: UserId)
    | SetActive(user: UserId, active: bool)
    | Login(user: UserId, passwordOk: bool, tenant: TenantId, tenantOk: bool, employeeOk: bool,
            raw: RawToken, family: FamilyId, expiresAt: int)
    | Refresh(presented: RawToken, tenantOk: bool, employeeOk: bool, raw: RawToken, expiresAt: int)
    | Logout(user: UserId, tenant: TenantId)
    | ChangePassword(user: UserId, currentOk: bool, differs: bool)
    | ForgotPassword(user: UserId, reset: RawToken)
    | ResetPassword(reset: RawToken)
    | DeleteExpired

  function Init(now: int): State {
    State(now, map[], map[], map[], [])
  }

  // ----- the statements on the token table -----------------------------------------

  function Revoke(tokens: map<RawToken, Token>, raw: RawToken, reason: Reason): map<RawToken, Token> {
    if raw in tokens then tokens[raw := tokens[raw].(revoked := Some(reason))] else tokens
  }

  /** Also overwrites the reason of tokens revoked before. */
  function RevokeFamily(tokens: map<RawToken, Token>, f: FamilyId, reason: Reason): map<RawToken, Token> {
    map raw | raw in tokens :: if tokens[raw].familyId == f then tokens[raw].(revoked := Some(reason)) else tokens[raw]
  }

  function RevokeAllForUser(tokens: map<RawToken, Token>, u: UserId, reason: Reason): map<RawToken, Token> {
    map raw | raw in tokens ::
      if tokens[raw].userId == u && tokens[raw].revoked.None? then tokens[raw].(revoked := Some(reason)) else tokens[raw]
  }

  function RevokeAllForUserInTenant(tokens: map<RawToken, Token>, u: UserId, t: TenantId, reason: Reason): map<RawToken, Token> {
    map raw | raw in tokens ::
      if tokens[raw].userId == u && tokens[raw].tenantId == t && tokens[raw].revoked.None?
      then tokens[raw].(revoked := Some(reason)) else tokens[raw]
  }

  function DeleteExpiredTokens(tokens: map<RawToken, Token>, now: int): map<RawToken, Token> {
    map raw | raw in tokens && tokens[raw].expiresAt > now :: tokens[raw]
  }

  // ----- what a login, a refresh and a password request come to ---------------------

  predicate Locked(u: User, now: int) {
    u.lockedUntil.Some? && u.lockedUntil.value > now
  }

  /** The login gets as far as verifying the password. */
  predicate ChecksPassword(s: State, l: Label) {
    l.Login? && l.user in s.users && s.users[l.user].isActive && !Locked(s.users[l.user], s.now)
  }

  predicate LogsIn(s: State, l: Label) {
    ChecksPassword(s, l) && l.passwordOk && l.tenantOk && l.employeeOk
  }

  predicate FailsCheck(s: State, l: Label, u: UserId) {
    ChecksPassword(s, l) && l.user == u && !l.passwordOk
  }

  /** rotateRefreshToken succeeds: the old token is revoked as rotated. */
  predicate Rotates(s: State, l: Label) {
    l.Refresh? && l.presented in s.tokens && s.tokens[l.presented].revoked.None? && s.tokens[l.presented].expiresAt >= s.now
  }

  predicate OwnerActive(s: State, l: Label)
    requires Rotates(s, l)
  {
    s.tokens[l.presented].userId in s.users && s.users[s.tokens[l.presented].userId].isActive
  }

  /** The whole refresh succeeds and hands out the next token of the family. */
  predicate Refreshes(s: State, l: Label) {
    Rotates(s, l) && OwnerActive(s, l) && l.tenantOk && l.employeeOk
  }

  predicate Reuses(s: State, l: Label) {
    l.Refresh? && l.presented in s.tokens && s.tokens[l.presented].revoked.Some?
  }

  predicate ChangesPassword(s: State, l: Label, u: UserId) {
    || (l.ChangePassword? && l.user == u && u in s.users && l.currentOk && l.differs)
    || (l.ResetPassword? && ResetValid(s, l.reset) && s.resets[l.reset].userId == u)
  }

  predicate ResetValid(s: State, reset: RawToken) {
    reset in s.resets && !s.resets[reset].isUsed && s.resets[reset].expiresAt > s.now
  }

  predicate IsIssued(s: State, raw: RawToken) {
    exists k :: 0 <= k < |s.issued| && s.issued[k].raw == raw
  }

  predicate FamilyKnown(s: State, f: FamilyId) {
    exists k :: 0 <= k < |s.issued| && s.issued[k].familyId == f
  }

  // ----- steps --------------------------------------------------------------------

  predicate Enabled(s: State, l: Label) {
    match l
    case Register(u) => u !in s.users
    case SetActive(u, _) => u in s.users
    case Login(_, _, _, _, _, raw, family, _) => !IsIssued(s, raw) && !FamilyKnown(s, family)
    case Refresh(_, _, _, raw, _) => !IsIssued(s, raw)
    case ForgotPassword(_, reset) => reset !in s.resets
    case _ => true
  }

  function AfterFailedCheck(u: User, now: int): User {
    var attempts := u.failedLoginAttempts + 1;
    User(u.isActive, attempts, if attempts >= MAX_FAILED_LOGIN_ATTEMPTS then Some(now + LOCKOUT_MS) else u.lockedUntil)
  }

  function Cleared(u: User): User {
    u.(failedLoginAttempts := 0, lockedUntil := None)
  }

  function NextUsers(s: State, l: Label): map<UserId, User> {
    match l
    case Register(u) => s.users[u := User(true, 0, None)]
    case SetActive(u, active) => if u in s.users then s.users[u := s.users[u].(isActive := active)] else s.users
    case Login(u, ok, _, _, _, _, _, _) =>
      if LogsIn(s, l) then s.users[u := Cleared(s.users[u])]
      else if ChecksPassword(s, l) && !ok then s.users[u := AfterFailedCheck(s.users[u], s.now)]
      else s.users
    case ChangePassword(u, _, _) =>
      if ChangesPassword(s, l, u) then s.users[u := Cleared(s.users[u])] else s.users
    case ResetPassword(reset) =>
      if ResetValid(s, reset) && s.resets[reset].userId in s.users
      then s.users[s.resets[reset].userId := Cleared(s.users[s.resets[reset].userId])] else s.users
    case _ => s.users
  }

  function NextTokens(s: State, l: Label): map<RawToken, Token> {
    match l
    case Login(u, _, t, _, _, raw, family, expiresAt) =>
      if LogsIn(s, l) then s.tokens[raw := Token(u, t, family, expiresAt, None)] else s.tokens
    case Refresh(presented, _, _, raw, expiresAt) =>
      if presented !in s.tokens then s.tokens
      else
        var token := s.tokens[presented];
        if token.revoked.Some? then RevokeFamily(s.tokens, token.familyId, TokenReuse)
        else if token.expiresAt < s.now then Revoke(s.tokens, presented, Expired)
        else
          var rotated := Revoke(s.tokens, presented, Rotated);
          if !OwnerActive(s, l) then RevokeAllForUser(rotated, token.userId, AccountAction)
          else if Refreshes(s, l) then rotated[raw := Token(token.userId, token.tenantId, token.familyId, expiresAt, None)]
          else rotated
    case Logout(u, t) => RevokeAllForUserInTenant(s.tokens, u, t, LoggedOut)
    case ChangePassword(u, _, _) =>
      if ChangesPassword(s, l, u) then RevokeAllForUser(s.tokens, u, AccountAction) else s.tokens
    case ResetPassword(reset) =>
      if ResetValid(s, reset) then RevokeAllForUser(s.tokens, s.resets[reset].userId, AccountAction) else s.tokens
    case DeleteExpired => DeleteExpiredTokens(s.tokens, s.now)
    case _ => s.tokens
  }

  function NextResets(s: State, l: Label): map<RawToken, ResetToken> {
    match l
    case ForgotPassword(u, reset) =>
      if u in s.users && s.users[u].isActive
      then s.resets[reset := ResetToken(u, s.now + RESET_EXPIRY_MS, false)] else s.resets
    case ResetPassword(reset) =>
      if ResetValid(s, reset) then s.resets[reset := s.resets[reset].(isUsed := true)] else s.resets
    case _ => s.resets
  }

  function NextIssued(s: State, l: Label): seq<Issue> {
    if LogsIn(s, l) then s.issued + [Issue(l.raw, l.user, l.tenant, l.family, None)]
    else if Refreshes(s, l) then
      var token := s.tokens[l.presented];
      s.issued + [Issue(l.raw, token.userId, token.tenantId, token.familyId, Some(l.presented))]
    else s.issued
  }

  function Apply(s: State, l: Label): State {
    State(if l.Tick? then s.now + l.delta else s.now,
          NextUsers(s, l), NextTokens(s, l), NextResets(s, l), NextIssued(s, l))
  }

  // ----- runs ---------------------------------------------------------------------

  ghost predicate Legal(s: State, run: seq<Label>)
    decreases |run|
  {
    run == [] || (Legal(s, run[..|run| - 1]) && Enabled(After(s, run[..|run| - 1]), run[|run| - 1]))
  }

  function After(s: State, run: seq<Label>): State
    decreases |run|
  {
    if run == [] then s else Apply(After(s, run[..|run| - 1]), run[|run| - 1])
  }
}
