/** How long a token that was handed out works, for whom, and what ends it: refresh tokens and the
  * tokens of password resets. */
module TokenLifetimes {
  import opened Wrappers
  import opened AuthModel
  import opened TokenFamilies
  import opened SessionRevocation

  // ----- a stored token never changes but for being revoked ------------------------------

  predicate SameButRevoked(a: Token, b: Token) {
    a.userId == b.userId && a.tenantId == b.tenantId && a.familyId == b.familyId && a.expiresAt == b.expiresAt
  }

  lemma RefreshKeepsToken(s: State, l: Label, raw: RawToken)
    requires Inv(s) && Enabled(s, l) && l.Refresh? && raw in s.tokens
    ensures raw in NextTokens(s, l) && SameButRevoked(NextTokens(s, l)[raw], s.tokens[raw])
  {
    StoredTokensAreIssued(s);
  }

  lemma StepKeepsToken(s: State, l: Label, raw: RawToken)
    requires Inv(s) && Enabled(s, l) && raw in s.tokens
    ensures raw in NextTokens(s, l) <==> !(l.DeleteExpired? && s.tokens[raw].expiresAt <= s.now)
    ensures raw in NextTokens(s, l) ==> SameButRevoked(NextTokens(s, l)[raw], s.tokens[raw])
  {
    if l.Refresh? {
      RefreshKeepsToken(s, l, raw);
    } else if l.Login? {
      StoredTokensAreIssued(s);
    }
  }

  lemma StepBringsNoneBack(s: State, l: Label, raw: RawToken)
    requires Enabled(s, l) && IsIssued(s, raw) && raw !in s.tokens
    ensures raw !in NextTokens(s, l)
  {
  }

  lemma {:induction false} TokenStaysTheSame(s: State, run: seq<Label>, raw: RawToken)
    requires Inv(s) && Legal(s, run) && raw in s.tokens
    ensures raw in After(s, run).tokens ==> SameButRevoked(After(s, run).tokens[raw], s.tokens[raw])
    decreases |run|
  {
    if run != [] {
      var shorter, l := run[..|run| - 1], run[|run| - 1];
      TokenStaysTheSame(s, shorter, raw);
      RunKeepsInv(s, shorter);
      StoredTokensAreIssued(s);
      IssuedStays(s, shorter, raw);
      if raw in After(s, shorter).tokens {
        StepKeepsToken(After(s, shorter), l, raw);
      } else {
        StepBringsNoneBack(After(s, shorter), l, raw);
      }
    }
  }

  // ----- the token that a login or a refresh hands out -------------------------------------

  /** Whose session it is: that of the login, or of the token exchanged. */
  function OwnerOf(s: State, l: Label): (UserId, TenantId, FamilyId)
    requires LogsIn(s, l) || Refreshes(s, l)
  {
    if l.Login? then (l.user, l.tenant, l.family)
    else (s.tokens[l.presented].userId, s.tokens[l.presented].tenantId, s.tokens[l.presented].familyId)
  }

  /** The request passes every check of a login or of a refresh. */
  predicate PassesAll(s: State, l: Label) {
    || (l.Login? && l.user in s.users && s.users[l.user].isActive
        && (s.users[l.user].lockedUntil.Some? ==> s.users[l.user].lockedUntil.value <= s.now)
        && l.passwordOk && l.tenantOk && l.employeeOk)
    || (l.Refresh? && l.presented in s.tokens && s.tokens[l.presented].revoked.None? && s.now <= s.tokens[l.presented].expiresAt
        && s.tokens[l.presented].userId in s.users && s.users[s.tokens[l.presented].userId].isActive
        && l.tenantOk && l.employeeOk)
  }

  /** A request puts a token into the table if and only if it passes every check, and then just its own. */
  lemma TokenEntersIff(s: State, l: Label, raw: RawToken)
    requires Inv(s) && Enabled(s, l) && raw !in s.tokens
    ensures raw in NextTokens(s, l) <==> PassesAll(s, l) && raw == l.raw
  {
  }

  lemma HandsOut(s: State, l: Label)
    requires Inv(s) && Enabled(s, l) && (LogsIn(s, l) || Refreshes(s, l))
    ensures var (u, t, f) := OwnerOf(s, l);
      Alive(Apply(s, l), l.raw) && Apply(s, l).tokens[l.raw] == Token(u, t, f, l.expiresAt, None)
  {
  }

  /** A token that was handed out can be exchanged, after any further run, exactly until it expires and
    * unless a request of the run hit it. */
  lemma TokenWorksIff(s: State, l: Label, run: seq<Label>, l': Label)
    requires Inv(s) && Enabled(s, l) && (LogsIn(s, l) || Refreshes(s, l))
    requires Legal(Apply(s, l), run) && l'.Refresh? && l'.presented == l.raw
    ensures Rotates(After(Apply(s, l), run), l')
       <==> Spared(Apply(s, l), run, l.raw) && After(Apply(s, l), run).now <= l.expiresAt
  {
    var next := Apply(s, l);
    HandsOut(s, l);
    StepKeepsInv(s, l);
    TokenLivesIff(next, run, l.raw);
    TokenStaysTheSame(next, run, l.raw);
  }

  /** And for as long as it is stored it is a session of that user, tenant and family. */
  lemma TokenBelongsToItsOwner(s: State, l: Label, run: seq<Label>)
    requires Inv(s) && Enabled(s, l) && (LogsIn(s, l) || Refreshes(s, l))
    requires Legal(Apply(s, l), run) && l.raw in After(Apply(s, l), run).tokens
    ensures var token := After(Apply(s, l), run).tokens[l.raw];
      (token.userId, token.tenantId, token.familyId) == OwnerOf(s, l)
  {
    HandsOut(s, l);
    StepKeepsInv(s, l);
    TokenStaysTheSame(Apply(s, l), run, l.raw);
  }

  /** The reason stored with a token is what ended it: its own exchange or expiry, the replay of another
    * token of its family, a logout, or an action on the account. */
  lemma RevokedForTheReason(s: State, l: Label, raw: RawToken)
    requires Inv(s) && Enabled(s, l) && Alive(s, raw) && raw in NextTokens(s, l) && NextTokens(s, l)[raw].revoked.Some?
    ensures var reason := NextTokens(s, l)[raw].revoked.value;
      && (reason == Rotated <==> l.Refresh? && l.presented == raw && s.now <= s.tokens[raw].expiresAt)
      && (reason == Expired <==> l.Refresh? && l.presented == raw && s.now > s.tokens[raw].expiresAt)
      && (reason == TokenReuse <==> l.Refresh? && Reuses(s, l))
      && (reason == LoggedOut <==> l.Logout?)
  {
    StoredTokensAreIssued(s);
  }

  /** A token that was revoked before stays as it is, except that a replay in its family overwrites the
    * reason. */
  lemma RevokedStaysUnlessReplayed(s: State, l: Label, raw: RawToken)
    requires Inv(s) && Enabled(s, l) && raw in s.tokens && s.tokens[raw].revoked.Some? && raw in NextTokens(s, l)
    ensures NextTokens(s, l)[raw]
         == if l.Refresh? && Reuses(s, l) && s.tokens[l.presented].familyId == s.tokens[raw].familyId
            then s.tokens[raw].(revoked := Some(TokenReuse)) else s.tokens[raw]
  {
    StoredTokensAreIssued(s);
  }

  // ----- password resets --------------------------------------------------------------------

  lemma StepKeepsReset(s: State, l: Label, reset: RawToken)
    requires Enabled(s, l) && reset in s.resets
    ensures reset in NextResets(s, l)
    ensures NextResets(s, l)[reset]
         == if l == ResetPassword(reset) && ResetValid(s, reset) then s.resets[reset].(isUsed := true) else s.resets[reset]
  {
  }

  /** A reset token handed out to `u` at time `start`, used or not. */
  predicate HandedTo(s: State, reset: RawToken, u: UserId, start: int) {
    reset in s.resets && s.resets[reset].userId == u && s.resets[reset].expiresAt == start + 60 * 60 * 1_000
  }

  lemma {:induction false} ResetStays(s: State, run: seq<Label>, reset: RawToken, u: UserId, start: int)
    requires Legal(s, run) && HandedTo(s, reset, u, start) && !s.resets[reset].isUsed
    ensures HandedTo(After(s, run), reset, u, start)
    ensures After(s, run).now < start + 60 * 60 * 1_000 ==> (After(s, run).resets[reset].isUsed <==> ResetPassword(reset) in run)
    decreases |run|
  {
    if run != [] {
      var shorter, l := run[..|run| - 1], run[|run| - 1];
      ResetStays(s, shorter, reset, u, start);
      StepKeepsReset(After(s, shorter), l, reset);
      assert After(s, shorter).now <= After(s, run).now;
      assert ResetPassword(reset) in run <==> ResetPassword(reset) in shorter || l == ResetPassword(reset);
    }
  }

  /** The token of a password reset that an active user asked for works for one hour and once, and for
    * nobody else's password. */
  lemma ResetWorksIff(s: State, u: UserId, reset: RawToken, run: seq<Label>, v: UserId)
    requires Enabled(s, ForgotPassword(u, reset)) && u in s.users && s.users[u].isActive
    requires Legal(Apply(s, ForgotPassword(u, reset)), run)
    ensures ChangesPassword(After(Apply(s, ForgotPassword(u, reset)), run), ResetPassword(reset), v)
       <==> v == u && After(Apply(s, ForgotPassword(u, reset)), run).now < s.now + 60 * 60 * 1_000 && ResetPassword(reset) !in run
  {
    ResetStays(Apply(s, ForgotPassword(u, reset)), run, reset, u, s.now);
  }

  /** Nobody else gets one. */
  lemma NoResetForOthers(s: State, u: UserId, reset: RawToken)
    requires Enabled(s, ForgotPassword(u, reset)) && !(u in s.users && s.users[u].isActive)
    ensures Apply(s, ForgotPassword(u, reset)) == s
  {
  }
}
