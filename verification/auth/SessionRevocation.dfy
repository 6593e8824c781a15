/** What rotation, reuse detection, logout and password changes mean for the rest of a run: which
  * tokens never rotate again, and that no other token is touched. */
module SessionRevocation {
  import opened AuthModel
  import opened TokenFamilies

  // ----- a token that is gone stays gone --------------------------------------------

  ghost predicate Dead(s: State, raw: RawToken) {
    IsIssued(s, raw) && (raw in s.tokens ==> s.tokens[raw].revoked.Some?)
  }

  lemma StepKeepsIssued(s: State, l: Label, raw: RawToken)
    requires IsIssued(s, raw)
    ensures IsIssued(Apply(s, l), raw)
  {
    var k :| 0 <= k < |s.issued| && s.issued[k].raw == raw;
    assert Apply(s, l).issued[k] == s.issued[k];
  }

  lemma StepKeepsDead(s: State, l: Label, raw: RawToken)
    requires Enabled(s, l) && Dead(s, raw)
    ensures Dead(Apply(s, l), raw)
  {
    StepKeepsIssued(s, l, raw);
  }

  lemma {:induction false} DeadStays(s: State, run: seq<Label>, raw: RawToken)
    requires Legal(s, run) && Dead(s, raw)
    ensures Dead(After(s, run), raw)
    decreases |run|
  {
    if run != [] {
      DeadStays(s, run[..|run| - 1], raw);
      StepKeepsDead(After(s, run[..|run| - 1]), run[|run| - 1], raw);
    }
  }

  lemma RotatedIsDead(s: State, l: Label)
    requires Inv(s) && Enabled(s, l) && Rotates(s, l)
    ensures Dead(Apply(s, l), l.presented)
  {
    StoredTokensAreIssued(s);
    StepKeepsIssued(s, l, l.presented);
    assert l.presented != l.raw;
  }

  /** No token rotates twice: once `l` has rotated a token, no request after any further run
    * rotates it again. */
  lemma EachTokenRotatesOnce(s: State, l: Label, run: seq<Label>, l': Label)
    requires Inv(s) && Enabled(s, l) && Rotates(s, l)
    requires Legal(Apply(s, l), run) && Rotates(After(Apply(s, l), run), l')
    ensures l'.presented != l.presented
  {
    RotatedIsDead(s, l);
    DeadStays(Apply(s, l), run, l.presented);
  }

  // ----- a family that is gone stays gone -------------------------------------------

  ghost predicate FamilyDead(s: State, f: FamilyId) {
    FamilyKnown(s, f) && forall raw :: raw in s.tokens && s.tokens[raw].familyId == f ==> s.tokens[raw].revoked.Some?
  }

  lemma StepKeepsKnown(s: State, l: Label, f: FamilyId)
    requires FamilyKnown(s, f)
    ensures FamilyKnown(Apply(s, l), f)
  {
    var k :| 0 <= k < |s.issued| && s.issued[k].familyId == f;
    assert Apply(s, l).issued[k] == s.issued[k];
  }

  lemma StepKeepsFamilyDead(s: State, l: Label, f: FamilyId)
    requires Enabled(s, l) && FamilyDead(s, f)
    ensures FamilyDead(Apply(s, l), f)
  {
    StepKeepsKnown(s, l, f);
    if !LogsIn(s, l) && !Refreshes(s, l) {
      StepOnlyRevokes(s, l);
    }
  }

  lemma {:induction false} FamilyDeadStays(s: State, run: seq<Label>, f: FamilyId)
    requires Legal(s, run) && FamilyDead(s, f)
    ensures FamilyDead(After(s, run), f)
    decreases |run|
  {
    if run != [] {
      FamilyDeadStays(s, run[..|run| - 1], f);
      StepKeepsFamilyDead(After(s, run[..|run| - 1]), run[|run| - 1], f);
    }
  }

  /** Presenting a stored token that was revoked before, for whatever reason, ends its family: after
    * any further run no token of the family rotates. */
  lemma ReplayEndsTheFamily(s: State, l: Label, run: seq<Label>, l': Label)
    requires Inv(s) && Enabled(s, l) && Reuses(s, l)
    requires Legal(Apply(s, l), run) && Rotates(After(Apply(s, l), run), l')
    ensures After(Apply(s, l), run).tokens[l'.presented].familyId != s.tokens[l.presented].familyId
  {
    ReuseEndsFamily(s, l);
    FamilyDeadStays(Apply(s, l), run, s.tokens[l.presented].familyId);
  }

  lemma ReuseEndsFamily(s: State, l: Label)
    requires Inv(s) && Reuses(s, l)
    ensures FamilyDead(Apply(s, l), s.tokens[l.presented].familyId)
  {
    StoredFamiliesAreKnown(s);
    StepKeepsKnown(s, l, s.tokens[l.presented].familyId);
  }

  lemma StoredFamiliesAreKnown(s: State)
    requires Inv(s)
    ensures forall raw :: raw in s.tokens ==> FamilyKnown(s, s.tokens[raw].familyId)
  {
    forall raw | raw in s.tokens
      ensures FamilyKnown(s, s.tokens[raw].familyId)
    {
      assert TokenOk(s, raw);
    }
  }

  // ----- logout, password change, password reset ------------------------------------

  /** The request ends the sessions of user `u` in tenant `t`. */
  predicate EndsSessions(s: State, l: Label, u: UserId, t: TenantId) {
    || (l.Logout? && l.user == u && l.tenant == t)
    || ChangesPassword(s, l, u)
    || (Rotates(s, l) && !OwnerActive(s, l) && s.tokens[l.presented].userId == u)
  }

  lemma EndingRevokesAll(s: State, l: Label, u: UserId, t: TenantId)
    requires EndsSessions(s, l, u, t)
    ensures var tokens := NextTokens(s, l);
      forall raw :: raw in tokens && tokens[raw].userId == u && tokens[raw].tenantId == t ==> tokens[raw].revoked.Some?
  {
  }

  lemma {:induction false} IssuedGrows(s: State, run: seq<Label>)
    ensures s.issued <= After(s, run).issued
    decreases |run|
  {
    if run != [] {
      IssuedGrows(s, run[..|run| - 1]);
    }
  }

  /** After a logout, a password change, a password reset, or a refresh by a deactivated user, no
    * session of that user (for a logout: in that tenant) from before can be continued: a token
    * of theirs that rotates after any further run belongs to a family that a later login
    * started. */
  lemma EndedSessionsNeedANewLogin(s: State, l: Label, run: seq<Label>, l': Label, u: UserId, t: TenantId)
    requires Inv(s) && Enabled(s, l) && EndsSessions(s, l, u, t)
    requires Legal(Apply(s, l), run) && Rotates(After(Apply(s, l), run), l')
    requires var token := After(Apply(s, l), run).tokens[l'.presented]; token.userId == u && token.tenantId == t
    ensures !FamilyKnown(s, After(Apply(s, l), run).tokens[l'.presented].familyId)
  {
    var next := Apply(s, l);
    var late := After(next, run);
    var f := late.tokens[l'.presented].familyId;
    if FamilyKnown(s, f) {
      StepKeepsInv(s, l);
      RunKeepsInv(next, run);
      StepKeepsKnown(s, l, f);
      EndingRevokesAll(s, l, u, t);
      IssuedGrows(next, run);
      OwnedFamilyIsDead(next, late, l'.presented);
      FamilyDeadStays(next, run, f);
    }
  }

  /** If everything of one user and tenant is revoked now, so is every family that turns out to be
    * theirs later. */
  lemma OwnedFamilyIsDead(s: State, late: State, raw: RawToken)
    requires Inv(s) && Inv(late) && s.issued <= late.issued && raw in late.tokens
    requires FamilyKnown(s, late.tokens[raw].familyId)
    requires var owner := late.tokens[raw];
      forall r :: r in s.tokens && s.tokens[r].userId == owner.userId && s.tokens[r].tenantId == owner.tenantId ==>
        s.tokens[r].revoked.Some?
    ensures FamilyDead(s, late.tokens[raw].familyId)
  {
    var f := late.tokens[raw].familyId;
    assert TokenOk(late, raw);
    var n: nat :| n < |late.issued| && late.issued[n].raw == raw && Matches(late.issued[n], late.tokens[raw]);
    forall r | r in s.tokens && s.tokens[r].familyId == f
      ensures s.tokens[r].revoked.Some?
    {
      assert TokenOk(s, r);
      var k: nat :| k < |s.issued| && s.issued[k].raw == r && Matches(s.issued[k], s.tokens[r]);
      assert late.issued[k] == s.issued[k];
      FamilyHasOneOwner(late, k, n);
    }
  }

  // ----- no other token is touched --------------------------------------------------

  predicate Alive(s: State, raw: RawToken) {
    raw in s.tokens && s.tokens[raw].revoked.None?
  }

  /** The request presents the token, replays a revoked token of its family, ends the sessions of
    * its owner, or deletes it as expired. */
  predicate Hits(s: State, l: Label, raw: RawToken) {
    raw in s.tokens &&
    (|| (l.Refresh? && l.presented == raw)
     || (Reuses(s, l) && s.tokens[l.presented].familyId == s.tokens[raw].familyId)
     || EndsSessions(s, l, s.tokens[raw].userId, s.tokens[raw].tenantId)
     || (l.DeleteExpired? && s.tokens[raw].expiresAt <= s.now))
  }

  lemma AliveAfterRefreshIff(s: State, l: Label, raw: RawToken)
    requires Inv(s) && Enabled(s, l) && IsIssued(s, raw) && l.Refresh?
    ensures Alive(Apply(s, l), raw) <==> Alive(s, raw) && !Hits(s, l, raw)
  {
    StoredTokensAreIssued(s);
  }

  lemma AliveAfterStepIff(s: State, l: Label, raw: RawToken)
    requires Inv(s) && Enabled(s, l) && IsIssued(s, raw)
    ensures Alive(Apply(s, l), raw) <==> Alive(s, raw) && !Hits(s, l, raw)
  {
    if l.Refresh? {
      AliveAfterRefreshIff(s, l, raw);
    }
  }

  /** No request of the run hits `raw`. */
  predicate Spared(s: State, run: seq<Label>, raw: RawToken)
    decreases |run|
  {
    run == [] || (Spared(s, run[..|run| - 1], raw) && !Hits(After(s, run[..|run| - 1]), run[|run| - 1], raw))
  }

  lemma {:induction false} IssuedStays(s: State, run: seq<Label>, raw: RawToken)
    requires IsIssued(s, raw)
    ensures IsIssued(After(s, run), raw)
    decreases |run|
  {
    if run != [] {
      IssuedStays(s, run[..|run| - 1], raw);
      StepKeepsIssued(After(s, run[..|run| - 1]), run[|run| - 1], raw);
    }
  }

  /** A live token is live at the end of a run exactly if no request of the run hit it. */
  lemma {:induction false} TokenLivesIff(s: State, run: seq<Label>, raw: RawToken)
    requires Inv(s) && Legal(s, run) && Alive(s, raw)
    ensures Alive(After(s, run), raw) <==> Spared(s, run, raw)
    decreases |run|
  {
    if run != [] {
      var shorter := run[..|run| - 1];
      TokenLivesIff(s, shorter, raw);
      RunKeepsInv(s, shorter);
      StoredTokensAreIssued(s);
      IssuedStays(s, shorter, raw);
      AliveAfterStepIff(After(s, shorter), run[|run| - 1], raw);
    }
  }

  // ----- reset tokens ---------------------------------------------------------------

  predicate Used(s: State, reset: RawToken) {
    reset in s.resets && s.resets[reset].isUsed
  }

  lemma StepKeepsUsed(s: State, l: Label, reset: RawToken)
    requires Enabled(s, l) && Used(s, reset)
    ensures Used(Apply(s, l), reset)
  {
  }

  lemma {:induction false} UsedStays(s: State, run: seq<Label>, reset: RawToken)
    requires Legal(s, run) && Used(s, reset)
    ensures Used(After(s, run), reset)
    decreases |run|
  {
    if run != [] {
      UsedStays(s, run[..|run| - 1], reset);
      StepKeepsUsed(After(s, run[..|run| - 1]), run[|run| - 1], reset);
    }
  }

  lemma ValidIsUsedUp(s: State, l: Label)
    requires l.ResetPassword? && ResetValid(s, l.reset)
    ensures Used(Apply(s, l), l.reset)
  {
  }

  /** A reset token changes a password at most once. */
  lemma EachResetTokenWorksOnce(s: State, l: Label, run: seq<Label>, reset: RawToken)
    requires l == ResetPassword(reset) && ResetValid(s, reset) && Legal(Apply(s, l), run)
    ensures !ResetValid(After(Apply(s, l), run), reset)
  {
    ValidIsUsedUp(s, l);
    UsedStays(Apply(s, l), run, reset);
  }
}
