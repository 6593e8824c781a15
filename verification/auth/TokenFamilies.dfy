/** Refresh-token rotation with reuse detection (section 10.4 of RFC 6749, section 4.14.2 of
  * RFC 9700): the shape of a token family, and what never works again. */
module TokenFamilies {
  import opened Wrappers
  import opened AuthModel

  /** The tokens of family `f`, oldest first. */
  function Chain(issued: seq<Issue>, f: FamilyId): seq<Issue> {
    if issued == [] then []
    else
      var last := issued[|issued| - 1];
      Chain(issued[..|issued| - 1], f) + (if last.familyId == f then [last] else [])
  }

  /** The first token of a family came from a login; every other was handed out in exchange for
    * the one before it, to the same user and tenant. */
  predicate Linked(c: seq<Issue>, i: nat)
    requires i < |c|
  {
    if i == 0 then c[i].previous.None?
    else c[i].previous == Some(c[i - 1].raw) && c[i].userId == c[i - 1].userId && c[i].tenantId == c[i - 1].tenantId
  }

  ghost predicate Linear(c: seq<Issue>) {
    forall i: nat :: i < |c| ==> Linked(c, i)
  }

  ghost predicate TokenOk(s: State, raw: RawToken)
    requires raw in s.tokens
  {
    var token := s.tokens[raw];
    && (exists k :: 0 <= k < |s.issued| && s.issued[k].raw == raw && Matches(s.issued[k], token))
    && (token.revoked.None? ==>
          var c := Chain(s.issued, token.familyId);
          c != [] && c[|c| - 1].raw == raw && Matches(c[|c| - 1], token))
  }

  predicate Matches(i: Issue, token: Token) {
    i.userId == token.userId && i.tenantId == token.tenantId && i.familyId == token.familyId
  }

  ghost predicate Inv(s: State) {
    && (forall i, j :: 0 <= i < j < |s.issued| ==> s.issued[i].raw != s.issued[j].raw)
    && (forall f: FamilyId :: Linear(Chain(s.issued, f)))
    && (forall raw :: raw in s.tokens ==> TokenOk(s, raw))
  }

  lemma {:induction false} ChainOfUnknown(issued: seq<Issue>, f: FamilyId)
    requires forall k :: 0 <= k < |issued| ==> issued[k].familyId != f
    ensures Chain(issued, f) == []
    decreases |issued|
  {
    if issued != [] {
      ChainOfUnknown(issued[..|issued| - 1], f);
    }
  }

  lemma ChainSnoc(issued: seq<Issue>, i: Issue, f: FamilyId)
    ensures Chain(issued + [i], f) == Chain(issued, f) + (if i.familyId == f then [i] else [])
  {
    assert (issued + [i])[..|issued + [i]| - 1] == issued;
  }

  /** Steps that hand out nothing only revoke and delete. */
  predicate OnlyRevokes(before: map<RawToken, Token>, after: map<RawToken, Token>) {
    forall raw :: raw in after ==>
      && raw in before
      && after[raw] == before[raw].(revoked := after[raw].revoked)
      && (after[raw].revoked.None? ==> before[raw].revoked.None?)
  }

  lemma RevokingKeepsTokenOk(s: State, s': State)
    requires Inv(s) && s'.issued == s.issued && OnlyRevokes(s.tokens, s'.tokens)
    ensures Inv(s')
  {
    forall f: FamilyId
      ensures Linear(Chain(s'.issued, f))
    {
      assert Linear(Chain(s.issued, f));
    }
    forall raw | raw in s'.tokens
      ensures TokenOk(s', raw)
    {
      assert TokenOk(s, raw);
      var k :| 0 <= k < |s.issued| && s.issued[k].raw == raw && Matches(s.issued[k], s.tokens[raw]);
      assert Matches(s'.issued[k], s'.tokens[raw]);
    }
  }

  lemma IssuingKeepsInv(s: State, s': State, i: Issue, expiresAt: int)
    requires Inv(s) && !IsIssued(s, i.raw)
    requires s'.issued == s.issued + [i]
    requires i.raw in s'.tokens && s'.tokens[i.raw] == Token(i.userId, i.tenantId, i.familyId, expiresAt, None)
    requires OnlyRevokes(s.tokens, s'.tokens - {i.raw})
    requires forall raw :: raw in s'.tokens && raw != i.raw && s'.tokens[raw].familyId == i.familyId ==>
               s'.tokens[raw].revoked.Some?
    requires Linear(Chain(s.issued, i.familyId) + [i])
    ensures Inv(s')
  {
    forall f: FamilyId
      ensures Chain(s'.issued, f) == Chain(s.issued, f) + (if i.familyId == f then [i] else [])
      ensures Linear(Chain(s'.issued, f))
    {
      ChainSnoc(s.issued, i, f);
      assert Linear(Chain(s.issued, f)) && Chain(s.issued, f) + [] == Chain(s.issued, f);
    }
    forall raw | raw in s'.tokens
      ensures TokenOk(s', raw)
    {
      if raw == i.raw {
        assert s'.issued[|s.issued|] == i;
      } else {
        assert raw in s'.tokens - {i.raw};
        assert TokenOk(s, raw);
        var k :| 0 <= k < |s.issued| && s.issued[k].raw == raw && Matches(s.issued[k], s.tokens[raw]);
        assert s'.issued[k] == s.issued[k];
      }
    }
  }

  lemma StepOnlyRevokes(s: State, l: Label)
    requires !LogsIn(s, l) && !Refreshes(s, l)
    ensures OnlyRevokes(s.tokens, NextTokens(s, l)) && NextIssued(s, l) == s.issued
  {
  }

  lemma StoredTokensAreIssued(s: State)
    requires Inv(s)
    ensures forall raw :: raw in s.tokens ==> IsIssued(s, raw)
  {
    forall raw | raw in s.tokens
      ensures IsIssued(s, raw)
    {
      assert TokenOk(s, raw);
    }
  }

  lemma LinearSnoc(c: seq<Issue>, i: Issue)
    requires Linear(c) && Linked(c + [i], |c|)
    ensures Linear(c + [i])
  {
    forall k: nat | k < |c|
      ensures Linked(c + [i], k)
    {
      assert Linked(c, k);
    }
  }

  lemma {:induction false} OneOwner(c: seq<Issue>, i: nat)
    requires Linear(c) && i < |c|
    ensures c[i].userId == c[0].userId && c[i].tenantId == c[0].tenantId
    decreases i
  {
    if i > 0 {
      assert Linked(c, i);
      OneOwner(c, i - 1);
    }
  }

  /** The token a refresh presents is the newest of its family. */
  lemma RefreshKeepsInv(s: State, l: Label)
    requires Inv(s) && Enabled(s, l) && Refreshes(s, l)
    ensures Inv(Apply(s, l))
  {
    var token := s.tokens[l.presented];
    var c := Chain(s.issued, token.familyId);
    assert TokenOk(s, l.presented);
    var i := Issue(l.raw, token.userId, token.tenantId, token.familyId, Some(l.presented));
    LinearSnoc(c, i);
    StoredTokensAreIssued(s);
    forall raw | raw in s.tokens && raw != l.presented && s.tokens[raw].familyId == token.familyId
      ensures s.tokens[raw].revoked.Some?
    {
      assert TokenOk(s, raw);
    }
    IssuingKeepsInv(s, Apply(s, l), i, l.expiresAt);
  }

  lemma LoginKeepsInv(s: State, l: Label)
    requires Inv(s) && Enabled(s, l) && LogsIn(s, l)
    ensures Inv(Apply(s, l))
  {
    ChainOfUnknown(s.issued, l.family);
    StoredTokensAreIssued(s);
    forall raw | raw in s.tokens
      ensures s.tokens[raw].familyId != l.family
    {
      assert TokenOk(s, raw);
    }
    IssuingKeepsInv(s, Apply(s, l), Issue(l.raw, l.user, l.tenant, l.family, None), l.expiresAt);
  }

  lemma StepKeepsInv(s: State, l: Label)
    requires Inv(s) && Enabled(s, l)
    ensures Inv(Apply(s, l))
  {
    if LogsIn(s, l) {
      LoginKeepsInv(s, l);
    } else if Refreshes(s, l) {
      RefreshKeepsInv(s, l);
    } else {
      StepOnlyRevokes(s, l);
      RevokingKeepsTokenOk(s, Apply(s, l));
    }
  }

  lemma {:induction false} RunKeepsInv(s: State, run: seq<Label>)
    requires Inv(s) && Legal(s, run)
    ensures Inv(After(s, run))
    decreases |run|
  {
    if run != [] {
      RunKeepsInv(s, run[..|run| - 1]);
      StepKeepsInv(After(s, run[..|run| - 1]), run[|run| - 1]);
    }
  }

  lemma NothingYet(now: int)
    ensures Inv(Init(now))
  {
  }

  // ----- the history is that of the run ---------------------------------------------

  /** The request puts the token into the table, as token of this owner and family. */
  predicate Stores(s: State, l: Label, i: Issue) {
    var tokens := NextTokens(s, l);
    && i.raw !in s.tokens && i.raw in tokens && Matches(i, tokens[i.raw])
    && i.previous == if l.Refresh? then Some(l.presented) else None
  }

  predicate StoredIn(s: State, run: seq<Label>, i: Issue)
    decreases |run|
  {
    run != [] &&
    var shorter := run[..|run| - 1];
    (StoredIn(s, shorter, i) || Stores(After(s, shorter), run[|run| - 1], i))
  }

  lemma StepIssues(s: State, l: Label, i: Issue)
    requires Inv(s) && Enabled(s, l)
    ensures i in NextIssued(s, l) <==> i in s.issued || Stores(s, l, i)
  {
    StoredTokensAreIssued(s);
    if !LogsIn(s, l) && !Refreshes(s, l) {
      StepOnlyRevokes(s, l);
    }
  }

  /** What is recorded as issued is what the requests of the run put into the token table. */
  lemma {:induction false} IssuedMatchesRun(now: int, run: seq<Label>, i: Issue)
    requires Legal(Init(now), run)
    ensures i in After(Init(now), run).issued <==> StoredIn(Init(now), run, i)
    decreases |run|
  {
    if run != [] {
      var shorter := run[..|run| - 1];
      IssuedMatchesRun(now, shorter, i);
      NothingYet(now);
      RunKeepsInv(Init(now), shorter);
      StepIssues(After(Init(now), shorter), run[|run| - 1], i);
    }
  }

  lemma {:induction false} ChainHolds(issued: seq<Issue>, k: nat)
    requires k < |issued|
    ensures issued[k] in Chain(issued, issued[k].familyId)
    decreases |issued|
  {
    if k < |issued| - 1 {
      ChainHolds(issued[..|issued| - 1], k);
    }
  }

  /** A family has one owner: whatever was handed out in it went to the same user and tenant. */
  lemma FamilyHasOneOwner(s: State, j: nat, k: nat)
    requires Inv(s) && j < |s.issued| && k < |s.issued| && s.issued[j].familyId == s.issued[k].familyId
    ensures s.issued[j].userId == s.issued[k].userId && s.issued[j].tenantId == s.issued[k].tenantId
  {
    var c := Chain(s.issued, s.issued[j].familyId);
    ChainHolds(s.issued, j);
    ChainHolds(s.issued, k);
    assert Linear(c);
    var i, i' :| 0 <= i < |c| && c[i] == s.issued[j] && 0 <= i' < |c| && c[i'] == s.issued[k];
    OneOwner(c, i);
    OneOwner(c, i');
  }

  /** In every state that satisfies Inv, so in every reachable one, a refresh family is one linear
    * chain for one user and tenant: each token was handed out in exchange for the one before it,
    * every stored token of the family is in the chain and belongs to its user and tenant, and
    * only the newest can be unrevoked. */
  lemma FamiliesAreChains(s: State, raw: RawToken)
    requires Inv(s) && raw in s.tokens
    ensures var c, token := Chain(s.issued, s.tokens[raw].familyId), s.tokens[raw];
      && Linear(c)
      && (exists i :: 0 <= i < |c| && c[i].raw == raw)
      && token.userId == c[0].userId && token.tenantId == c[0].tenantId
      && (token.revoked.None? ==> c[|c| - 1].raw == raw)
  {
    assert TokenOk(s, raw);
    var token := s.tokens[raw];
    var c := Chain(s.issued, token.familyId);
    var k: nat :| k < |s.issued| && s.issued[k].raw == raw && Matches(s.issued[k], token);
    ChainHolds(s.issued, k);
    var i: nat :| i < |c| && c[i] == s.issued[k];
    OneOwner(c, i);
  }
}
