/** What a user row says about the run, resets included: the counter, the lock and the activity of an
  * account are those that its requests since the last reset make of it. */
module AccountHistory {
  import opened Wrappers
  import opened AuthModel
  import opened Lockout

  /** The times of the failed password checks of `u` since the last successful login or password change. */
  function FailsSinceReset(s: State, run: seq<Label>, u: UserId): seq<int>
    decreases |run|
  {
    if run == [] then []
    else
      var before, l := After(s, run[..|run| - 1]), run[|run| - 1];
      if Succeeds(before, l, u) then []
      else FailsSinceReset(s, run[..|run| - 1], u) + (if Mistypes(before, l, u) then [before.now] else [])
  }

  /** The user exists, is active and not locked out: the password is looked at. */
  predicate Admitted(s: State, u: UserId) {
    && u in s.users && s.users[u].isActive
    && (s.users[u].lockedUntil.Some? ==> s.users[u].lockedUntil.value <= s.now)
  }

  predicate Mistypes(s: State, l: Label, u: UserId) {
    l.Login? && l.user == u && Admitted(s, u) && !l.passwordOk
  }

  /** A login that passes every check, an accepted change of password, or an accepted password reset. */
  predicate Succeeds(s: State, l: Label, u: UserId) {
    || (l.Login? && l.user == u && Admitted(s, u) && l.passwordOk && l.tenantOk && l.employeeOk)
    || (l.ChangePassword? && l.user == u && u in s.users && l.currentOk && l.differs)
    || (l.ResetPassword? && l.reset in s.resets && s.resets[l.reset].userId == u
        && !s.resets[l.reset].isUsed && s.now < s.resets[l.reset].expiresAt)
  }

  /** What the last request about it said; a new account is active. */
  function ActiveAsSet(run: seq<Label>, u: UserId): bool {
    if run == [] then true
    else
      var l := run[|run| - 1];
      if l.SetActive? && l.user == u then l.active else ActiveAsSet(run[..|run| - 1], u)
  }

  predicate Registered(run: seq<Label>, u: UserId) {
    exists k :: 0 <= k < |run| && run[k] == Register(u)
  }

  /** The fifth failure in a row and each later one locks for thirty minutes. */
  function LockFrom(ts: seq<int>): Option<int> {
    if |ts| >= 5 then Some(ts[|ts| - 1] + 30 * 60 * 1_000) else None
  }

  lemma StepTellsHistory(s: State, l: Label, u: UserId, active: bool, ts: seq<int>)
    requires Enabled(s, l) && u in s.users && s.users[u] == User(active, |ts|, LockFrom(ts))
    ensures u in NextUsers(s, l)
    ensures var ts' := if Succeeds(s, l, u) then [] else ts + (if Mistypes(s, l, u) then [s.now] else []);
      NextUsers(s, l)[u] == User(if l.SetActive? && l.user == u then l.active else active, |ts'|, LockFrom(ts'))
  {
  }

  lemma StepRegisters(s: State, l: Label, u: UserId)
    requires Enabled(s, l) && u !in s.users
    ensures if l == Register(u) then u in NextUsers(s, l) && NextUsers(s, l)[u] == User(true, 0, None) else u !in NextUsers(s, l)
    ensures !Mistypes(s, l, u) && !(l.SetActive? && l.user == u)
  {
  }

  lemma {:induction false} NothingBeforeRegistering(now: int, run: seq<Label>, u: UserId)
    requires Legal(Init(now), run)
    ensures u in After(Init(now), run).users <==> Registered(run, u)
    ensures u !in After(Init(now), run).users ==> FailsSinceReset(Init(now), run, u) == [] && ActiveAsSet(run, u)
    decreases |run|
  {
    if run != [] {
      var shorter, l := run[..|run| - 1], run[|run| - 1];
      var before := After(Init(now), shorter);
      NothingBeforeRegistering(now, shorter, u);
      RegisteredSnoc(run, u);
      if u !in before.users {
        StepRegisters(before, l, u);
      } else {
        UsersStay(before, l, u);
      }
    }
  }

  lemma RegisteredSnoc(run: seq<Label>, u: UserId)
    requires run != []
    ensures Registered(run, u) <==> Registered(run[..|run| - 1], u) || run[|run| - 1] == Register(u)
  {
    var shorter := run[..|run| - 1];
    if Registered(shorter, u) {
      var k :| 0 <= k < |shorter| && shorter[k] == Register(u);
      assert run[k] == Register(u);
    }
    if Registered(run, u) && run[|run| - 1] != Register(u) {
      var k :| 0 <= k < |run| && run[k] == Register(u);
      assert shorter[k] == Register(u);
    }
  }

  lemma UsersStay(s: State, l: Label, u: UserId)
    requires u in s.users
    ensures u in NextUsers(s, l)
  {
  }

  /** In every run an account is what its requests make of it: active as last set, with the failed checks
    * since the last success counted, and locked for thirty minutes from the last of five or more. */
  lemma {:induction false} AccountTellsItsHistory(now: int, run: seq<Label>, u: UserId)
    requires Legal(Init(now), run)
    ensures u in After(Init(now), run).users <==> Registered(run, u)
    ensures var ts := FailsSinceReset(Init(now), run, u);
      u in After(Init(now), run).users ==> After(Init(now), run).users[u] == User(ActiveAsSet(run, u), |ts|, LockFrom(ts))
    decreases |run|
  {
    NothingBeforeRegistering(now, run, u);
    if run != [] {
      var shorter, l := run[..|run| - 1], run[|run| - 1];
      var before := After(Init(now), shorter);
      NothingBeforeRegistering(now, shorter, u);
      AccountTellsItsHistory(now, shorter, u);
      if u in before.users {
        StepTellsHistory(before, l, u, ActiveAsSet(shorter, u), FailsSinceReset(Init(now), shorter, u));
      } else {
        StepRegisters(before, l, u);
        JustRegistered(Init(now), run, u);
      }
    }
  }

  lemma JustRegistered(s: State, run: seq<Label>, u: UserId)
    requires run != [] && FailsSinceReset(s, run[..|run| - 1], u) == [] && ActiveAsSet(run[..|run| - 1], u)
    requires var l := run[|run| - 1]; !Mistypes(After(s, run[..|run| - 1]), l, u) && !(l.SetActive? && l.user == u)
    ensures FailsSinceReset(s, run, u) == [] && ActiveAsSet(run, u)
  {
  }

  /** A password is looked at exactly for a registered, active user with fewer than five failures since the
    * last success, or with the last of them thirty minutes ago or longer. */
  lemma AdmittedIff(now: int, run: seq<Label>, u: UserId)
    requires Legal(Init(now), run)
    ensures var ts := FailsSinceReset(Init(now), run, u);
      Admitted(After(Init(now), run), u) <==>
        && Registered(run, u) && ActiveAsSet(run, u)
        && (|ts| < 5 || ts[|ts| - 1] + 30 * 60 * 1_000 <= After(Init(now), run).now)
  {
    AccountTellsItsHistory(now, run, u);
  }

  // ----- a success gives five free failures again ----------------------------------------

  /** After a success, from any state, five more checks of that user may fail before a lockout comes in
    * between, and a user who was active and not locked out can log in at once. */
  lemma SuccessClears(s: State, l: Label, u: UserId)
    requires Succeeds(s, l, u) && u in s.users
    ensures var s' := Apply(s, l);
      && u in s'.users && FreeOf(s', u) == 5
      && (s.users[u].isActive ==> Open(s', u))
  {
  }
}
