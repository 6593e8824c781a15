/** The failed-login counter with its timed lock, over whole runs: how close together failed
  * password checks of one user can be. */
module Lockout {
  import opened Wrappers
  import opened AuthModel

  /** The times of the failed password checks of `u`. */
  function FailTimes(s: State, run: seq<Label>, u: UserId): seq<int>
    decreases |run|
  {
    if run == [] then []
    else
      var before := After(s, run[..|run| - 1]);
      FailTimes(s, run[..|run| - 1], u) + (if FailsCheck(before, run[|run| - 1], u) then [before.now] else [])
  }

  /** The request sets the counter of `u` back to zero. */
  predicate Resets(s: State, l: Label, u: UserId) {
    (LogsIn(s, l) && l.user == u) || ChangesPassword(s, l, u)
  }

  predicate NoReset(s: State, run: seq<Label>, u: UserId)
    decreases |run|
  {
    run == [] || (NoReset(s, run[..|run| - 1], u) && !Resets(After(s, run[..|run| - 1]), run[|run| - 1], u))
  }

  /** The counter has counted every failed check, and from the fifth on the lock runs from the
    * last one. */
  ghost predicate Counted(s: State, u: UserId, start: nat, ts: seq<int>) {
    && u in s.users
    && s.users[u].failedLoginAttempts == start + |ts|
    && (forall i :: 0 <= i < |ts| ==> ts[i] <= s.now)
    && (ts != [] && start + |ts| >= MAX_FAILED_LOGIN_ATTEMPTS ==>
          s.users[u].lockedUntil == Some(ts[|ts| - 1] + LOCKOUT_MS))
  }

  /** Times do not go back, and once five checks have failed the next one failed at least one
    * lockout later. */
  ghost predicate Spaced(start: nat, ts: seq<int>) {
    forall i: nat :: i + 1 < |ts| ==> ts[i] + (if start + i + 1 >= MAX_FAILED_LOGIN_ATTEMPTS then LOCKOUT_MS else 0) <= ts[i + 1]
  }

  lemma StepKeepsCounted(s: State, l: Label, u: UserId, start: nat, ts: seq<int>)
    requires Enabled(s, l) && !Resets(s, l, u) && Counted(s, u, start, ts) && Spaced(start, ts)
    ensures var ts' := ts + (if FailsCheck(s, l, u) then [s.now] else []);
      Counted(Apply(s, l), u, start, ts') && Spaced(start, ts')
  {
    if FailsCheck(s, l, u) {
      var ts' := ts + [s.now];
      forall i: nat | i + 1 < |ts'|
        ensures ts'[i] + (if start + i + 1 >= MAX_FAILED_LOGIN_ATTEMPTS then LOCKOUT_MS else 0) <= ts'[i + 1]
      {
        assert i + 1 < |ts| ==> ts'[i] == ts[i] && ts'[i + 1] == ts[i + 1];
      }
    } else {
      assert ts + [] == ts;
    }
  }

  lemma {:induction false} RunKeepsCounted(s: State, run: seq<Label>, u: UserId)
    requires Legal(s, run) && NoReset(s, run, u) && u in s.users
    ensures Counted(After(s, run), u, s.users[u].failedLoginAttempts, FailTimes(s, run, u))
    ensures Spaced(s.users[u].failedLoginAttempts, FailTimes(s, run, u))
    decreases |run|
  {
    if run != [] {
      var shorter := run[..|run| - 1];
      RunKeepsCounted(s, shorter, u);
      StepKeepsCounted(After(s, shorter), run[|run| - 1], u, s.users[u].failedLoginAttempts, FailTimes(s, shorter, u));
    }
  }

  /** How many checks can fail before a lockout comes between two of them. The counter outlives the
    * lock, so it is a single one if the counter stands at five or more. */
  function Free(start: nat): nat {
    if start >= MAX_FAILED_LOGIN_ATTEMPTS then 1 else MAX_FAILED_LOGIN_ATTEMPTS - start
  }

  function FreeOf(s: State, u: UserId): nat
    requires u in s.users
  {
    Free(s.users[u].failedLoginAttempts)
  }

  lemma {:induction false} GapsAddUp(start: nat, ts: seq<int>, k: nat)
    requires Spaced(start, ts) && Free(start) <= k <= |ts|
    ensures ts[k - 1] >= ts[Free(start) - 1] + (k - Free(start)) * LOCKOUT_MS
    decreases k
  {
    if k > Free(start) {
      GapsAddUp(start, ts, k - 1);
      assert ts[k - 2] + LOCKOUT_MS <= ts[k - 2 + 1];
    }
  }

  lemma {:induction false} TimesGrow(start: nat, ts: seq<int>, k: nat)
    requires Spaced(start, ts) && k < |ts|
    ensures ts[0] <= ts[k]
    decreases k
  {
    if k > 0 {
      TimesGrow(start, ts, k - 1);
      assert ts[k - 1] <= ts[k - 1 + 1];
    }
  }

  /** Over any run, from any state, in which nothing resets the counter of `u`: the first failed checks
    * are free, as many as the counter lets, and the k-th comes no earlier than one lockout for
    * each further one after the last free one. */
  lemma KthFailureIsLate(s: State, run: seq<Label>, u: UserId, k: nat)
    requires Legal(s, run) && NoReset(s, run, u) && u in s.users
    requires FreeOf(s, u) <= k <= |FailTimes(s, run, u)|
    ensures FailTimes(s, run, u)[k - 1] >= FailTimes(s, run, u)[FreeOf(s, u) - 1] + (k - FreeOf(s, u)) * LOCKOUT_MS
  {
    RunKeepsCounted(s, run, u);
    GapsAddUp(s.users[u].failedLoginAttempts, FailTimes(s, run, u), k);
  }

  /** So within `window` milliseconds of the first of them, at most the free ones and window / lockout
    * more checks of such a run fail. */
  lemma FailuresInWindow(s: State, run: seq<Label>, u: UserId, window: nat, k: nat)
    requires Legal(s, run) && NoReset(s, run, u) && u in s.users
    requires 0 < k <= |FailTimes(s, run, u)| && FailTimes(s, run, u)[k - 1] <= FailTimes(s, run, u)[0] + window
    ensures k <= FreeOf(s, u) + window / LOCKOUT_MS
  {
    RunKeepsCounted(s, run, u);
    if k > FreeOf(s, u) {
      GapsAddUp(s.users[u].failedLoginAttempts, FailTimes(s, run, u), k);
      TimesGrow(s.users[u].failedLoginAttempts, FailTimes(s, run, u), FreeOf(s, u) - 1);
      WholeLockouts(k - FreeOf(s, u), window);
    }
  }

  lemma WholeLockouts(n: nat, window: nat)
    requires n * LOCKOUT_MS <= window
    ensures n <= window / LOCKOUT_MS
  {
  }

  // ----- the bound is reached -------------------------------------------------------

  /** A wrong password for `u`. */
  function WrongPassword(u: UserId, raw: RawToken, family: FamilyId): Label {
    Login(u, false, 0, true, true, raw, family, 0)
  }

  function Lockouts(start: nat, k: nat): nat {
    if k <= Free(start) then 0 else k - Free(start)
  }

  /** How `k` wrong passwords, the last one at time `now`, leave the lock. */
  function LockAfter(user: User, k: nat, now: int): Option<int> {
    if k == 0 || user.failedLoginAttempts + k < MAX_FAILED_LOGIN_ATTEMPTS then user.lockedUntil else Some(now + LOCKOUT_MS)
  }

  /** The user can log in now. */
  predicate Open(s: State, u: UserId) {
    u in s.users && s.users[u].isActive && !Locked(s.users[u], s.now)
  }

  lemma Snoc(s: State, run: seq<Label>, l: Label, u: UserId)
    requires Legal(s, run) && Enabled(After(s, run), l) && NoReset(s, run, u) && !Resets(After(s, run), l, u)
    ensures Legal(s, run + [l]) && After(s, run + [l]) == Apply(After(s, run), l) && NoReset(s, run + [l], u)
    ensures FailTimes(s, run + [l], u)
         == FailTimes(s, run, u) + (if FailsCheck(After(s, run), l, u) then [After(s, run).now] else [])
  {
    var longer := run + [l];
    assert longer[..|longer| - 1] == run && longer[|longer| - 1] == l;
  }

  /** `run` is without a reset and made `k` checks fail, the first at once, the last at `last`;
    * it ends at `now`, with the counter that much higher and the lock as given. */
  ghost predicate Attacked(s: State, run: seq<Label>, u: UserId, k: nat, last: int, now: int, lock: Option<int>)
    requires u in s.users
  {
    && Legal(s, run) && NoReset(s, run, u)
    && After(s, run).issued == s.issued && After(s, run).now == now
    && u in After(s, run).users && After(s, run).users[u] == User(true, s.users[u].failedLoginAttempts + k, lock)
    && |FailTimes(s, run, u)| == k
    && (k > 0 ==> FailTimes(s, run, u)[0] == s.now && FailTimes(s, run, u)[k - 1] == last)
  }

  lemma OneMore(s: State, run: seq<Label>, u: UserId, raw: RawToken, family: FamilyId, k: nat,
                last: int, now: int, lock: Option<int>)
    requires u in s.users && Attacked(s, run, u, k, last, now, lock) && !IsIssued(s, raw) && !FamilyKnown(s, family)
    requires (lock.Some? ==> lock.value <= now) && (k == 0 ==> now == s.now)
    ensures Attacked(s, run + [WrongPassword(u, raw, family)], u, k + 1, now, now,
                     if s.users[u].failedLoginAttempts + k + 1 < MAX_FAILED_LOGIN_ATTEMPTS then lock else Some(now + LOCKOUT_MS))
  {
    Snoc(s, run, WrongPassword(u, raw, family), u);
  }

  lemma WaitLonger(s: State, run: seq<Label>, u: UserId, k: nat, last: int, now: int, lock: Option<int>)
    requires u in s.users && Attacked(s, run, u, k, last, now, lock)
    ensures Attacked(s, run + [Tick(LOCKOUT_MS)], u, k, last, now + LOCKOUT_MS, lock)
  {
    Snoc(s, run, Tick(LOCKOUT_MS), u);
  }

  /** When the last of `k` wrong passwords is given. */
  function LastAt(s: State, u: UserId, k: nat): int
    requires u in s.users
  {
    s.now + Lockouts(s.users[u].failedLoginAttempts, k) * LOCKOUT_MS
  }

  ghost predicate Reached(s: State, run: seq<Label>, u: UserId, k: nat)
    requires u in s.users
  {
    Attacked(s, run, u, k, LastAt(s, u, k), LastAt(s, u, k), LockAfter(s.users[u], k, LastAt(s, u, k)))
  }

  lemma NoneYet(s: State, u: UserId, k: nat)
    requires Open(s, u) && k == 0
    ensures Reached(s, [], u, k)
  {
  }

  lemma SoonAgain(s: State, run: seq<Label>, u: UserId, raw: RawToken, family: FamilyId, k: nat)
    requires Open(s, u) && 0 < k <= FreeOf(s, u) && Reached(s, run, u, k - 1) && !IsIssued(s, raw) && !FamilyKnown(s, family)
    ensures Reached(s, run + [WrongPassword(u, raw, family)], u, k)
  {
    OneMore(s, run, u, raw, family, k - 1, s.now, s.now, s.users[u].lockedUntil);
  }

  lemma LaterAgain(s: State, run: seq<Label>, u: UserId, raw: RawToken, family: FamilyId, k: nat)
    requires Open(s, u) && k > FreeOf(s, u) && Reached(s, run, u, k - 1) && !IsIssued(s, raw) && !FamilyKnown(s, family)
    ensures Reached(s, run + [Tick(LOCKOUT_MS)] + [WrongPassword(u, raw, family)], u, k)
  {
    var last, next := LastAt(s, u, k - 1), LastAt(s, u, k);
    WaitLonger(s, run, u, k - 1, last, last, Some(next));
    OneMore(s, run + [Tick(LOCKOUT_MS)], u, raw, family, k - 1, last, next, Some(next));
  }

  lemma {:induction false} Attack(s: State, u: UserId, raw: RawToken, family: FamilyId, k: nat) returns (run: seq<Label>)
    requires Open(s, u) && !IsIssued(s, raw) && !FamilyKnown(s, family)
    ensures Reached(s, run, u, k)
    decreases k
  {
    if k == 0 {
      run := [];
      NoneYet(s, u, k);
    } else {
      var earlier := Attack(s, u, raw, family, k - 1);
      if k <= FreeOf(s, u) {
        run := earlier + [WrongPassword(u, raw, family)];
        SoonAgain(s, earlier, u, raw, family, k);
      } else {
        run := earlier + [Tick(LOCKOUT_MS)] + [WrongPassword(u, raw, family)];
        LaterAgain(s, earlier, u, raw, family, k);
      }
    }
  }

  /** The bound is met: from any state in which the user can log in, whatever the counter, and for every
    * k there is a legal run without a reset in which k checks fail, the last of them just one
    * lockout for each that was not free after the first. */
  lemma BoundIsReached(s: State, u: UserId, raw: RawToken, family: FamilyId, k: nat)
    requires Open(s, u) && !IsIssued(s, raw) && !FamilyKnown(s, family) && k >= FreeOf(s, u)
    ensures exists run: seq<Label> ::
              && Legal(s, run) && NoReset(s, run, u) && |FailTimes(s, run, u)| == k
              && FailTimes(s, run, u)[k - 1] == FailTimes(s, run, u)[0] + (k - FreeOf(s, u)) * LOCKOUT_MS
  {
    var run := Attack(s, u, raw, family, k);
  }
}
