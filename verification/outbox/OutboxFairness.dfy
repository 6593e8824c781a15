/** Bounded waiting under one dispatcher: failed rows come back ahead of a newer event, yet the
  * number of polls that can pass it over is bounded by the attempts its elders have left.
  */
module OutboxFairness {
  import opened OutboxRows
  import opened OutboxProtocol
  import opened OutboxCounts
  import opened OutboxManyPods
  import opened OutboxStaleWrites
  import opened OutboxSoleDispatcher

  /** Attempts the row still has: maxRetries - retryCount, or none once it is terminal. */
  function AttemptsLeft(r: Row): int {
    if Terminal(r) then 0 else r.maxRetries - r.retryCount
  }

  /** Row `i` was created no later than `cutoff` and competes with event `e`. */
  predicate Elder(rows: Table, e: RowId, cutoff: int, i: RowId) {
    i in rows && i != e && rows[i].createdAt <= cutoff
  }

  /** The attempts left to the elders of `e` among the rows numbered below `n`. */
  function Backlog(rows: Table, e: RowId, cutoff: int, n: nat): int {
    if n == 0 then 0
    else
      Backlog(rows, e, cutoff, n - 1)
      + (if Elder(rows, e, cutoff, n - 1) then AttemptsLeft(rows[n - 1]) else 0)
  }

  function InMemory(pod: Pod): set<RowId> {
    if pod.Busy? then set k | 0 <= k < |pod.batch| :: pod.batch[k].id else {}
  }

  /** An elder's attempts left, less the one it is spending now. */
  function Net(s: State, e: RowId, cutoff: int, i: RowId): int {
    if Elder(s.rows, e, cutoff, i) then AttemptsLeft(s.rows[i]) - One(i in InMemory(PodOf(s, 0))) else 0
  }

  function NetSum(s: State, e: RowId, cutoff: int, n: nat): int {
    if n == 0 then 0 else NetSum(s, e, cutoff, n - 1) + Net(s, e, cutoff, n - 1)
  }

  function CountBelow(ids: set<RowId>, n: nat): nat {
    if n == 0 then 0 else CountBelow(ids, n - 1) + One(n - 1 in ids)
  }

  lemma {:induction false} CountBelowIsCardinality(ids: set<RowId>, n: nat)
    requires forall id :: id in ids ==> id < n
    ensures CountBelow(ids, n) == |ids|
    decreases n
  {
    if n == 0 {
      assert ids == {};
    } else {
      var rest := ids - {n - 1};
      CountBelowIsCardinality(rest, n - 1);
      SameBelow(ids, rest, n - 1);
      if n - 1 in ids {
        assert ids == rest + {n - 1};
      } else {
        assert ids == rest;
      }
    }
  }

  lemma {:induction false} SameBelow(a: set<RowId>, b: set<RowId>, n: nat)
    requires forall i :: 0 <= i < n ==> (i in a <==> i in b)
    ensures CountBelow(a, n) == CountBelow(b, n)
  {
    if n > 0 {
      SameBelow(a, b, n - 1);
    }
  }

  lemma {:induction false} CountBelowAtMost(ids: set<RowId>, n: nat)
    ensures CountBelow(ids, n) <= |ids|
    decreases n
  {
    var below := set i | i in ids && i < n;
    CountBelowIsCardinality(below, n);
    SameBelow(ids, below, n);
    Subset(below, ids);
  }

  lemma Subset(a: set<RowId>, b: set<RowId>)
    requires a <= b
    ensures |a| <= |b|
  {
    assert b == a + (b - a);
  }

  lemma {:induction false} NetSumNonNegative(s: State, e: RowId, cutoff: int, n: nat)
    requires SoleInv(s)
    ensures 0 <= NetSum(s, e, cutoff, n) <= Backlog(s.rows, e, cutoff, n)
  {
    if n > 0 {
      NetSumNonNegative(s, e, cutoff, n - 1);
      if Elder(s.rows, e, cutoff, n - 1) {
        assert RowOk(s.rows[n - 1], s.now);
        if n - 1 in InMemory(PodOf(s, 0)) {
          var k :| 0 <= k < |PodOf(s, 0).batch| && PodOf(s, 0).batch[k].id == n - 1;
        }
      }
    }
  }

  lemma {:induction false} NetSumDrops(s: State, s': State, e: RowId, cutoff: int, ids: set<RowId>, n: nat)
    requires forall i: RowId :: i < n ==> Net(s', e, cutoff, i) <= Net(s, e, cutoff, i) - One(i in ids)
    ensures NetSum(s', e, cutoff, n) <= NetSum(s, e, cutoff, n) - CountBelow(ids, n)
  {
    if n > 0 {
      NetSumDrops(s, s', e, cutoff, ids, n - 1);
    }
  }

  lemma {:induction false} NetSumRises(s: State, s': State, e: RowId, cutoff: int, ids: set<RowId>, n: nat)
    requires forall i: RowId :: i < n ==> Net(s', e, cutoff, i) <= Net(s, e, cutoff, i) + One(i in ids)
    ensures NetSum(s', e, cutoff, n) <= NetSum(s, e, cutoff, n) + CountBelow(ids, n)
  {
    if n > 0 {
      NetSumRises(s, s', e, cutoff, ids, n - 1);
    }
  }

  // ----- one step -------------------------------------------------------------

  ghost predicate Waiting(s: State, e: RowId, cutoff: int) {
    e in s.rows && Eligible(s.rows[e], s.now) && s.rows[e].createdAt == cutoff
  }

  lemma StepKeepsWaiting(s: State, l: Label, e: RowId, cutoff: int)
    requires SoleInv(s) && Enabled(s, l) && SoleLabel(l) && Waiting(s, e, cutoff) && !Claims(l, e)
    ensures Waiting(Apply(s, l), e, cutoff)
  {
    assert e in s.audit;
    HeadIsKnown(s);
    if l.Done? || l.Fail? {
      assert Holds(s, 0, 0, PodOf(s, 0).batch[0].id);
      OnlyProcessingRowsAreHeld(s, PodOf(s, 0).batch[0].id);
    }
  }

  /** A poll that passes over a waiting event takes fifty of its elders. */
  lemma SkippingPollTakesElders(s: State, l: Label, e: RowId, cutoff: int)
    requires Enabled(s, l) && SoleLabel(l) && Waiting(s, e, cutoff) && l.Claim? && !Claims(l, e)
    ensures |Ids(l.order)| == 50
    ensures forall i :: i in Ids(l.order) ==> Elder(s.rows, e, cutoff, i)
  {
    assert e in Candidates(s.rows, s.now, {}) && e !in Ids(l.order);
  }

  lemma ClaimMovesNet(s: State, l: Label, e: RowId, cutoff: int, i: RowId)
    requires SoleInv(s) && Enabled(s, l) && SoleLabel(l) && Waiting(s, e, cutoff) && l.Claim? && !Claims(l, e)
    ensures Net(Apply(s, l), e, cutoff, i) <= Net(s, e, cutoff, i) - One(i in Ids(l.order))
  {
    SkippingPollTakesElders(s, l, e, cutoff);
    ClaimFillsMemory(s, l);
    assert PodOf(s, 0).Reclaiming?;
    if i in s.rows {
      assert NextRows(s, l)[i] == if i in Ids(l.order) then Claimed(s.rows[i], s.now) else s.rows[i];
      ClaimedKeepsAttempts(s.rows[i], s.now);
    }
  }

  lemma ClaimFillsMemory(s: State, l: Label)
    requires Enabled(s, l) && l.Claim?
    ensures InMemory(PodOf(Apply(s, l), l.pod)) == Ids(l.order)
  {
    var batch := Snapshot(s.rows, l.order) by {
      assert forall id :: id in l.order ==> id in Ids(l.order);
    }
    forall i | i in Ids(l.order)
      ensures i in InMemory(PodOf(Apply(s, l), l.pod))
    {
      var k :| 0 <= k < |l.order| && l.order[k] == i;
      assert batch[k].id == i;
    }
  }

  lemma ClaimedKeepsAttempts(r: Row, now: int)
    ensures !Terminal(r) ==> AttemptsLeft(Claimed(r, now)) == AttemptsLeft(r)
    ensures Claimed(r, now).createdAt == r.createdAt
  {
  }

  lemma OutcomeMovesNet(s: State, l: Label, e: RowId, cutoff: int, i: RowId)
    requires SoleInv(s) && Enabled(s, l) && SoleLabel(l) && (l.Done? || l.Fail?)
    ensures Net(Apply(s, l), e, cutoff, i) <= Net(s, e, cutoff, i)
  {
    HeadIsKnown(s);
    assert PodOk(s, s.pods[0]);
    var batch := PodOf(s, 0).batch;
    assert forall k :: 1 <= k < |batch| ==> batch[k] == batch[1..][k - 1];
    if i in s.rows {
      assert RowOk(s.rows[i], s.now);
    }
    assert batch[0].id in InMemory(PodOf(s, 0));
    assert i in InMemory(PodOf(s, 0)) && i != batch[0].id ==> i in InMemory(PodOf(Apply(s, l), 0));
  }

  lemma OtherStepMovesNet(s: State, l: Label, e: RowId, cutoff: int, i: RowId)
    requires SoleInv(s) && Enabled(s, l) && SoleLabel(l) && Waiting(s, e, cutoff)
    requires !l.Claim? && !l.Done? && !l.Fail?
    requires l.Write? ==> s.now > cutoff
    ensures Net(Apply(s, l), e, cutoff, i) <=
      Net(s, e, cutoff, i) + One((l.Crash? || l.FailLost?) && i in InMemory(PodOf(s, 0)))
  {
    if i in s.rows {
      assert RowOk(s.rows[i], s.now);
      assert i in s.audit;
    }
  }

  function AbandonedIds(s: State, l: Label): set<RowId> {
    if l.Crash? || l.FailLost? then InMemory(PodOf(s, l.pod)) else {}
  }

  lemma {:induction false} IdsAtMost(batch: seq<Record>)
    ensures |set k | 0 <= k < |batch| :: batch[k].id| <= |batch|
    decreases |batch|
  {
    var all := set k | 0 <= k < |batch| :: batch[k].id;
    if batch == [] {
      assert all == {};
    } else {
      var shorter := batch[..|batch| - 1];
      var fewer := set k | 0 <= k < |shorter| :: shorter[k].id;
      IdsAtMost(shorter);
      forall id | id in all
        ensures id in fewer + {batch[|batch| - 1].id}
      {
        var k :| 0 <= k < |batch| && batch[k].id == id;
        if k < |shorter| {
          assert shorter[k].id == id;
        }
      }
      Subset(all, fewer + {batch[|batch| - 1].id});
    }
  }

  lemma HeldRecords(s: State, l: Label)
    requires Enabled(s, l)
    ensures |AbandonedIds(s, l)| <= StepCount(s, l, Abandoned)
  {
    if (l.Crash? || l.FailLost?) && PodOf(s, l.pod).Busy? {
      IdsAtMost(PodOf(s, l.pod).batch);
    }
  }

  lemma StepMovesNetSum(s: State, l: Label, e: RowId, cutoff: int, n: nat)
    requires SoleInv(s) && Enabled(s, l) && SoleLabel(l) && Waiting(s, e, cutoff) && !Claims(l, e)
    requires l.Write? ==> s.now > cutoff
    requires forall i: RowId :: Elder(s.rows, e, cutoff, i) ==> i < n
    ensures NetSum(Apply(s, l), e, cutoff, n) + (if l.Claim? then BATCH_SIZE else 0)
      <= NetSum(s, e, cutoff, n) + StepCount(s, l, Abandoned)
  {
    var s' := Apply(s, l);
    if l.Claim? {
      SkippingPollTakesElders(s, l, e, cutoff);
      forall i: RowId | i < n
        ensures Net(s', e, cutoff, i) <= Net(s, e, cutoff, i) - One(i in Ids(l.order))
      {
        ClaimMovesNet(s, l, e, cutoff, i);
      }
      NetSumDrops(s, s', e, cutoff, Ids(l.order), n);
      CountBelowIsCardinality(Ids(l.order), n);
    } else {
      var ids := AbandonedIds(s, l);
      forall i: RowId | i < n
        ensures Net(s', e, cutoff, i) <= Net(s, e, cutoff, i) + One(i in ids)
      {
        if l.Done? || l.Fail? {
          OutcomeMovesNet(s, l, e, cutoff, i);
        } else {
          OtherStepMovesNet(s, l, e, cutoff, i);
        }
      }
      NetSumRises(s, s', e, cutoff, ids, n);
      CountBelowAtMost(ids, n);
      HeldRecords(s, l);
    }
  }

  lemma StepKeepsElders(s: State, l: Label, e: RowId, cutoff: int, n: nat)
    requires Inv(s) && Enabled(s, l) && (l.Write? ==> s.now > cutoff)
    requires forall i: RowId :: Elder(s.rows, e, cutoff, i) ==> i < n
    ensures forall i: RowId :: Elder(Apply(s, l).rows, e, cutoff, i) ==> i < n
  {
    forall i: RowId | Elder(Apply(s, l).rows, e, cutoff, i)
      ensures Elder(s.rows, e, cutoff, i)
    {
    }
  }

  // ----- whole runs -----------------------------------------------------------

  predicate NeverClaimed(run: seq<Label>, e: RowId) {
    forall k :: 0 <= k < |run| ==> !Claims(run[k], e)
  }

  /** The event waits, and its elders are numbered below `n`. */
  ghost predicate Queued(s: State, e: RowId, cutoff: int, n: nat) {
    SoleInv(s) && Waiting(s, e, cutoff) && forall i: RowId :: Elder(s.rows, e, cutoff, i) ==> i < n
  }

  lemma StepInQueue(s: State, l: Label, e: RowId, cutoff: int, n: nat)
    requires Queued(s, e, cutoff, n) && Enabled(s, l) && SoleLabel(l) && !Claims(l, e)
    requires StepCount(s, l, EarlyWrites(cutoff)) == 0
    ensures Queued(Apply(s, l), e, cutoff, n)
    ensures NetSum(Apply(s, l), e, cutoff, n) + BATCH_SIZE * StepCount(s, l, Polls)
      <= NetSum(s, e, cutoff, n) + StepCount(s, l, Abandoned)
  {
    SoleStepKeepsInv(s, l);
    StepKeepsWaiting(s, l, e, cutoff);
    StepKeepsElders(s, l, e, cutoff, n);
    StepMovesNetSum(s, l, e, cutoff, n);
  }

  lemma {:induction false} RunInQueue(s: State, run: seq<Label>, e: RowId, cutoff: int, n: nat)
    requires Queued(s, e, cutoff, n) && Legal(s, run) && Sole(run) && NeverClaimed(run, e)
    requires CountIn(s, run, EarlyWrites(cutoff)) == 0
    ensures Queued(After(s, run), e, cutoff, n)
    ensures NetSum(After(s, run), e, cutoff, n) + BATCH_SIZE * CountIn(s, run, Polls)
      <= NetSum(s, e, cutoff, n) + CountIn(s, run, Abandoned)
    decreases |run|
  {
    if run != [] {
      var shorter, l := run[..|run| - 1], run[|run| - 1];
      assert forall k :: 0 <= k < |shorter| ==> shorter[k] == run[k];
      RunInQueue(s, shorter, e, cutoff, n);
      StepInQueue(After(s, shorter), l, e, cutoff, n);
    }
  }

  /** Every poll that passes over a waiting event uses up fifty of the attempts its elders have
    * left; only work cut short gives attempts back. */
  lemma SkippedPollsAreBounded(now: int, past: seq<Label>, run: seq<Label>, e: RowId, n: nat)
    requires Legal(Init(now), past) && Sole(past)
    requires var s := After(Init(now), past);
      && Legal(s, run) && Sole(run) && NeverClaimed(run, e)
      && e in s.rows && Eligible(s.rows[e], s.now) && CountIn(s, run, EarlyWrites(s.rows[e].createdAt)) == 0
      && (forall i :: i in s.rows ==> i < n)
    ensures var s := After(Init(now), past);
      BATCH_SIZE * CountIn(s, run, Polls) <= Backlog(s.rows, e, s.rows[e].createdAt, n) + CountIn(s, run, Abandoned)
  {
    SoleFromInit(now, past);
    var s := After(Init(now), past);
    var cutoff := s.rows[e].createdAt;
    RunInQueue(s, run, e, cutoff, n);
    NetSumNonNegative(s, e, cutoff, n);
    NetSumNonNegative(After(s, run), e, cutoff, n);
  }

  /** Bounded waiting: a waiting event is claimed within (S + A) / 50 + 1 polls, where S is the number
    * of attempts left to its elders and A the work cut short meanwhile. */
  lemma ClaimedWithinBoundedPolls(now: int, past: seq<Label>, run: seq<Label>, e: RowId, n: nat)
    requires Legal(Init(now), past) && Sole(past)
    requires var s := After(Init(now), past);
      && Legal(s, run) && Sole(run)
      && e in s.rows && Eligible(s.rows[e], s.now) && CountIn(s, run, EarlyWrites(s.rows[e].createdAt)) == 0
      && (forall i :: i in s.rows ==> i < n)
      && CountIn(s, run, Polls)
           >= (Backlog(s.rows, e, s.rows[e].createdAt, n) + CountIn(s, run, Abandoned)) / BATCH_SIZE + 1
    ensures exists k :: 0 <= k < |run| && Claims(run[k], e)
  {
    if NeverClaimed(run, e) {
      SkippedPollsAreBounded(now, past, run, e, n);
      assert false;
    }
  }

  /** If every poll runs to completion, nothing is cut short. */
  lemma {:induction false} UnbrokenAbandonsNothing(s: State, run: seq<Label>)
    requires Legal(s, run) && forall l :: l in run ==> !l.Crash? && !l.FailLost?
    ensures CountIn(s, run, Abandoned) == 0
    decreases |run|
  {
    if run != [] {
      assert run[|run| - 1] in run;
      UnbrokenAbandonsNothing(s, run[..|run| - 1]);
    }
  }
}
