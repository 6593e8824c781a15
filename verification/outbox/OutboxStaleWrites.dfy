/** When a processed or dead-lettered row can still change, with several pods. */
module OutboxStaleWrites {
  import opened Wrappers
  import opened OutboxRows
  import opened OutboxProtocol
  import opened OutboxCounts
  import opened OutboxManyPods

  /** Pod `p` holds a record of row `id` at place `k` of its batch. */
  ghost predicate Holds(s: State, p: PodId, k: nat, id: RowId) {
    PodOf(s, p).Busy? && k < |PodOf(s, p).batch| && PodOf(s, p).batch[k].id == id
  }

  /** The held record can only dead-letter the row, which is dead-lettered already. */
  ghost predicate Harmless(s: State, p: PodId, k: nat, id: RowId)
    requires Holds(s, p, k, id)
  {
    && k == 0
    && PodOf(s, p).published == Some(false)
    && id in s.rows && s.rows[id].status.DeadLetter?
    && PodOf(s, p).batch[0].retryCount + 1 >= PodOf(s, p).batch[0].maxRetries
  }

  ghost predicate Threatened(s: State, id: RowId) {
    exists p: PodId, k: nat :: Holds(s, p, k, id) && !Harmless(s, p, k, id)
  }

  ghost predicate Finished(s: State, id: RowId) {
    id in s.rows && Terminal(s.rows[id])
  }

  lemma StepKeepsUnthreatened(s: State, l: Label, id: RowId)
    requires Inv(s) && Enabled(s, l) && Finished(s, id) && !Threatened(s, id)
    ensures id in Apply(s, l).rows ==> Apply(s, l).rows[id] == s.rows[id] && !Threatened(Apply(s, l), id)
    ensures id !in Apply(s, l).rows ==> id in Apply(s, l).deleted
  {
    var s' := Apply(s, l);
    HeadIsKnown(s);
    ClaimedWasEligible(s, l, id);
    assert RowOk(s.rows[id], s.now);
    assert id in s.audit;
    if id in s'.rows {
      if l.Done? || l.Fail? {
        if PodOf(s, l.pod).batch[0].id == id {
          assert Holds(s, l.pod, 0, id);
        }
      }
      assert s'.rows[id] == s.rows[id];
      forall p: PodId, k: nat | Holds(s', p, k, id)
        ensures Harmless(s', p, k, id)
      {
        UnthreatenedPod(s, l, id, p, k);
      }
    }
  }

  lemma UnthreatenedPod(s: State, l: Label, id: RowId, p: PodId, k: nat)
    requires Inv(s) && Enabled(s, l) && Finished(s, id) && !Threatened(s, id)
    requires id in Apply(s, l).rows && Apply(s, l).rows[id] == s.rows[id]
    requires Holds(Apply(s, l), p, k, id)
    ensures Harmless(Apply(s, l), p, k, id)
  {
    NothingHeldAfterOutcome(s, l, id, p, k);
    ClaimedWasEligible(s, l, id);
    assert Holds(s, p, k, id);
  }

  /** A pod that just wrote an outcome has no record of an unthreatened row left. */
  lemma NothingHeldAfterOutcome(s: State, l: Label, id: RowId, p: PodId, k: nat)
    requires Inv(s) && Enabled(s, l) && !Threatened(s, id)
    ensures (l.Done? || l.Fail?) && l.pod == p ==> !Holds(Apply(s, l), p, k, id)
  {
    if (l.Done? || l.Fail?) && l.pod == p && Holds(Apply(s, l), p, k, id) {
      assert Holds(s, p, k + 1, id);
    }
  }

  lemma {:induction false} UnthreatenedIsFinal(s: State, run: seq<Label>, id: RowId)
    requires Inv(s) && Finished(s, id) && !Threatened(s, id) && Legal(s, run)
    ensures id in After(s, run).rows ==> After(s, run).rows[id] == s.rows[id] && !Threatened(After(s, run), id)
    ensures id !in After(s, run).rows ==> id in After(s, run).deleted
    decreases |run|
  {
    if run != [] {
      var shorter := run[..|run| - 1];
      var l := run[|run| - 1];
      UnthreatenedIsFinal(s, shorter, id);
      var mid := After(s, shorter);
      RunKeepsInv(s, shorter);
      if id in mid.rows {
        StepKeepsUnthreatened(mid, l, id);
      } else {
        assert id in mid.audit;
        RowsGrow(mid, l);
      }
    }
  }

  // ----- a record that can still do harm --------------------------------------

  ghost predicate Goes(s: State, run: seq<Label>, s': State) {
    Legal(s, run) && After(s, run) == s'
  }

  lemma GoesOn(s: State, first: seq<Label>, mid: State, second: seq<Label>, end: State)
    requires Goes(s, first, mid) && Goes(mid, second, end)
    ensures Goes(s, first + second, end)
  {
    LegalConcat(s, first, second);
  }

  /** Pod `p` gives up on the handler call of its first record, which is not for row `id`. */
  lemma SkipHead(s: State, p: PodId, id: RowId) returns (run: seq<Label>)
    requires Inv(s) && Finished(s, id)
    requires PodOf(s, p).Busy? && |PodOf(s, p).batch| > 1 && PodOf(s, p).batch[0].id != id
    ensures Legal(s, run)
    ensures id in After(s, run).rows && After(s, run).rows[id] == s.rows[id]
    ensures PodOf(After(s, run), p) == Busy(PodOf(s, p).batch[1..], None)
  {
    match PodOf(s, p).published
    case Some(ok) =>
      if ok {
        run := TwoSteps(s, DoneLost(p), Fail(p));
      } else {
        OneStep(s, Fail(p));
        run := [Fail(p)];
      }
    case None =>
      run := TwoSteps(s, Publish(p, false), Fail(p));
  }

  lemma TwoSteps(s: State, first: Label, second: Label) returns (run: seq<Label>)
    requires Enabled(s, first) && Enabled(Apply(s, first), second)
    ensures run == [first, second] && Legal(s, run) && After(s, run) == Apply(Apply(s, first), second)
  {
    OneStep(Apply(s, first), second);
    StepThenRun(s, first, [second]);
    run := [first] + [second];
  }

  /** The first record of pod `p` is for the finished row `id` and can change it. */
  lemma StrikeHead(s: State, p: PodId, id: RowId) returns (run: seq<Label>)
    requires Inv(s) && Finished(s, id)
    requires Holds(s, p, 0, id) && !Harmless(s, p, 0, id)
    ensures Legal(s, run) && id in After(s, run).rows && After(s, run).rows[id] != s.rows[id]
  {
    HeadIsKnown(s);
    match PodOf(s, p).published
    case Some(ok) =>
      if ok && s.rows[id].status.Processed? {
        run := TwoSteps(s, DoneLost(p), Fail(p));
      } else {
        var last := if ok then Done(p) else Fail(p);
        OneStep(s, last);
        run := [last];
      }
    case None =>
      if s.rows[id].status.Processed? {
        run := TwoSteps(s, Publish(p, false), Fail(p));
      } else {
        run := TwoSteps(s, Publish(p, true), Done(p));
      }
  }

  lemma {:induction false} Strike(s: State, p: PodId, k: nat, id: RowId) returns (run: seq<Label>, end: State)
    requires Inv(s) && Finished(s, id)
    requires Holds(s, p, k, id) && !Harmless(s, p, k, id)
    ensures Goes(s, run, end) && id in end.rows && end.rows[id] != s.rows[id]
    decreases k
  {
    if k == 0 {
      run := StrikeHead(s, p, id);
      end := After(s, run);
    } else {
      var first, mid := SkipTo(s, p, k, id);
      var rest;
      rest, end := Strike(mid, p, k - 1, id);
      GoesOn(s, first, mid, rest, end);
      run := first + rest;
    }
  }

  /** Past the head of the batch nothing has changed for the record further down. */
  lemma SkipTo(s: State, p: PodId, k: nat, id: RowId) returns (run: seq<Label>, mid: State)
    requires Inv(s) && Finished(s, id) && k > 0
    requires Holds(s, p, k, id) && !Harmless(s, p, k, id)
    ensures Goes(s, run, mid) && Inv(mid) && id in mid.rows && mid.rows[id] == s.rows[id]
    ensures Holds(mid, p, k - 1, id) && !Harmless(mid, p, k - 1, id)
  {
    assert PodOk(s, s.pods[p]);
    run := SkipHead(s, p, id);
    mid := After(s, run);
    RunKeepsInv(s, run);
  }

  ghost predicate CanChange(s: State, id: RowId)
    requires id in s.rows
  {
    exists run :: Legal(s, run) && id in After(s, run).rows && After(s, run).rows[id] != s.rows[id]
  }

  /** With any number of pods a processed or dead-lettered row can still change if and only if
    * some pod holds a record of it that is not spent. */
  lemma FinishedRowCanChangeIff(s: State, id: RowId)
    requires Inv(s) && Finished(s, id)
    ensures CanChange(s, id) <==> Threatened(s, id)
  {
    if Threatened(s, id) {
      var p: PodId, k: nat :| Holds(s, p, k, id) && !Harmless(s, p, k, id);
      var run, end := Strike(s, p, k, id);
    } else {
      forall run | Legal(s, run)
        ensures id in After(s, run).rows ==> After(s, run).rows[id] == s.rows[id]
      {
        UnthreatenedIsFinal(s, run, id);
      }
    }
  }

  // ----- how long a finished row is kept -------------------------------------------

  ghost predicate DeadLettered(s: State, id: RowId) {
    id in s.rows && s.rows[id].status.DeadLetter?
  }

  /** Whatever happens up to time `t`, the row is in the table. */
  ghost predicate KeptUntil(s: State, id: RowId, t: int) {
    forall run :: Legal(s, run) && After(s, run).now <= t ==> id in After(s, run).rows
  }

  /** Thirty days after it was created for a dead-lettered row, seven days after it was processed for a
    * processed one. */
  function RetentionEnd(r: Row): int {
    if r.status.Processed? && r.processedAt.Some? then r.processedAt.value + 7 * 24 * 3_600_000
    else r.createdAt + 30 * 24 * 3_600_000
  }

  lemma ClockRuns(s: State, l: Label)
    requires Enabled(s, l)
    ensures s.now <= Apply(s, l).now
  {
  }

  lemma {:induction false} KeptUntilRetention(s: State, run: seq<Label>, id: RowId)
    requires Inv(s) && Finished(s, id) && !Threatened(s, id) && Legal(s, run)
    requires After(s, run).now < RetentionEnd(s.rows[id])
    ensures id in After(s, run).rows
    decreases |run|
  {
    if run != [] {
      var shorter, l := run[..|run| - 1], run[|run| - 1];
      var mid := After(s, shorter);
      ClockRuns(mid, l);
      KeptUntilRetention(s, shorter, id);
      UnthreatenedIsFinal(s, shorter, id);
      RowsGrow(mid, l);
    }
  }

  lemma WaitAndClean(s: State, id: RowId, t: int) returns (run: seq<Label>)
    requires Inv(s) && Finished(s, id) && s.now <= t && RetentionEnd(s.rows[id]) <= t
    ensures Legal(s, run) && After(s, run).now == t && id !in After(s, run).rows
  {
    var clean := Cleanup(s.rows[id].status.Processed?);
    assert RowOk(s.rows[id], s.now);
    if t > s.now {
      run := TwoSteps(s, Tick(t - s.now), clean);
    } else {
      OneStep(s, clean);
      run := [clean];
    }
  }

  /** A finished row nobody can still write to is kept until time `t` exactly if `t` comes before the end
    * of its retention: it goes neither too early nor does it stay. */
  lemma FinishedKeptIff(s: State, id: RowId, t: int)
    requires Inv(s) && Finished(s, id) && !Threatened(s, id) && t >= s.now
    ensures KeptUntil(s, id, t) <==> t < RetentionEnd(s.rows[id])
  {
    if t < RetentionEnd(s.rows[id]) {
      forall run | Legal(s, run) && After(s, run).now <= t
        ensures id in After(s, run).rows
      {
        KeptUntilRetention(s, run, id);
      }
    } else {
      var run := WaitAndClean(s, id, t);
    }
  }

  /** A processed row is kept until `t` exactly if `t` comes before seven days from its processing. */
  lemma ProcessedKeptIff(s: State, id: RowId, t: int)
    requires Inv(s) && Finished(s, id) && s.rows[id].status.Processed? && !Threatened(s, id) && t >= s.now
    ensures s.rows[id].processedAt.Some?
    ensures KeptUntil(s, id, t) <==> t < s.rows[id].processedAt.value + PROCESSED_RETENTION_DAYS * DAY_MS
  {
    assert RowOk(s.rows[id], s.now);
    FinishedKeptIff(s, id, t);
  }

  /** The event whose processing pod `p` records now is kept for seven days from now, and no longer. */
  lemma CompletedKeptIff(s: State, p: PodId, t: int)
    requires Inv(s) && Enabled(s, Done(p)) && PodOf(s, p).batch[0].id in s.rows && t >= s.now
    requires !Threatened(Apply(s, Done(p)), PodOf(s, p).batch[0].id)
    ensures var id, s' := PodOf(s, p).batch[0].id, Apply(s, Done(p));
      && s'.rows[id].status.Processed? && s'.rows[id].processedAt == Some(s.now)
      && (KeptUntil(s', id, t) <==> t < s.now + 7 * 24 * 3_600_000)
  {
    StepKeepsInv(s, Done(p));
    ProcessedKeptIff(Apply(s, Done(p)), PodOf(s, p).batch[0].id, t);
  }

  /** An unthreatened dead-lettered row is kept until time `t` exactly if `t` comes before the end of
    * thirty days from its creation; when it was dead-lettered plays no part. */
  lemma DeadLetterKeptIff(s: State, id: RowId, t: int)
    requires Inv(s) && DeadLettered(s, id) && !Threatened(s, id) && t >= s.now
    ensures KeptUntil(s, id, t) <==> t < s.rows[id].createdAt + DEAD_LETTER_RETENTION_DAYS * DAY_MS
  {
    FinishedKeptIff(s, id, t);
  }

  /** Pod `p` is about to write the last failure that its first record allows. */
  ghost predicate AboutToDeadLetter(s: State, p: PodId) {
    && Published(PodOf(s, p), false)
    && PodOf(s, p).batch[0].retryCount + 1 >= PodOf(s, p).batch[0].maxRetries
    && PodOf(s, p).batch[0].id in s.rows
  }

  /** The promised thirty days for review, from the failure that dead-letters on, are kept if and only
    * if the event was written in that same instant. */
  lemma FullReviewIff(s: State, p: PodId)
    requires Inv(s) && AboutToDeadLetter(s, p)
    requires !Threatened(Apply(s, Fail(p)), PodOf(s, p).batch[0].id)
    ensures var id := PodOf(s, p).batch[0].id;
      && DeadLettered(Apply(s, Fail(p)), id)
      && (KeptUntil(Apply(s, Fail(p)), id, s.now + DEAD_LETTER_RETENTION_DAYS * DAY_MS - 1) <==> s.rows[id].createdAt == s.now)
  {
    var id := PodOf(s, p).batch[0].id;
    assert RowOk(s.rows[id], s.now);
    StepKeepsInv(s, Fail(p));
    DeadLetterKeptIff(Apply(s, Fail(p)), id, s.now + DEAD_LETTER_RETENTION_DAYS * DAY_MS - 1);
  }

  /** For a row that is thirty days old by then, there is no time for review at all: cleanup may take
    * it in the instant it is dead-lettered. */
  lemma DeadLetteredAndGone(s: State, p: PodId)
    requires AboutToDeadLetter(s, p)
    requires s.rows[PodOf(s, p).batch[0].id].createdAt + DEAD_LETTER_RETENTION_DAYS * DAY_MS <= s.now
    ensures var id, run := PodOf(s, p).batch[0].id, [Fail(p), Cleanup(false)];
      && Legal(s, run) && DeadLettered(Apply(s, Fail(p)), id)
      && id !in After(s, run).rows && After(s, run).now == s.now
  {
    var run := TwoSteps(s, Fail(p), Cleanup(false));
  }

  // ----- it happens with two pods ---------------------------------------------

  /** The table holds one pending row, no pod has read it since, and nothing was delivered. */
  function OneRow(now: int, pods: map<PodId, Pod>, claims: nat, reclaims: nat, publishes: nat): State {
    State(now, map[0 := NewRow(0)], pods, map[0 := Audit(claims, reclaims, publishes, 0)], map[])
  }

  function OneClaimedRow(now: int, since: int, pods: map<PodId, Pod>, claims: nat, reclaims: nat): State {
    State(now, map[0 := Claimed(NewRow(0), since)], pods, map[0 := Audit(claims, reclaims, 0, 0)], map[])
  }

  const FIRST_BATCH := Busy([Record(0, 0, MAX_RETRIES)], None)

  ghost predicate Step(s: State, l: Label, s': State) {
    Enabled(s, l) && Apply(s, l) == s'
  }

  lemma ThreeSteps(s: State, l1: Label, s1: State, l2: Label, s2: State, l3: Label, s3: State)
    requires Step(s, l1, s1) && Step(s1, l2, s2) && Step(s2, l3, s3)
    ensures Goes(s, [l1, l2, l3], s3)
  {
    var run := TwoSteps(s1, l2, l3);
    StepThenRun(s, l1, run);
    assert [l1] + run == [l1, l2, l3];
  }

  const POD_0 := map[0 := FIRST_BATCH]
  const POD_1_READY := map[0 := FIRST_BATCH, 1 := Reclaiming]
  const BOTH_PODS := map[0 := FIRST_BATCH, 1 := FIRST_BATCH]
  const BOTH_HOLD := OneClaimedRow(STUCK_TIMEOUT_MS, STUCK_TIMEOUT_MS, BOTH_PODS, 2, 1)

  lemma WriteSoleRow()
    ensures Step(Init(0), Write({0}), OneRow(0, map[], 0, 0, 0))
  {
  }

  lemma ReclaimFreshRow()
    ensures Step(OneRow(0, map[], 0, 0, 0), Reclaim(0), OneRow(0, map[0 := Reclaiming], 0, 0, 0))
  {
  }

  lemma ReclaimStuckRow()
    ensures Step(OneClaimedRow(STUCK_TIMEOUT_MS, 0, POD_0, 1, 0), Reclaim(1),
                 OneRow(STUCK_TIMEOUT_MS, POD_1_READY, 1, 1, 0))
  {
  }

  lemma ClaimSoleRow(now: int, pods: map<PodId, Pod>, p: PodId, claims: nat, reclaims: nat)
    requires p in pods && pods[p] == Reclaiming
    ensures Step(OneRow(now, pods, claims, reclaims, 0), Claim(p, [0], {}),
                 OneClaimedRow(now, now, pods[p := FIRST_BATCH], claims + 1, reclaims))
  {
    var s := OneRow(now, pods, claims, reclaims, 0);
    assert Ids([0]) == {0};
    assert Candidates(s.rows, now, {}) == {0};
    assert ClaimAll(s.rows, {0}, now) == map[0 := Claimed(NewRow(0), now)];
    assert Snapshot(s.rows, [0]) == [Record(0, 0, MAX_RETRIES)];
    assert CountClaims(s.audit, {0}) == map[0 := Audit(claims + 1, reclaims, 0, 0)];
  }

  predicate NothingFails(run: seq<Label>) {
    forall l :: l in run ==> !l.DoneLost? && !l.Fail? && !l.FailLost? && !l.Crash? && (l.Publish? ==> l.ok)
  }

  const POD_0_CLAIMS := [Write({0}), Reclaim(0), Claim(0, [0], {})]
  const POD_1_CLAIMS := [Tick(STUCK_TIMEOUT_MS), Reclaim(1), Claim(1, [0], {})]

  const HELD := OneClaimedRow(0, 0, POD_0, 1, 0)

  lemma PodZeroClaims()
    ensures Goes(Init(0), POD_0_CLAIMS, HELD)
  {
    WriteSoleRow();
    ReclaimFreshRow();
    ClaimSoleRow(0, map[0 := Reclaiming], 0, 0, 0);
    assert map[0 := Reclaiming][0 := FIRST_BATCH] == POD_0;
    ThreeSteps(Init(0), Write({0}), OneRow(0, map[], 0, 0, 0),
               Reclaim(0), OneRow(0, map[0 := Reclaiming], 0, 0, 0), Claim(0, [0], {}), HELD);
  }

  lemma PodOneClaims()
    ensures Goes(HELD, POD_1_CLAIMS, BOTH_HOLD)
  {
    ReclaimStuckRow();
    ClaimSoleRow(STUCK_TIMEOUT_MS, POD_1_READY, 1, 1, 1);
    assert POD_1_READY[1 := FIRST_BATCH] == BOTH_PODS;
    ThreeSteps(HELD, Tick(STUCK_TIMEOUT_MS), OneClaimedRow(STUCK_TIMEOUT_MS, 0, POD_0, 1, 0),
               Reclaim(1), OneRow(STUCK_TIMEOUT_MS, POD_1_READY, 1, 1, 0), Claim(1, [0], {}), BOTH_HOLD);
  }

  /** Pod 0 claims a row and stalls for five minutes; pod 1 reclaims the row and claims it. */
  lemma TwoPodsHoldOneRow()
    ensures Goes(Init(0), POD_0_CLAIMS + POD_1_CLAIMS, BOTH_HOLD)
  {
    PodZeroClaims();
    PodOneClaims();
    GoesOn(Init(0), POD_0_CLAIMS, HELD, POD_1_CLAIMS, BOTH_HOLD);
  }

  ghost predicate EndsWith(run: seq<Label>, status: Status) {
    Legal(Init(0), run) && 0 in After(Init(0), run).rows && After(Init(0), run).rows[0].status == status
  }

  lemma PodDelivers(s: State, p: PodId, other: PodId) returns (run: seq<Label>, end: State)
    requires PodOf(s, p) == FIRST_BATCH && 0 in s.rows && 0 in s.audit && p != other
    ensures run == [Publish(p, true), Done(p)] && Goes(s, run, end)
    ensures 0 in end.rows && end.rows[0].status.Processed?
    ensures PodOf(end, other) == PodOf(s, other)
    ensures 0 in end.audit && end.audit[0].publishes == s.audit[0].publishes + 1
  {
    run := TwoSteps(s, Publish(p, true), Done(p));
    end := After(s, run);
  }

  /** A processed row can be failed, and so delivered, again. */
  lemma ProcessedRowFailsAgain() returns (delivered: seq<Label>, run: seq<Label>)
    ensures delivered <= run && EndsWith(delivered, Processed) && EndsWith(run, Failed)
  {
    TwoPodsHoldOneRow();
    var start := POD_0_CLAIMS + POD_1_CLAIMS;
    var first, s := PodDelivers(BOTH_HOLD, 1, 0);
    GoesOn(Init(0), start, BOTH_HOLD, first, s);
    delivered := start + first;
    var second := TwoSteps(s, Publish(0, false), Fail(0));
    GoesOn(Init(0), delivered, s, second, After(s, second));
    run := delivered + second;
  }

  const BOTH_DELIVER := POD_0_CLAIMS + POD_1_CLAIMS + [Publish(1, true), Done(1)] + [Publish(0, true), Done(0)]

  lemma BothDeliverCleanly()
    ensures NothingFails(BOTH_DELIVER)
  {
  }

  lemma BothPodsDeliver() returns (end: State)
    ensures Goes(Init(0), BOTH_DELIVER, end) && 0 in end.audit && end.audit[0].publishes == 2
  {
    TwoPodsHoldOneRow();
    var start := POD_0_CLAIMS + POD_1_CLAIMS;
    var first, s := PodDelivers(BOTH_HOLD, 1, 0);
    GoesOn(Init(0), start, BOTH_HOLD, first, s);
    var second;
    second, end := PodDelivers(s, 0, 1);
    GoesOn(Init(0), start + first, s, second, end);
  }

  /** SKIP LOCKED does not stop double delivery: two pods can both deliver one event although
    * no handler call, no database write and no pod fails. */
  lemma DeliveredTwiceWithoutFailure()
    ensures exists run :: Legal(Init(0), run) && NothingFails(run) && CountIn(Init(0), run, DeliveriesOf(0)) == 2
  {
    var end := BothPodsDeliver();
    BothDeliverCleanly();
    DeliveriesMatchRun(0, BOTH_DELIVER, 0);
  }
}

