/** What every run keeps, whatever the number of pods, crashes, lost writes and stale writes. */
module OutboxManyPods {
  import opened Wrappers
  import opened OutboxRows
  import opened OutboxProtocol
  import opened OutboxCounts

  // ----- the invariant ------------------------------------------------------

  ghost predicate RowOk(r: Row, now: int) {
    && r.maxRetries == MAX_RETRIES
    && r.createdAt <= now
    && (r.status.Pending? || r.status.Processing? || r.status.Failed? ==> r.retryCount < r.maxRetries)
    && (r.status.DeadLetter? ==> r.retryCount == r.maxRetries)
    && r.retryCount <= r.maxRetries
    && (r.status.Processing? <==> r.processingStartedAt.Some?)
    && (r.status.Processing? ==> r.processingStartedAt.value <= now)
    && (r.status.Failed? ==> r.nextRetryAt.Some?)
    && (r.status.Processed? ==> r.processedAt.Some? && r.processedAt.value <= now)
  }

  ghost predicate PodOk(s: State, pod: Pod) {
    pod.Busy? ==>
      && pod.batch != []
      && (forall k :: 0 <= k < |pod.batch| ==>
            && pod.batch[k].id in s.audit
            && pod.batch[k].retryCount < pod.batch[k].maxRetries == MAX_RETRIES)
      && (forall i, j :: 0 <= i < j < |pod.batch| ==> pod.batch[i].id != pod.batch[j].id)
      && (pod.published == Some(true) ==> s.audit[pod.batch[0].id].publishes >= 1)
  }

  /** Cleanup may delete a row only after its retention period: seven days after it was
    * processed, or thirty days after it was created if it ended dead-lettered. */
  ghost predicate TombstoneOk(t: Tombstone, a: Audit, now: int) {
    && t.at <= now && t.row.maxRetries == MAX_RETRIES
    && ( || (t.row.status.Processed? && t.row.processedAt.Some?
              && t.row.processedAt.value + PROCESSED_RETENTION_DAYS * DAY_MS <= t.at && a.publishes >= 1)
         || (t.row.status.DeadLetter? && t.row.retryCount == t.row.maxRetries
              && t.row.createdAt + DEAD_LETTER_RETENTION_DAYS * DAY_MS <= t.at))
  }

  ghost predicate KeysOk(s: State) {
    && s.rows.Keys !! s.deleted.Keys
    && s.rows.Keys + s.deleted.Keys == s.audit.Keys
  }

  ghost predicate RowsOk(s: State) {
    forall id :: id in s.rows ==> RowOk(s.rows[id], s.now)
  }

  ghost predicate DeliveredOk(s: State)
    requires KeysOk(s)
  {
    && (forall id :: id in s.rows && s.rows[id].status.Processed? ==> s.audit[id].publishes >= 1)
    && (forall id :: id in s.deleted ==> TombstoneOk(s.deleted[id], s.audit[id], s.now))
  }

  ghost predicate PodsOk(s: State) {
    forall p :: p in s.pods ==> PodOk(s, s.pods[p])
  }

  ghost predicate Inv(s: State) {
    KeysOk(s) && RowsOk(s) && DeliveredOk(s) && PodsOk(s)
  }

  lemma AuditGrows(s: State, l: Label)
    requires Enabled(s, l)
    ensures NextAudit(s, l).Keys == s.audit.Keys + (if l.Write? then l.ids else {})
    ensures forall id :: id in s.audit ==> s.audit[id].publishes <= NextAudit(s, l)[id].publishes
  {
  }

  lemma RowsGrow(s: State, l: Label)
    requires Enabled(s, l)
    ensures NextRows(s, l).Keys ==
      (if l.Write? then s.rows.Keys + l.ids
       else if l.Cleanup? then s.rows.Keys - Expired(s.rows, s.now, l.processed)
       else s.rows.Keys)
  {
  }

  function Added(l: Label): set<RowId> {
    if l.Write? then l.ids else {}
  }

  function Gone(s: State, l: Label): set<RowId> {
    if l.Cleanup? then Expired(s.rows, s.now, l.processed) else {}
  }

  ghost predicate KeysMove(s: State, s': State, added: set<RowId>, gone: set<RowId>) {
    && s'.rows.Keys == s.rows.Keys + added - gone
    && s'.deleted.Keys == s.deleted.Keys + gone
    && s'.audit.Keys == s.audit.Keys + added
  }

  lemma StepMovesKeys(s: State, l: Label)
    requires Enabled(s, l)
    ensures KeysMove(s, Apply(s, l), Added(l), Gone(s, l))
    ensures Added(l) !! s.audit.Keys && Gone(s, l) <= s.rows.Keys
  {
    AuditGrows(s, l);
    RowsGrow(s, l);
  }

  lemma KeysOkAfter(s: State, s': State, added: set<RowId>, gone: set<RowId>)
    requires KeysOk(s) && KeysMove(s, s', added, gone) && added !! s.audit.Keys && gone <= s.rows.Keys
    ensures KeysOk(s')
  {
  }

  lemma StepKeepsKeys(s: State, l: Label)
    requires KeysOk(s) && Enabled(s, l)
    ensures KeysOk(Apply(s, l))
  {
    StepMovesKeys(s, l);
    KeysOkAfter(s, Apply(s, l), Added(l), Gone(s, l));
  }

  lemma HeadIsKnown(s: State)
    requires PodsOk(s)
    ensures forall p {:trigger PodOf(s, p)} :: PodOf(s, p).Busy? ==>
      && PodOf(s, p).batch != []
      && PodOf(s, p).batch[0].id in s.audit
      && PodOf(s, p).batch[0].retryCount < PodOf(s, p).batch[0].maxRetries == MAX_RETRIES
  {
  }

  lemma FailedRowOk(r: Row, rec: Record, now: int)
    requires RowOk(r, now) && rec.retryCount < rec.maxRetries == MAX_RETRIES
    ensures RowOk(MarkFailed(r, rec, now), now)
  {
  }

  lemma StepKeepsRows(s: State, l: Label)
    requires RowsOk(s) && PodsOk(s) && Enabled(s, l)
    ensures RowsOk(Apply(s, l))
  {
    HeadIsKnown(s);
    if l.Fail? {
      var rec := PodOf(s, l.pod).batch[0];
      if rec.id in s.rows {
        FailedRowOk(s.rows[rec.id], rec, s.now);
      }
    }
  }

  lemma StepKeepsDelivered(s: State, l: Label)
    requires Inv(s) && Enabled(s, l)
    ensures KeysOk(Apply(s, l)) && DeliveredOk(Apply(s, l))
  {
    StepKeepsKeys(s, l);
    AuditGrows(s, l);
    StepKeepsTombstones(s, l);
    forall id | id in NextRows(s, l) && NextRows(s, l)[id].status.Processed?
      ensures NextAudit(s, l)[id].publishes >= 1
    {
      ProcessedWasDelivered(s, l, id);
    }
  }

  lemma ProcessedWasDelivered(s: State, l: Label, id: RowId)
    requires Inv(s) && Enabled(s, l) && KeysOk(Apply(s, l))
    requires id in NextRows(s, l) && NextRows(s, l)[id].status.Processed?
    ensures NextAudit(s, l)[id].publishes >= 1
  {
    AuditGrows(s, l);
    if l.Done? && PodOf(s, l.pod).batch[0].id == id {
      assert PodOk(s, s.pods[l.pod]);
    }
  }

  lemma StepKeepsTombstones(s: State, l: Label)
    requires Inv(s) && Enabled(s, l) && KeysOk(Apply(s, l))
    ensures forall id :: id in NextDeleted(s, l) ==>
      TombstoneOk(NextDeleted(s, l)[id], NextAudit(s, l)[id], Apply(s, l).now)
  {
    AuditGrows(s, l);
    if l.Cleanup? {
      forall id | id in Expired(s.rows, s.now, l.processed)
        ensures TombstoneOk(Tombstone(s.rows[id], s.now), s.audit[id], s.now)
      {
        assert RowOk(s.rows[id], s.now);
      }
    }
  }

  lemma PodOkLater(s: State, s': State, pod: Pod)
    requires PodOk(s, pod) && s.audit.Keys <= s'.audit.Keys
    requires forall id :: id in s.audit ==> s.audit[id].publishes <= s'.audit[id].publishes
    ensures PodOk(s', pod)
  {
  }

  lemma StepKeepsPods(s: State, l: Label)
    requires Inv(s) && Enabled(s, l)
    ensures PodsOk(Apply(s, l))
  {
    var s' := Apply(s, l);
    AuditGrows(s, l);
    forall p | p in s'.pods
      ensures PodOk(s', s'.pods[p])
    {
      if p in s.pods && s'.pods[p] == s.pods[p] {
        PodOkLater(s, s', s.pods[p]);
      } else {
        ChangedPodOk(s, l, p);
      }
    }
  }

  lemma ChangedPodOk(s: State, l: Label, p: PodId)
    requires Inv(s) && Enabled(s, l)
    requires p in NextPods(s, l) && (p !in s.pods || NextPods(s, l)[p] != s.pods[p])
    ensures PodOk(Apply(s, l), NextPods(s, l)[p])
  {
    AuditGrows(s, l);
    if p in s.pods {
      assert PodOk(s, s.pods[p]);
    }
    if l.Claim? && l.order != [] {
      ClaimedBatchOk(s, l);
    }
  }

  lemma ClaimedBatchOk(s: State, l: Label)
    requires Inv(s) && Enabled(s, l) && l.Claim? && l.order != []
    ensures PodOk(Apply(s, l), PodOf(Apply(s, l), l.pod))
  {
    forall k | 0 <= k < |l.order|
      ensures l.order[k] in s.rows && s.rows[l.order[k]].retryCount < s.rows[l.order[k]].maxRetries == MAX_RETRIES
    {
      assert l.order[k] in Ids(l.order);
      assert RowOk(s.rows[l.order[k]], s.now);
    }
    assert Apply(s, l).audit.Keys == s.audit.Keys;
  }

  lemma StepKeepsInv(s: State, l: Label)
    requires Inv(s) && Enabled(s, l)
    ensures Inv(Apply(s, l))
  {
    StepKeepsRows(s, l);
    StepKeepsDelivered(s, l);
    StepKeepsPods(s, l);
  }

  lemma {:induction false} RunKeepsInv(s: State, run: seq<Label>)
    requires Inv(s) && Legal(s, run)
    ensures Inv(After(s, run))
    decreases |run|
  {
    if run != [] {
      RunKeepsInv(s, run[..|run| - 1]);
      StepKeepsInv(After(s, run[..|run| - 1]), run[|run| - 1]);
    }
  }

  // ----- what the invariant gives on every run from the empty table ---------

  function WrittenIn(run: seq<Label>): set<RowId> {
    if run == [] then {}
    else WrittenIn(run[..|run| - 1]) + (if run[|run| - 1].Write? then run[|run| - 1].ids else {})
  }

  lemma InvAfter(now: int, run: seq<Label>)
    requires Legal(Init(now), run)
    ensures Inv(After(Init(now), run))
  {
    RunKeepsInv(Init(now), run);
  }

  lemma {:induction false} AuditMatchesRun(now: int, run: seq<Label>)
    requires Legal(Init(now), run)
    ensures After(Init(now), run).audit.Keys == WrittenIn(run)
    decreases |run|
  {
    if run != [] {
      AuditMatchesRun(now, run[..|run| - 1]);
      AuditGrows(After(Init(now), run[..|run| - 1]), run[|run| - 1]);
    }
  }

  lemma StepCountsDelivery(s: State, l: Label, id: RowId)
    requires Inv(s) && Enabled(s, l) && id in NextAudit(s, l)
    ensures NextAudit(s, l)[id].publishes ==
      (if id in s.audit then s.audit[id].publishes else 0)
      + StepCount(s, l, DeliveriesOf(id))
  {
    HeadIsKnown(s);
  }

  lemma {:induction false} DeliveriesMatchRun(now: int, run: seq<Label>, id: RowId)
    requires Legal(Init(now), run)
    ensures var s := After(Init(now), run);
      (if id in s.audit then s.audit[id].publishes else 0) == CountIn(Init(now), run, DeliveriesOf(id))
    decreases |run|
  {
    if run != [] {
      var shorter := run[..|run| - 1];
      var mid := After(Init(now), shorter);
      DeliveriesMatchRun(now, shorter, id);
      InvAfter(now, shorter);
      HeadIsKnown(mid);
      AuditGrows(mid, run[|run| - 1]);
      if id in NextAudit(mid, run[|run| - 1]) {
        StepCountsDelivery(mid, run[|run| - 1], id);
      }
    }
  }

  /** The step takes the row out of the table, and the tombstone says what it was and when. */
  ghost predicate Removes(s: State, l: Label, id: RowId, t: Tombstone)
    requires Enabled(s, l)
  {
    id in s.rows && id !in NextRows(s, l) && t == Tombstone(s.rows[id], s.now)
  }

  ghost predicate RemovedIn(s: State, run: seq<Label>, id: RowId, t: Tombstone)
    requires Legal(s, run)
    decreases |run|
  {
    run != [] &&
    var shorter := run[..|run| - 1];
    (RemovedIn(s, shorter, id, t) || Removes(After(s, shorter), run[|run| - 1], id, t))
  }

  lemma StepBuries(s: State, l: Label, id: RowId, t: Tombstone)
    requires Inv(s) && Enabled(s, l)
    ensures (id in NextDeleted(s, l) && NextDeleted(s, l)[id] == t)
       <==> (id in s.deleted && s.deleted[id] == t) || Removes(s, l, id, t)
  {
  }

  lemma {:induction false} DeletedMatchesRun(now: int, run: seq<Label>, id: RowId, t: Tombstone)
    requires Legal(Init(now), run)
    ensures var s := After(Init(now), run);
      (id in s.deleted && s.deleted[id] == t) <==> RemovedIn(Init(now), run, id, t)
    decreases |run|
  {
    if run != [] {
      var shorter := run[..|run| - 1];
      DeletedMatchesRun(now, shorter, id, t);
      InvAfter(now, shorter);
      StepBuries(After(Init(now), shorter), run[|run| - 1], id, t);
    }
  }

  /** Conservation: every written event is still in the table or was removed by cleanup after
    * its retention period. At-least-once: a row that is, or was deleted as, processed had a
    * handler call that returned normally. */
  lemma EveryEventAccountedFor(now: int, run: seq<Label>)
    requires Legal(Init(now), run)
    ensures var s := After(Init(now), run);
      && s.rows.Keys !! s.deleted.Keys
      && s.rows.Keys + s.deleted.Keys == WrittenIn(run)
      && (forall id :: id in s.rows && s.rows[id].status.Processed? ==> CountIn(Init(now), run, DeliveriesOf(id)) >= 1)
      && (forall id :: id in s.deleted ==>
            var t := s.deleted[id];
            || (t.row.status.Processed? && t.row.processedAt.Some?
                 && t.row.processedAt.value + 7 * DAY_MS <= t.at <= s.now
                 && CountIn(Init(now), run, DeliveriesOf(id)) >= 1)
            || (t.row.status.DeadLetter? && t.row.createdAt + 30 * DAY_MS <= t.at <= s.now))
  {
    InvAfter(now, run);
    AuditMatchesRun(now, run);
    var s := After(Init(now), run);
    forall id | id in s.audit
      ensures s.audit[id].publishes == CountIn(Init(now), run, DeliveriesOf(id))
    {
      DeliveriesMatchRun(now, run, id);
    }
    assert forall id :: id in s.deleted ==> TombstoneOk(s.deleted[id], s.audit[id], s.now);
  }

  /** From time `due` on, the row can be claimed or reclaimed. */
  ghost predicate ComesBack(r: Row, due: int) {
    forall t: int {:trigger Eligible(r, t)} :: t >= due ==> Eligible(r, t) || Stuck(r, t)
  }

  /** No row is stranded: some wait makes every non-terminal row claimable or reclaimable. */
  lemma NoRowIsStranded(now: int, run: seq<Label>, id: RowId)
    requires Legal(Init(now), run)
    requires id in After(Init(now), run).rows && !Terminal(After(Init(now), run).rows[id])
    ensures exists due :: ComesBack(After(Init(now), run).rows[id], due)
  {
    InvAfter(now, run);
    var r := After(Init(now), run).rows[id];
    assert RowOk(r, After(Init(now), run).now);
    var due :=
      if r.status.Pending? then 0
      else if r.status.Failed? then r.nextRetryAt.value
      else r.processingStartedAt.value + STUCK_TIMEOUT_MS;
    assert ComesBack(r, due);
  }

  // ----- two claims of one row ----------------------------------------------

  ghost predicate WritesOutcome(s: State, l: Label, id: RowId) {
    (l.Done? || l.Fail?) && Enabled(s, l) && PodOf(s, l.pod).batch[0].id == id
  }

  ghost predicate Held(s: State, id: RowId, since: int) {
    id in s.rows && s.rows[id].status.Processing? && s.rows[id].processingStartedAt == Some(since)
  }

  lemma ClaimedWasEligible(s: State, l: Label, id: RowId)
    requires Enabled(s, l)
    ensures Claims(l, id) ==> id in s.rows && Eligible(s.rows[id], s.now)
  {
    if Claims(l, id) {
      assert id in Ids(l.order);
    }
  }

  lemma StepKeepsHeld(s: State, l: Label, id: RowId, since: int)
    requires Inv(s) && Enabled(s, l) && Held(s, id, since)
    requires !WritesOutcome(s, l, id) && !ReclaimsRow(s, l, id)
    ensures !Claims(l, id)
    ensures Held(Apply(s, l), id, since)
  {
    ClaimedWasEligible(s, l, id);
    assert id in s.audit;
  }

  lemma StepClaims(s: State, l: Label, id: RowId)
    requires Enabled(s, l) && Claims(l, id)
    ensures Held(Apply(s, l), id, s.now)
  {
    assert id in Ids(l.order);
  }

  /** Step `k` ends the claim of row `id` that was taken at time `since`. */
  ghost predicate EndsClaim(s: State, run: seq<Label>, k: nat, id: RowId, since: int)
    requires Legal(s, run) && k < |run|
  {
    var before := StateAt(s, run, k);
    || WritesOutcome(before, run[k], id)
    || (ReclaimsRow(before, run[k], id) && before.now >= since + STUCK_TIMEOUT_MS)
  }

  lemma InvAt(now: int, run: seq<Label>, k: nat)
    requires Legal(Init(now), run) && k <= |run|
    ensures Inv(StateAt(Init(now), run, k))
  {
    LegalPrefix(Init(now), run, k);
    InvAfter(now, run[..k]);
  }

  lemma {:induction false} FindEndOfClaim(now: int, run: seq<Label>, k: nat, j: nat, id: RowId, since: int) returns (e: nat)
    requires Legal(Init(now), run) && k <= j < |run| && Claims(run[j], id)
    requires Held(StateAt(Init(now), run, k), id, since)
    ensures k <= e < j && EndsClaim(Init(now), run, e, id, since)
    decreases j - k
  {
    StepAt(Init(now), run, k);
    InvAt(now, run, k);
    var s := StateAt(Init(now), run, k);
    ClaimedWasEligible(s, run[k], id);
    if WritesOutcome(s, run[k], id) || ReclaimsRow(s, run[k], id) {
      e := k;
    } else {
      StepKeepsHeld(s, run[k], id, since);
      e := FindEndOfClaim(now, run, k + 1, j, id, since);
    }
  }

  /** Between two claims of a row somebody wrote its outcome, or reclaimed it no earlier than
    * five minutes after the first claim. */
  lemma ClaimsAreSeparated(now: int, run: seq<Label>, i: nat, j: nat, id: RowId)
    requires Legal(Init(now), run) && i < j < |run|
    requires Claims(run[i], id) && Claims(run[j], id)
    ensures exists k: nat :: i < k < j && EndsClaim(Init(now), run, k, id, StateAt(Init(now), run, i).now)
  {
    StepAt(Init(now), run, i);
    var s := StateAt(Init(now), run, i);
    StepClaims(s, run[i], id);
    var e := FindEndOfClaim(now, run, i + 1, j, id, s.now);
  }
}
