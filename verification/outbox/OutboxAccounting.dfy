/** Exact accounting for every event, with any number of pods, crashes and lost writes, as long as
  * no reclaim takes back a row that some pod still holds. */
module OutboxAccounting {
  import opened Wrappers
  import opened OutboxRows
  import opened OutboxProtocol
  import opened OutboxCounts
  import opened OutboxManyPods
  import opened OutboxStaleWrites
  import opened OutboxLiveReclaims

  /** The waits after the first `n` failures: 5000 * (2 + 4 + ... + 2^n). */
  function BackoffSum(n: nat): int {
    BASE_RETRY_DELAY_MS * (Pow2(n + 1) - 2)
  }

  /** How many failures of the row led to a wait: the one that dead-letters does not. */
  function WaitsHad(r: Row): nat {
    if r.status.DeadLetter? then MAX_RETRIES - 1 else r.retryCount
  }

  ghost predicate Counted(r: Row, a: Audit) {
    && a.claims == r.retryCount + a.reclaims + One(r.status.Processing?) + One(r.status.Processed?)
    && (r.status.Processed? ==> r.retryCount < r.maxRetries)
    && a.backoff == BackoffSum(WaitsHad(r))
  }

  ghost predicate AllCounted(s: State)
    requires KeysOk(s)
  {
    && (forall id :: id in s.rows ==> Counted(s.rows[id], s.audit[id]))
    && (forall id :: id in s.deleted ==> Counted(s.deleted[id].row, s.audit[id]))
  }

  // ----- one step -------------------------------------------------------------

  /** The record about to be written is of a row in processing with the same retry count. */
  lemma HeadIsUpToDate(s: State, l: Label)
    requires Inv(s) && Exclusive(s) && Enabled(s, l) && (l.Done? || l.Fail?)
    ensures var rec := PodOf(s, l.pod).batch[0];
      && rec.id in s.rows && s.rows[rec.id].status.Processing?
      && rec.retryCount == s.rows[rec.id].retryCount < rec.maxRetries == s.rows[rec.id].maxRetries == MAX_RETRIES
  {
    HeadIsKnown(s);
    var rec := PodOf(s, l.pod).batch[0];
    assert Holds(s, l.pod, 0, rec.id);
    assert UpToDate(s, l.pod, 0, rec.id);
    assert RowOk(s.rows[rec.id], s.now);
  }

  lemma FailedRowCounted(r: Row, a: Audit, rec: Record, now: int)
    requires Counted(r, a) && r.status.Processing? && rec.retryCount == r.retryCount < r.maxRetries
    requires rec.maxRetries == r.maxRetries == MAX_RETRIES
    ensures Counted(MarkFailed(r, rec, now),
                    if rec.retryCount + 1 < rec.maxRetries
                    then a.(backoff := a.backoff + RetryDelay(rec.retryCount + 1)) else a)
  {
  }

  lemma StepCountsRow(s: State, l: Label, id: RowId)
    requires Inv(s) && Exclusive(s) && AllCounted(s) && Enabled(s, l) && id in s.rows && id in NextRows(s, l)
    ensures id in NextAudit(s, l) && Counted(NextRows(s, l)[id], NextAudit(s, l)[id])
  {
    AuditGrows(s, l);
    if l.Fail? {
      FailCountsRow(s, l, id);
    } else {
      OtherStepCountsRow(s, l, id);
    }
  }

  lemma FailCountsRow(s: State, l: Label, id: RowId)
    requires Inv(s) && Exclusive(s) && AllCounted(s) && Enabled(s, l) && l.Fail?
    requires id in s.rows && id in NextRows(s, l) && id in NextAudit(s, l)
    ensures Counted(NextRows(s, l)[id], NextAudit(s, l)[id])
  {
    assert Counted(s.rows[id], s.audit[id]);
    if PodOf(s, l.pod).batch[0].id == id {
      HeadIsUpToDate(s, l);
      FailedRowCounted(s.rows[id], s.audit[id], PodOf(s, l.pod).batch[0], s.now);
    }
  }

  lemma OtherStepCountsRow(s: State, l: Label, id: RowId)
    requires Inv(s) && Exclusive(s) && AllCounted(s) && Enabled(s, l) && !l.Fail?
    requires id in s.rows && id in NextRows(s, l) && id in NextAudit(s, l)
    ensures Counted(NextRows(s, l)[id], NextAudit(s, l)[id])
  {
    assert Counted(s.rows[id], s.audit[id]);
    if l.Done? {
      HeadIsUpToDate(s, l);
    } else if l.Claim? {
      ClaimCountsRow(s, l, id);
    }
  }

  lemma ClaimCountsRow(s: State, l: Label, id: RowId)
    requires Inv(s) && Enabled(s, l) && l.Claim? && id in s.rows && Counted(s.rows[id], s.audit[id])
    ensures id in NextRows(s, l) && id in NextAudit(s, l) && Counted(NextRows(s, l)[id], NextAudit(s, l)[id])
  {
    ClaimedWasEligible(s, l, id);
    assert id in Ids(l.order) <==> Claims(l, id);
  }

  lemma StepCountsDeleted(s: State, l: Label, id: RowId)
    requires Inv(s) && Exclusive(s) && AllCounted(s) && Enabled(s, l) && id in NextDeleted(s, l)
    ensures id in NextAudit(s, l) && Counted(NextDeleted(s, l)[id].row, NextAudit(s, l)[id])
  {
    AuditGrows(s, l);
    ClaimedWasEligible(s, l, id);
    if l.Fail? {
      HeadIsUpToDate(s, l);
    }
  }

  lemma StepKeepsCounted(s: State, l: Label)
    requires Inv(s) && Exclusive(s) && AllCounted(s) && Enabled(s, l) && KeysOk(Apply(s, l))
    ensures AllCounted(Apply(s, l))
  {
    forall id | id in NextRows(s, l)
      ensures id in NextAudit(s, l) && Counted(NextRows(s, l)[id], NextAudit(s, l)[id])
    {
      if id in s.rows {
        StepCountsRow(s, l, id);
      }
    }
    forall id | id in NextDeleted(s, l)
      ensures id in NextAudit(s, l) && Counted(NextDeleted(s, l)[id].row, NextAudit(s, l)[id])
    {
      StepCountsDeleted(s, l, id);
    }
  }

  lemma {:induction false} RunKeepsCounted(now: int, run: seq<Label>)
    requires Legal(Init(now), run) && NoLiveReclaim(Init(now), run)
    ensures var s := After(Init(now), run); Inv(s) && Exclusive(s) && AllCounted(s)
    decreases |run|
  {
    NothingHeldYet(now);
    if run != [] {
      var shorter, l := run[..|run| - 1], run[|run| - 1];
      RunKeepsCounted(now, shorter);
      StepKeepsInv(After(Init(now), shorter), l);
      StepKeepsExclusive(After(Init(now), shorter), l);
      StepKeepsCounted(After(Init(now), shorter), l);
    }
  }

  // ----- the same facts, counted on the run itself ---------------------------

  /** How long the row has to wait, by what is stored in it, if this step is a failure that leaves it
    * attempts. */
  ghost function WaitOf(s: State, l: Label, id: RowId): int
    requires Enabled(s, l)
  {
    var rows := NextRows(s, l);
    if l.Fail? && PodOf(s, l.pod).batch[0].id == id && id in rows && rows[id].status.Failed? && rows[id].nextRetryAt.Some?
    then rows[id].nextRetryAt.value - s.now else 0
  }

  /** The sum of all waits that failures of row `id` imposed during the run. */
  ghost function WaitsIn(s: State, run: seq<Label>, id: RowId): int
    requires Legal(s, run)
  {
    if run == [] then 0
    else
      WaitsIn(s, run[..|run| - 1], id) + WaitOf(After(s, run[..|run| - 1]), run[|run| - 1], id)
  }

  lemma StepCounts(s: State, l: Label, id: RowId)
    requires Inv(s) && Enabled(s, l) && id in s.audit
    ensures id in NextAudit(s, l)
    ensures NextAudit(s, l)[id].claims == s.audit[id].claims + StepCount(s, l, ClaimsOf(id))
    ensures NextAudit(s, l)[id].reclaims == s.audit[id].reclaims + StepCount(s, l, ReclaimsOf(id))
    ensures NextAudit(s, l)[id].backoff == s.audit[id].backoff + WaitOf(s, l, id)
  {
    HeadIsKnown(s);
  }

  lemma NothingBeforeWriting(s: State, l: Label, id: RowId)
    requires Inv(s) && Enabled(s, l) && id !in s.audit
    ensures !Claims(l, id) && !ReclaimsRow(s, l, id) && WaitOf(s, l, id) == 0
    ensures id in NextAudit(s, l) ==> NextAudit(s, l)[id] == Audit(0, 0, 0, 0)
  {
    ClaimedWasEligible(s, l, id);
    HeadIsKnown(s);
    AuditGrows(s, l);
  }

  lemma {:induction false} CountsMatchRun(now: int, run: seq<Label>, id: RowId)
    requires Legal(Init(now), run)
    ensures var s := After(Init(now), run);
      var a := if id in s.audit then s.audit[id] else Audit(0, 0, 0, 0);
      && a.claims == CountIn(Init(now), run, ClaimsOf(id))
      && a.reclaims == CountIn(Init(now), run, ReclaimsOf(id))
      && a.backoff == WaitsIn(Init(now), run, id)
    decreases |run|
  {
    if run != [] {
      var mid := After(Init(now), run[..|run| - 1]);
      CountsMatchRun(now, run[..|run| - 1], id);
      InvAfter(now, run[..|run| - 1]);
      if id in mid.audit {
        StepCounts(mid, run[|run| - 1], id);
      } else {
        NothingBeforeWriting(mid, run[|run| - 1], id);
      }
    }
  }

  /** The row as it is, or as it was when cleanup deleted it. */
  function RowOf(s: State, id: RowId): Row
    requires id in s.rows || id in s.deleted
  {
    if id in s.rows then s.rows[id] else s.deleted[id].row
  }

  /** Claims balance exactly: every claim of a row is accounted for by a failure, by a reclaim,
    * or by being in progress or successful now. So a row is claimed at most five times plus
    * once per reclaim, and the waits between its attempts add up to at most 150 seconds. This
    * holds of every event written, also after cleanup has deleted it, for any number of pods. */
  lemma ClaimsBalance(now: int, run: seq<Label>, id: RowId)
    requires Legal(Init(now), run) && NoLiveReclaim(Init(now), run) && id in WrittenIn(run)
    ensures id in After(Init(now), run).rows || id in After(Init(now), run).deleted
    ensures var r := RowOf(After(Init(now), run), id);
      var claims, reclaims := CountIn(Init(now), run, ClaimsOf(id)), CountIn(Init(now), run, ReclaimsOf(id));
      && claims == r.retryCount + reclaims + One(r.status.Processing?) + One(r.status.Processed?)
      && claims <= MAX_RETRIES + reclaims
      && WaitsIn(Init(now), run, id) == BackoffSum(WaitsHad(r))
      && WaitsIn(Init(now), run, id) <= BASE_RETRY_DELAY_MS * (Pow2(MAX_RETRIES) - 2) == 150_000
  {
    RunKeepsCounted(now, run);
    AuditMatchesRun(now, run);
    CountsMatchRun(now, run, id);
    RowBalances(After(Init(now), run), id);
  }

  lemma RowBalances(s: State, id: RowId)
    requires Inv(s) && AllCounted(s) && id in s.audit
    ensures id in s.rows || id in s.deleted
    ensures var r, a := RowOf(s, id), s.audit[id];
      && a.claims == r.retryCount + a.reclaims + One(r.status.Processing?) + One(r.status.Processed?)
      && a.claims <= MAX_RETRIES + a.reclaims
      && a.backoff == BackoffSum(WaitsHad(r))
      && a.backoff <= BackoffSum(MAX_RETRIES - 1) == 150_000
  {
    var r := RowOf(s, id);
    assert Counted(r, s.audit[id]);
    assert id in s.rows ==> RowOk(r, s.now);
    assert id in s.deleted ==> TombstoneOk(s.deleted[id], s.audit[id], s.now);
    Pow2Grows(r.retryCount + 1, MAX_RETRIES);
    AllWaits();
  }

  lemma AllWaits()
    ensures BackoffSum(MAX_RETRIES - 1) == BASE_RETRY_DELAY_MS * (Pow2(MAX_RETRIES) - 2) == 150_000
  {
    assert Pow2(5) == 2 * Pow2(4) && Pow2(4) == 2 * Pow2(3) && Pow2(3) == 2 * Pow2(2) && Pow2(2) == 2 * Pow2(1);
  }

  lemma {:induction false} Pow2Grows(a: nat, b: nat)
    ensures a <= b ==> Pow2(a) <= Pow2(b)
    decreases b
  {
    if a < b {
      Pow2Grows(a, b - 1);
    }
  }

  // ----- no dead-lettered row gets its thirty days -----------------------------------

  /** The row is at least as old as the waits it has had, or will be when its next attempt is due. */
  ghost predicate Aged(r: Row, now: int) {
    r.createdAt + BackoffSum(WaitsHad(r)) <= (if r.status.Failed? && r.nextRetryAt.Some? then r.nextRetryAt.value else now)
  }

  ghost predicate AllAged(s: State) {
    forall id :: id in s.rows ==> Aged(s.rows[id], s.now)
  }

  lemma FailedRowAged(r: Row, rec: Record, now: int)
    requires Aged(r, now) && r.status.Processing? && rec.retryCount == r.retryCount < rec.maxRetries == MAX_RETRIES
    ensures Aged(MarkFailed(r, rec, now), now)
  {
    assert rec.retryCount + 1 < rec.maxRetries ==>
        BackoffSum(rec.retryCount + 1) == BackoffSum(rec.retryCount) + RetryDelay(rec.retryCount + 1);
  }

  lemma StepKeepsAged(s: State, l: Label, id: RowId)
    requires Inv(s) && Exclusive(s) && AllAged(s) && Enabled(s, l) && id in s.rows && id in NextRows(s, l)
    ensures Aged(NextRows(s, l)[id], Apply(s, l).now)
  {
    assert Aged(s.rows[id], s.now) && RowOk(s.rows[id], s.now);
    ClaimedWasEligible(s, l, id);
    if l.Done? || l.Fail? {
      HeadIsUpToDate(s, l);
      if l.Fail? && PodOf(s, l.pod).batch[0].id == id {
        FailedRowAged(s.rows[id], PodOf(s, l.pod).batch[0], s.now);
      }
    }
  }

  lemma {:induction false} RunKeepsAged(now: int, run: seq<Label>)
    requires Legal(Init(now), run) && NoLiveReclaim(Init(now), run)
    ensures AllAged(After(Init(now), run))
    decreases |run|
  {
    if run != [] {
      var shorter, l := run[..|run| - 1], run[|run| - 1];
      var mid := After(Init(now), shorter);
      RunKeepsAged(now, shorter);
      RunKeepsCounted(now, shorter);
      forall id | id in NextRows(mid, l)
        ensures Aged(NextRows(mid, l)[id], Apply(mid, l).now)
      {
        if id in mid.rows {
          StepKeepsAged(mid, l, id);
        }
      }
    }
  }

  lemma OldWhenDeadLettered(s: State, p: PodId)
    requires Inv(s) && Exclusive(s) && AllAged(s) && AboutToDeadLetter(s, p)
    ensures s.rows[PodOf(s, p).batch[0].id].createdAt + 150_000 <= s.now
  {
    HeadIsUpToDate(s, Fail(p));
    AllWaits();
    assert Aged(s.rows[PodOf(s, p).batch[0].id], s.now);
  }

  lemma DeadLetteringStep(s: State, p: PodId)
    requires Inv(s) && Exclusive(s) && AboutToDeadLetter(s, p)
    ensures var id, s' := PodOf(s, p).batch[0].id, Apply(s, Fail(p));
      Inv(s') && DeadLettered(s', id) && !Threatened(s', id) && s'.now == s.now && s'.rows[id].createdAt == s.rows[id].createdAt
  {
    StepKeepsInv(s, Fail(p));
    StepKeepsExclusive(s, Fail(p));
    ExclusiveMeansUnthreatened(Apply(s, Fail(p)), PodOf(s, p).batch[0].id);
  }

  /** The failure that pod `p` is about to write dead-letters a row 150 seconds old or older, and cleanup
    * may take it that much before thirty days of review are over. */
  ghost predicate ReviewCutShort(s: State, p: PodId)
    requires AboutToDeadLetter(s, p)
  {
    var id, s' := PodOf(s, p).batch[0].id, Apply(s, Fail(p));
    && DeadLettered(s', id) && s.rows[id].createdAt + 150_000 <= s.now
    && !KeptUntil(s', id, s.now + DEAD_LETTER_RETENTION_DAYS * DAY_MS - 150_000)
  }

  lemma AgedMeansCutShort(s: State, p: PodId)
    requires Inv(s) && Exclusive(s) && AllAged(s) && AboutToDeadLetter(s, p)
    ensures ReviewCutShort(s, p)
  {
    OldWhenDeadLettered(s, p);
    DeadLetteringStep(s, p);
    DeadLetterKeptIff(Apply(s, Fail(p)), PodOf(s, p).batch[0].id, s.now + DEAD_LETTER_RETENTION_DAYS * DAY_MS - 150_000);
  }

  /** Without a live reclaim no row is ever kept for thirty days of review. */
  lemma NoFullReview(now: int, run: seq<Label>, p: PodId)
    requires Legal(Init(now), run) && NoLiveReclaim(Init(now), run) && AboutToDeadLetter(After(Init(now), run), p)
    ensures ReviewCutShort(After(Init(now), run), p)
  {
    RunKeepsCounted(now, run);
    RunKeepsAged(now, run);
    AgedMeansCutShort(After(Init(now), run), p);
  }
}
