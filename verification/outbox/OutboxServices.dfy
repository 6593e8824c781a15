/** The services that write, poll and clean the outbox, as objects over one shared table. What
  * a handler call and a database write answered, and when, comes in as an argument.
  */
module OutboxServices {
  import opened Wrappers
  import opened Sequences
  import opened OutboxRows

  /** How the processing of one claimed event went: `elapsed` milliseconds after the previous
    * event the handlers returned normally or not (`ok`), writing the processed outcome applied
    * or not (`saved`), and writing the failure, where it came to that, applied or not (`recorded`). */
  datatype Attempt = Attempt(elapsed: nat, ok: bool, saved: bool, recorded: bool)

  predicate Succeeds(a: Attempt) {
    a.ok && a.saved
  }

  /** The failure could not be written: the error leaves processEvent and ends the batch. */
  predicate Escapes(a: Attempt) {
    !Succeeds(a) && !a.recorded
  }

  function AfterAttempt(rows: Table, rec: Record, a: Attempt, now: int): Table {
    if Succeeds(a) then WriteProcessed(rows, rec, now)
    else if a.recorded then WriteFailure(rows, rec, now)
    else rows
  }

  /** The table after a batch: each event in turn, up to the first error that escapes. */
  function AfterBatch(rows: Table, batch: seq<Record>, attempts: nat -> Attempt, k: nat, now: int): Table
    requires k <= |batch|
    decreases |batch| - k
  {
    if k == |batch| then rows
    else
      var a := attempts(k);
      var next := AfterAttempt(rows, batch[k], a, now + a.elapsed);
      if Escapes(a) then next else AfterBatch(next, batch, attempts, k + 1, now + a.elapsed)
  }

  /** The clock when the batch is done. */
  function BatchEnd(size: nat, attempts: nat -> Attempt, k: nat, now: int): int
    requires k <= size
    decreases size - k
  {
    if k == size then now
    else if Escapes(attempts(k)) then now + attempts(k).elapsed
    else BatchEnd(size, attempts, k + 1, now + attempts(k).elapsed)
  }

  function IdsOf(batch: seq<Record>): set<RowId> {
    set k | 0 <= k < |batch| :: batch[k].id
  }

  /** `batch` may be the answer of the claiming statement on `rows` while others hold row locks. */
  predicate ClaimOf(rows: Table, now: int, locked: set<RowId>, batch: seq<Record>) {
    && (forall i, j :: 0 <= i < j < |batch| ==> batch[i].id != batch[j].id)
    && OldestFirst(rows, now, locked, IdsOf(batch))
    && (forall k :: 0 <= k < |batch| ==>
          batch[k].id in rows && batch[k] == Record(batch[k].id, rows[batch[k].id].retryCount, rows[batch[k].id].maxRetries))
  }

  /** How the database met a poll: the reclaiming and the claiming statement applied or failed, and
    * `locked` is what other transactions had locked at the claim. */
  datatype Answers = Answers(reclaims: bool, claims: bool, locked: set<RowId>)

  predicate GetsBatch(answers: Answers) {
    answers.reclaims && answers.claims
  }

  /** What the poll may have claimed; nothing if a statement failed. */
  predicate MayClaim(rows: Table, now: int, answers: Answers, batch: seq<Record>) {
    if GetsBatch(answers) then ClaimOf(ReclaimAll(rows, now), now, answers.locked, batch) else batch == []
  }

  /** The table after a poll. */
  function AfterPoll(rows: Table, now: int, answers: Answers, batch: seq<Record>, attempts: nat -> Attempt): Table {
    if !answers.reclaims then rows
    else if !answers.claims then ReclaimAll(rows, now)
    else AfterBatch(ClaimAll(ReclaimAll(rows, now), IdsOf(batch), now), batch, attempts, 0, now)
  }

  class EventOutbox {
    var rows: Table

    constructor ()
      ensures rows == map[]
    {
      rows := map[];
    }
  }

  class OutboxService {
    const outbox: EventOutbox

    constructor (outbox: EventOutbox)
      ensures this.outbox == outbox
    {
      this.outbox := outbox;
    }

    method WriteEvents(ids: set<RowId>, now: int)
      requires ids !! outbox.rows.Keys
      modifies outbox
      ensures outbox.rows == InsertAll(old(outbox.rows), ids, now)
    {
      if ids == {} {
        assert InsertAll(outbox.rows, ids, now) == outbox.rows;
        return;
      }
      outbox.rows := outbox.rows + map id | id in ids :: NewRow(now);
    }
  }

  class OutboxDispatcher {
    const outbox: EventOutbox
    var isRunning: bool

    constructor (outbox: EventOutbox)
      ensures this.outbox == outbox && !isRunning
    {
      this.outbox := outbox;
      isRunning := false;
    }

    method ProcessOutbox(now: int, answers: Answers, attempts: nat -> Attempt) returns (batch: seq<Record>)
      modifies this, outbox
      ensures isRunning == old(isRunning)
      ensures old(isRunning) ==> batch == [] && outbox.rows == old(outbox.rows)
      ensures !old(isRunning) ==>
        && MayClaim(old(outbox.rows), now, answers, batch)
        && outbox.rows == AfterPoll(old(outbox.rows), now, answers, batch, attempts)
    {
      batch := [];
      if isRunning {
        return;
      }
      isRunning := true;
      var reclaimed := ReclaimStuckEvents(now, answers.reclaims);
      if reclaimed {
        var fetched := FetchAndLockPendingEvents(now, answers.claims, answers.locked);
        if fetched.Some? {
          batch := fetched.value;
          ProcessBatch(batch, attempts, now);
        }
      }
      isRunning := false;
    }

    /** The loop of ProcessOutbox over the claimed events. */
    method ProcessBatch(batch: seq<Record>, attempts: nat -> Attempt, now: int)
      modifies outbox
      ensures outbox.rows == AfterBatch(old(outbox.rows), batch, attempts, 0, now)
    {
      var clock := now;
      var i := 0;
      while i < |batch|
        invariant 0 <= i <= |batch|
        invariant AfterBatch(old(outbox.rows), batch, attempts, 0, now) == AfterBatch(outbox.rows, batch, attempts, i, clock)
      {
        clock := clock + attempts(i).elapsed;
        var escaped := ProcessEvent(batch[i], attempts(i), clock);
        if escaped {
          return;
        }
        i := i + 1;
      }
    }

    /** False if the statement failed, which ends the poll. */
    method ReclaimStuckEvents(now: int, applies: bool) returns (ok: bool)
      modifies outbox
      ensures ok == applies
      ensures outbox.rows == if applies then ReclaimAll(old(outbox.rows), now) else old(outbox.rows)
    {
      if applies {
        var stuck := set id | id in outbox.rows && Stuck(outbox.rows[id], now);
        outbox.rows := outbox.rows + map id | id in stuck :: Reclaimed(outbox.rows[id]);
      }
      ok := applies;
    }

    /** None if the transaction was rolled back. */
    method FetchAndLockPendingEvents(now: int, commits: bool, locked: set<RowId>) returns (fetched: Option<seq<Record>>)
      modifies outbox
      ensures fetched.Some? <==> commits
      ensures commits ==> ClaimOf(old(outbox.rows), now, locked, fetched.value)
                          && outbox.rows == ClaimAll(old(outbox.rows), IdsOf(fetched.value), now)
      ensures !commits ==> outbox.rows == old(outbox.rows)
    {
      if !commits {
        return None;
      }
      OldestExist(outbox.rows, now, locked);
      var ids: set<RowId> :| ids <= Candidates(outbox.rows, now, locked) && OldestFirst(outbox.rows, now, locked, ids);
      var order := AsSequence(ids);
      var batch := Snapshot(outbox.rows, order);
      SnapshotIsClaim(outbox.rows, now, locked, ids, order);
      ClaimStatement(outbox.rows, ids, now);
      outbox.rows := outbox.rows + map id | id in ids :: Claimed(outbox.rows[id], now);
      fetched := Some(batch);
    }

    method ProcessEvent(record: Record, attempt: Attempt, now: int) returns (escaped: bool)
      modifies outbox
      ensures escaped == Escapes(attempt)
      ensures outbox.rows == AfterAttempt(old(outbox.rows), record, attempt, now)
    {
      if attempt.ok && attempt.saved {
        if record.id in outbox.rows {
          var row := outbox.rows[record.id];
          outbox.rows := outbox.rows[record.id :=
            row.(status := Processed, processedAt := Some(now), processingStartedAt := None)];
        }
        escaped := false;
      } else {
        escaped := HandleEventFailure(record, attempt.recorded, now);
      }
    }

    method HandleEventFailure(record: Record, applies: bool, now: int) returns (escaped: bool)
      modifies outbox
      ensures escaped == !applies
      ensures outbox.rows == if applies then WriteFailure(old(outbox.rows), record, now) else old(outbox.rows)
      ensures applies && record.id in outbox.rows ==>
        if record.retryCount + 1 >= record.maxRetries then outbox.rows[record.id].status.DeadLetter?
        else forall t: int {:trigger Eligible(outbox.rows[record.id], t)} ::
               Eligible(outbox.rows[record.id], t) <==> t >= now + 5_000 * Pow2(record.retryCount + 1)
    {
      if !applies {
        return true;
      }
      var newRetryCount := record.retryCount + 1;
      if record.id in outbox.rows {
        var row := outbox.rows[record.id];
        if newRetryCount >= record.maxRetries {
          row := row.(status := DeadLetter, retryCount := newRetryCount, processingStartedAt := None);
        } else {
          var delayMs := BASE_RETRY_DELAY_MS * Pow2(newRetryCount);
          row := row.(status := Failed, retryCount := newRetryCount, nextRetryAt := Some(now + delayMs),
                      processingStartedAt := None);
        }
        outbox.rows := outbox.rows[record.id := row];
      }
      escaped := false;
    }
  }

  class OutboxCleanupService {
    const outbox: EventOutbox

    constructor (outbox: EventOutbox)
      ensures this.outbox == outbox
    {
      this.outbox := outbox;
    }

    method CleanupProcessedEvents(now: int)
      modifies outbox
      ensures outbox.rows == old(outbox.rows) - Expired(old(outbox.rows), now, true)
      ensures forall id :: id in old(outbox.rows) ==>
        var r := old(outbox.rows)[id];
        id in outbox.rows <==> !(r.status.Processed? && r.processedAt.Some? && r.processedAt.value + 7 * 24 * 3_600_000 <= now)
    {
      var cutoff := now - PROCESSED_RETENTION_DAYS * DAY_MS;
      outbox.rows := map id | id in outbox.rows &&
        !(outbox.rows[id].status.Processed? && outbox.rows[id].processedAt.Some?
          && outbox.rows[id].processedAt.value <= cutoff) :: outbox.rows[id];
    }

    method CleanupDeadLetterEvents(now: int)
      modifies outbox
      ensures outbox.rows == old(outbox.rows) - Expired(old(outbox.rows), now, false)
      ensures forall id :: id in old(outbox.rows) ==>
        var r := old(outbox.rows)[id];
        id in outbox.rows <==> !(r.status.DeadLetter? && r.createdAt + 30 * 24 * 3_600_000 <= now)
    {
      var cutoff := now - DEAD_LETTER_RETENTION_DAYS * DAY_MS;
      outbox.rows := map id | id in outbox.rows &&
        !(outbox.rows[id].status.DeadLetter? && outbox.rows[id].createdAt <= cutoff) :: outbox.rows[id];
    }
  }

  lemma ClaimStatement(rows: Table, ids: set<RowId>, now: int)
    requires ids <= rows.Keys
    ensures rows + (map id | id in ids :: Claimed(rows[id], now)) == ClaimAll(rows, ids, now)
  {
  }

  lemma SnapshotIsClaim(rows: Table, now: int, locked: set<RowId>, ids: set<RowId>, order: seq<RowId>)
    requires OldestFirst(rows, now, locked, ids)
    requires Distinct(order) && (forall id :: id in order <==> id in ids)
    ensures forall id :: id in order ==> id in rows
    ensures IdsOf(Snapshot(rows, order)) == ids && ClaimOf(rows, now, locked, Snapshot(rows, order))
  {
    var batch := Snapshot(rows, order);
    forall id | id in ids
      ensures id in IdsOf(batch)
    {
      var k :| 0 <= k < |order| && order[k] == id;
      assert batch[k].id == id;
    }
    assert IdsOf(batch) == ids;
  }

  // ----- there is always a batch to claim ------------------------------------

  method AsSequence(ids: set<RowId>) returns (order: seq<RowId>)
    ensures Distinct(order) && (forall id :: id in order <==> id in ids)
  {
    order := [];
    var rest := ids;
    while rest != {}
      invariant rest <= ids && Distinct(order)
      invariant forall id :: id in order <==> id in ids - rest
      decreases |rest|
    {
      var id :| id in rest;
      assert id !in order;
      order := order + [id];
      rest := rest - {id};
    }
  }

  lemma {:induction false} OldestIn(rows: Table, ids: set<RowId>) returns (oldest: RowId)
    requires ids != {} && ids <= rows.Keys
    ensures oldest in ids && forall id :: id in ids ==> rows[oldest].createdAt <= rows[id].createdAt
    decreases |ids|
  {
    var first :| first in ids;
    var rest := ids - {first};
    assert forall id :: id in ids ==> id == first || id in rest;
    oldest := first;
    if rest != {} {
      var other := OldestIn(rows, rest);
      if rows[other].createdAt < rows[first].createdAt {
        oldest := other;
      }
    }
  }

  /** The claiming statement always has an answer. */
  lemma OldestExist(rows: Table, now: int, locked: set<RowId>)
    ensures exists ids: set<RowId> :: ids <= Candidates(rows, now, locked) && OldestFirst(rows, now, locked, ids)
  {
    var all := Candidates(rows, now, locked);
    var ids: set<RowId> := {};
    while |ids| < BATCH_SIZE && ids != all
      invariant ids <= all && |ids| <= BATCH_SIZE
      invariant forall i, j :: i in ids && j in all && j !in ids ==> rows[i].createdAt <= rows[j].createdAt
      decreases |all - ids|
    {
      var next := OldestIn(rows, all - ids);
      assert all - (ids + {next}) == (all - ids) - {next};
      ids := ids + {next};
    }
    assert OldestFirst(rows, now, locked, ids);
  }
}
