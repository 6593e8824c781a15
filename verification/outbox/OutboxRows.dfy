/** Rows of the event_outbox table and the single-statement updates made to them.
  *
  * Times are milliseconds on one clock shared by the database and every pod.
  */
module OutboxRows {
  import opened Wrappers

  const BATCH_SIZE := 50
  const STUCK_TIMEOUT_MS := 300_000
  const BASE_RETRY_DELAY_MS := 5_000
  const MAX_RETRIES := 5
  const DAY_MS := 86_400_000
  const PROCESSED_RETENTION_DAYS := 7
  const DEAD_LETTER_RETENTION_DAYS := 30

  type RowId = nat

  datatype Status = Pending | Processing | Processed | Failed | DeadLetter

  datatype Row = Row(
    createdAt: int,
    status: Status,
    retryCount: nat,
    maxRetries: int,
    nextRetryAt: Option<int>,
    processedAt: Option<int>,
    processingStartedAt: Option<int>)

  type Table = map<RowId, Row>

  /** The columns of a claimed row that the dispatcher keeps in memory and uses later. */
  datatype Record = Record(id: RowId, retryCount: nat, maxRetries: int)

  function Pow2(n: nat): (r: nat)
    ensures r >= 1
  {
    if n == 0 then 1 else 2 * Pow2(n - 1)
  }

  predicate Terminal(r: Row) {
    r.status.Processed? || r.status.DeadLetter?
  }

  // ----- writing an event ---------------------------------------------------

  function NewRow(now: int): Row {
    Row(now, Pending, 0, MAX_RETRIES, None, None, None)
  }

  function InsertAll(rows: Table, ids: set<RowId>, now: int): Table {
    rows + map id | id in ids :: NewRow(now)
  }

  // ----- reclaiming stuck rows ----------------------------------------------

  predicate Stuck(r: Row, now: int) {
    r.status.Processing? && r.processingStartedAt.Some? && r.processingStartedAt.value <= now - STUCK_TIMEOUT_MS
  }

  function Reclaimed(r: Row): Row {
    r.(status := Pending, processingStartedAt := None)
  }

  function ReclaimAll(rows: Table, now: int): Table {
    map id | id in rows :: if Stuck(rows[id], now) then Reclaimed(rows[id]) else rows[id]
  }

  // ----- claiming a batch ---------------------------------------------------

  predicate Eligible(r: Row, now: int) {
    || r.status.Pending?
    || (r.status.Failed? && r.nextRetryAt.Some? && r.nextRetryAt.value <= now)
  }

  function Candidates(rows: Table, now: int, locked: set<RowId>): set<RowId> {
    set id | id in rows && Eligible(rows[id], now) && id !in locked
  }

  /** `ids` is what ORDER BY created_at LIMIT 50 FOR UPDATE SKIP LOCKED may select: rows
    * locked by another transaction are passed over, ties on created_at fall either way. */
  predicate OldestFirst(rows: Table, now: int, locked: set<RowId>, ids: set<RowId>) {
    var all := Candidates(rows, now, locked);
    && ids <= all
    && |ids| <= BATCH_SIZE
    && (|ids| < BATCH_SIZE ==> ids == all)
    && (forall i, j :: i in ids && j in all && j !in ids ==> rows[i].createdAt <= rows[j].createdAt)
  }

  function Claimed(r: Row, now: int): Row {
    r.(status := Processing, processingStartedAt := Some(now))
  }

  function ClaimAll(rows: Table, ids: set<RowId>, now: int): Table {
    map id | id in rows :: if id in ids then Claimed(rows[id], now) else rows[id]
  }

  function Snapshot(rows: Table, order: seq<RowId>): (batch: seq<Record>)
    requires forall id :: id in order ==> id in rows
    ensures |batch| == |order|
    ensures forall k :: 0 <= k < |batch| ==>
      batch[k] == Record(order[k], rows[order[k]].retryCount, rows[order[k]].maxRetries)
  {
    seq(|order|, k requires 0 <= k < |order| =>
      Record(order[k], rows[order[k]].retryCount, rows[order[k]].maxRetries))
  }

  // ----- writing the outcome, addressed by id only --------------------------

  function RetryDelay(retryCount: nat): int {
    BASE_RETRY_DELAY_MS * Pow2(retryCount)
  }

  function MarkProcessed(r: Row, now: int): Row {
    r.(status := Processed, processedAt := Some(now), processingStartedAt := None)
  }

  function MarkFailed(r: Row, rec: Record, now: int): Row {
    var n := rec.retryCount + 1;
    if n >= rec.maxRetries then
      r.(status := DeadLetter, retryCount := n, processingStartedAt := None)
    else
      r.(status := Failed, retryCount := n, nextRetryAt := Some(now + RetryDelay(n)), processingStartedAt := None)
  }

  function WriteProcessed(rows: Table, rec: Record, now: int): Table {
    if rec.id in rows then rows[rec.id := MarkProcessed(rows[rec.id], now)] else rows
  }

  function WriteFailure(rows: Table, rec: Record, now: int): Table {
    if rec.id in rows then rows[rec.id := MarkFailed(rows[rec.id], rec, now)] else rows
  }

  // ----- cleanup ------------------------------------------------------------

  predicate OldProcessed(r: Row, now: int) {
    r.status.Processed? && r.processedAt.Some? && r.processedAt.value <= now - PROCESSED_RETENTION_DAYS * DAY_MS
  }

  predicate OldDeadLetter(r: Row, now: int) {
    r.status.DeadLetter? && r.createdAt <= now - DEAD_LETTER_RETENTION_DAYS * DAY_MS
  }

  function Expired(rows: Table, now: int, processed: bool): set<RowId> {
    set id | id in rows && (if processed then OldProcessed(rows[id], now) else OldDeadLetter(rows[id], now))
  }
}
