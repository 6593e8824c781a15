/** What a row says about the run: status, counter and times are those of the steps that wrote the
  * event, touched its row last, and failed it last, whatever the number of pods. */
module OutboxHistory {
  import opened Wrappers
  import opened OutboxRows
  import opened OutboxProtocol
  import opened OutboxCounts
  import opened OutboxManyPods
  import opened OutboxStaleWrites

  /** What a step does to a row. `GivenUp`: the failure is written, and with it how many there were by
    * the record in memory. */
  datatype Touch = Written | Taken | TakenBack | Completed | GivenUp(failures: nat)

  /** When the event was written, the failures by its last failed attempt, and the last touch. */
  datatype History = History(writtenAt: int, failures: nat, last: Touch, at: int)

  ghost function TouchOf(s: State, l: Label, id: RowId): Option<Touch>
    requires Enabled(s, l)
  {
    if l.Write? && id in l.ids then Some(Written)
    else if Claims(l, id) then Some(Taken)
    else if ReclaimsRow(s, l, id) then Some(TakenBack)
    else if l.Done? && PodOf(s, l.pod).batch[0].id == id then Some(Completed)
    else if l.Fail? && PodOf(s, l.pod).batch[0].id == id then Some(GivenUp(PodOf(s, l.pod).batch[0].retryCount + 1))
    else None
  }

  function Touched(h: Option<History>, touch: Touch, now: int): Option<History> {
    if touch.Written? then Some(History(now, 0, Written, now))
    else if h.None? then None
    else Some(h.value.(failures := if touch.GivenUp? then touch.failures else h.value.failures, last := touch, at := now))
  }

  ghost function HistoryOf(s: State, run: seq<Label>, id: RowId): Option<History>
    requires Legal(s, run)
  {
    if run == [] then None
    else
      var before := After(s, run[..|run| - 1]);
      var touch := TouchOf(before, run[|run| - 1], id);
      if touch.None? then HistoryOf(s, run[..|run| - 1], id)
      else Touched(HistoryOf(s, run[..|run| - 1], id), touch.value, before.now)
  }

  predicate Tells(r: Row, h: History) {
    && r.createdAt == h.writtenAt && r.retryCount == h.failures && r.maxRetries == 5
    && match h.last
       case Written => r.status.Pending? && r.processingStartedAt.None? && h.at == h.writtenAt && h.failures == 0
       case Taken => r.status.Processing? && r.processingStartedAt == Some(h.at)
       case TakenBack => r.status.Pending? && r.processingStartedAt.None?
       case Completed => r.status.Processed? && r.processedAt == Some(h.at) && r.processingStartedAt.None?
       case GivenUp(n) =>
         && h.failures == n && r.processingStartedAt.None?
         && if n < 5 then r.status.Failed? && r.nextRetryAt == Some(h.at + 5_000 * Pow2(n)) else r.status.DeadLetter?
  }

  lemma UntouchedStays(s: State, l: Label, id: RowId)
    requires Inv(s) && Enabled(s, l) && id in s.rows && id in NextRows(s, l) && TouchOf(s, l, id).None?
    ensures NextRows(s, l)[id] == s.rows[id]
  {
    assert id in s.audit;
    assert l.Claim? ==> (id in Ids(l.order) <==> Claims(l, id));
  }

  lemma TouchTells(s: State, l: Label, id: RowId, h: Option<History>)
    requires Inv(s) && Enabled(s, l) && id in NextRows(s, l) && TouchOf(s, l, id).Some?
    requires id in s.rows ==> h.Some? && Tells(s.rows[id], h.value)
    ensures var h' := Touched(h, TouchOf(s, l, id).value, s.now); h'.Some? && Tells(NextRows(s, l)[id], h'.value)
  {
    if l.Fail? {
      HeadIsKnown(s);
    } else if l.Write? {
      assert id in l.ids && id !in s.rows;
    } else {
      ClaimedWasEligible(s, l, id);
      assert l.Claim? ==> (id in Ids(l.order) <==> Claims(l, id));
    }
  }

  /** In every run, every row in the table is just what the steps that touched it make of it. */
  lemma {:induction false} RowTellsItsHistory(now: int, run: seq<Label>, id: RowId)
    requires Legal(Init(now), run) && id in After(Init(now), run).rows
    ensures HistoryOf(Init(now), run, id).Some?
    ensures Tells(After(Init(now), run).rows[id], HistoryOf(Init(now), run, id).value)
    decreases |run|
  {
    var shorter, l := run[..|run| - 1], run[|run| - 1];
    var before := After(Init(now), shorter);
    InvAfter(now, shorter);
    RowsGrow(before, l);
    if id in before.rows {
      RowTellsItsHistory(now, shorter, id);
    }
    if TouchOf(before, l, id).Some? {
      TouchTells(before, l, id, HistoryOf(Init(now), shorter, id));
    } else {
      UntouchedStays(before, l, id);
    }
  }

  // ----- from when on a row can be taken ----------------------------------------------

  /** What a claim or a reclaim may do with the row at time `t`, told from its history. */
  predicate DueAt(h: History, t: int) {
    match h.last
    case Written => true
    case TakenBack => true
    case GivenUp(n) => n < 5 && t >= h.at + 5_000 * Pow2(n)
    case _ => false
  }

  /** A row can be claimed at once after it was written or taken back, after the n-th failure 5000 * 2^n
    * milliseconds later, and not otherwise; it can be taken back from five minutes after it was
    * taken on, and not otherwise. */
  lemma DueIff(now: int, run: seq<Label>, id: RowId, t: int)
    requires Legal(Init(now), run) && id in After(Init(now), run).rows
    ensures HistoryOf(Init(now), run, id).Some?
    ensures var r, h := After(Init(now), run).rows[id], HistoryOf(Init(now), run, id).value;
      && (Eligible(r, t) <==> DueAt(h, t))
      && (Stuck(r, t) <==> h.last.Taken? && t >= h.at + 300_000)
  {
    RowTellsItsHistory(now, run, id);
  }

  /** The failure that is written now and leaves attempts makes the row claimable again exactly from the
    * doubled delay on. */
  lemma RetryDueIff(s: State, p: PodId, t: int)
    requires Enabled(s, Fail(p)) && PodOf(s, p).batch[0].id in s.rows
    requires PodOf(s, p).batch[0].retryCount + 1 < PodOf(s, p).batch[0].maxRetries
    ensures var rec := PodOf(s, p).batch[0];
      Eligible(Apply(s, Fail(p)).rows[rec.id], t) <==> t >= s.now + 5_000 * Pow2(rec.retryCount + 1)
  {
  }

  // ----- a claim takes what it returns ----------------------------------------------------

  /** The records a pod holds after its claim are those of the rows claimed, in the order returned. */
  lemma ClaimIsHeld(s: State, p: PodId, order: seq<RowId>, locked: set<RowId>, k: nat)
    requires Enabled(s, Claim(p, order, locked)) && k < |order|
    ensures Holds(Apply(s, Claim(p, order, locked)), p, k, order[k])
  {
    assert forall id :: id in order ==> id in Ids(order);
  }

  /** It takes fifty rows, or all the unlocked ones that are due if there are fewer. */
  lemma ClaimSize(s: State, p: PodId, order: seq<RowId>, locked: set<RowId>, due: set<RowId>)
    requires Enabled(s, Claim(p, order, locked))
    requires forall id :: id in due <==> id in s.rows && Eligible(s.rows[id], s.now) && id !in locked
    ensures |order| == if |due| < 50 then |due| else 50
  {
    assert due == Candidates(s.rows, s.now, locked);
    OrderLength(order);
    assert due == Ids(order) + (due - Ids(order));
  }

  lemma {:induction false} OrderLength(order: seq<RowId>)
    requires forall i, j :: 0 <= i < j < |order| ==> order[i] != order[j]
    ensures |Ids(order)| == |order|
    decreases |order|
  {
    if order == [] {
      assert Ids(order) == {};
    } else {
      var shorter, last := order[..|order| - 1], order[|order| - 1];
      OrderLength(shorter);
      assert Ids(order) == Ids(shorter) + {last};
      assert last !in Ids(shorter);
    }
  }
}
