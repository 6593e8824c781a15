/** What one dispatcher adds. Its isRunning flag is pod 0 not being Idle: a poll starts only
  * when the previous one has ended, so no record is in memory when stuck rows are reclaimed.
  * With nobody else claiming, no candidate row is locked.
  */
module OutboxSoleDispatcher {
  import opened OutboxRows
  import opened OutboxProtocol
  import opened OutboxCounts
  import opened OutboxManyPods
  import opened OutboxStaleWrites
  import opened OutboxLiveReclaims

  predicate SoleLabel(l: Label) {
    match l
    case Write(_) => true
    case Tick(_) => true
    case Cleanup(_) => true
    case Claim(p, _, locked) => p == 0 && locked == {}
    case _ => l.pod == 0
  }

  predicate Sole(run: seq<Label>) {
    forall k :: 0 <= k < |run| ==> SoleLabel(run[k])
  }

  /** The records in memory agree with the rows they were read from. */
  ghost predicate BatchFresh(s: State, pod: Pod) {
    pod.Busy? ==>
      forall k :: 0 <= k < |pod.batch| ==>
        && pod.batch[k].id in s.rows
        && s.rows[pod.batch[k].id].status.Processing?
        && s.rows[pod.batch[k].id].retryCount == pod.batch[k].retryCount
  }

  ghost predicate SoleInv(s: State) {
    && Inv(s)
    && (forall p :: p in s.pods ==> p == 0)
    && BatchFresh(s, PodOf(s, 0))
  }

  lemma SoleIsExclusive(s: State, l: Label)
    requires SoleInv(s)
    ensures Exclusive(s)
    ensures Enabled(s, l) && SoleLabel(l) ==> !LiveReclaim(s, l)
  {
    if 0 in s.pods {
      assert PodOk(s, s.pods[0]);
    }
  }

  lemma SoleStepKeepsInv(s: State, l: Label)
    requires SoleInv(s) && Enabled(s, l) && SoleLabel(l)
    ensures SoleInv(Apply(s, l))
  {
    StepKeepsInv(s, l);
    SoleIsExclusive(s, l);
    StepKeepsExclusive(s, l);
    ExclusiveIsFresh(Apply(s, l));
  }

  lemma ExclusiveIsFresh(s: State)
    requires Exclusive(s)
    ensures BatchFresh(s, PodOf(s, 0))
  {
    if PodOf(s, 0).Busy? {
      forall k | 0 <= k < |PodOf(s, 0).batch|
        ensures var rec := PodOf(s, 0).batch[k];
          rec.id in s.rows && s.rows[rec.id].status.Processing? && s.rows[rec.id].retryCount == rec.retryCount
      {
        assert Holds(s, 0, k, PodOf(s, 0).batch[k].id);
        assert UpToDate(s, 0, k, PodOf(s, 0).batch[k].id);
      }
    }
  }

  lemma {:induction false} SoleRunKeepsInv(s: State, run: seq<Label>)
    requires SoleInv(s) && Legal(s, run) && Sole(run)
    ensures SoleInv(After(s, run))
    decreases |run|
  {
    if run != [] {
      var shorter := run[..|run| - 1];
      assert forall k :: 0 <= k < |shorter| ==> shorter[k] == run[k];
      SoleRunKeepsInv(s, shorter);
      SoleStepKeepsInv(After(s, shorter), run[|run| - 1]);
    }
  }

  lemma SoleFromInit(now: int, run: seq<Label>)
    requires Legal(Init(now), run) && Sole(run)
    ensures SoleInv(After(Init(now), run))
  {
    SoleRunKeepsInv(Init(now), run);
  }

  /** One dispatcher whose polls do not overlap never reclaims a row it holds; so what holds of runs
    * without a live reclaim holds of its runs. */
  lemma {:induction false} OneDispatcherIsEnough(now: int, run: seq<Label>)
    requires Legal(Init(now), run) && Sole(run)
    ensures NoLiveReclaim(Init(now), run)
    decreases |run|
  {
    if run != [] {
      var shorter := run[..|run| - 1];
      assert forall k :: 0 <= k < |shorter| ==> shorter[k] == run[k];
      OneDispatcherIsEnough(now, shorter);
      SoleFromInit(now, shorter);
      SoleIsExclusive(After(Init(now), shorter), run[|run| - 1]);
    }
  }

  lemma OnlyProcessingRowsAreHeld(s: State, id: RowId)
    requires SoleInv(s)
    ensures forall p: PodId, k: nat :: Holds(s, p, k, id) ==> p == 0 && id in s.rows && s.rows[id].status.Processing?
  {
  }

  /** With one dispatcher processed and dead_letter are final: whatever happens next, the row
    * stays exactly as it is until cleanup deletes it. */
  lemma FinishedIsFinal(now: int, run: seq<Label>, more: seq<Label>, id: RowId)
    requires Legal(Init(now), run) && Sole(run) && Finished(After(Init(now), run), id)
    requires Legal(After(Init(now), run), more)
    ensures var s := After(Init(now), run);
      var end := After(s, more);
      (id in end.rows && end.rows[id] == s.rows[id]) || (id !in end.rows && id in end.deleted)
  {
    SoleFromInit(now, run);
    var s := After(Init(now), run);
    OnlyProcessingRowsAreHeld(s, id);
    UnthreatenedIsFinal(s, more, id);
  }

  /** When stuck rows are reclaimed, no record of any row is in memory. */
  lemma NobodyHoldsARowAtReclaim(now: int, run: seq<Label>, k: nat, p: PodId, j: nat, id: RowId)
    requires Legal(Init(now), run) && Sole(run) && k < |run| && run[k].Reclaim?
    ensures !Holds(StateAt(Init(now), run, k), p, j, id)
  {
    StepAt(Init(now), run, k);
    assert Sole(run[..k]);
    LegalPrefix(Init(now), run, k);
    SoleFromInit(now, run[..k]);
  }
}
