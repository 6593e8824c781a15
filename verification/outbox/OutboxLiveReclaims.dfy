/** Exactly when several pods stay out of each other's way. Reclaiming goes by age alone; a reclaim
  * is live if it takes back a row that some pod still holds. Without a live reclaim no two pods
  * ever share a row; with one, an event can be delivered twice although nothing fails.
  */
module OutboxLiveReclaims {
  import opened Wrappers
  import opened OutboxRows
  import opened OutboxProtocol
  import opened OutboxCounts
  import opened OutboxManyPods
  import opened OutboxStaleWrites

  ghost predicate TakesHeldRow(s: State, p: PodId, k: nat, id: RowId) {
    Holds(s, p, k, id) && id in s.rows && Stuck(s.rows[id], s.now)
  }

  /** The age test of the reclaim finds a row that a pod still holds. */
  ghost predicate LiveReclaim(s: State, l: Label) {
    l.Reclaim? && exists p: PodId, k: nat, id: RowId :: TakesHeldRow(s, p, k, id)
  }

  ghost predicate NoLiveReclaim(s: State, run: seq<Label>)
    requires Legal(s, run)
    decreases |run|
  {
    run == [] ||
    (NoLiveReclaim(s, run[..|run| - 1]) && !LiveReclaim(After(s, run[..|run| - 1]), run[|run| - 1]))
  }

  // ----- without a live reclaim ------------------------------------------------

  ghost predicate UpToDate(s: State, p: PodId, k: nat, id: RowId)
    requires Holds(s, p, k, id)
  {
    id in s.rows && s.rows[id].status.Processing? && s.rows[id].retryCount == PodOf(s, p).batch[k].retryCount
  }

  /** Every record in memory agrees with its row, which is in processing, and no row is held by
    * two pods, or twice by one. */
  ghost predicate Exclusive(s: State) {
    && (forall p: PodId, k: nat, id: RowId :: Holds(s, p, k, id) ==> UpToDate(s, p, k, id))
    && (forall p: PodId, k: nat, q: PodId, j: nat, id: RowId :: Holds(s, p, k, id) && Holds(s, q, j, id) ==>
          p == q && k == j)
  }

  /** Where a record came from that a pod holds after a step: it held it before, one place further
    * down if an outcome was just written, or it was just claimed. */
  lemma HeldBefore(s: State, l: Label, p: PodId, k: nat, id: RowId)
    requires Inv(s) && Enabled(s, l) && Holds(Apply(s, l), p, k, id)
    ensures l.Claim? && l.pod == p ==> Claims(l, id) && k < |l.order| && l.order[k] == id
    ensures !(l.Claim? && l.pod == p) ==>
              var j := if (l.Done? || l.Fail?) && l.pod == p then k + 1 else k;
              Holds(s, p, j, id) && PodOf(Apply(s, l), p).batch[k] == PodOf(s, p).batch[j]
  {
  }

  lemma OutcomeOfAnother(s: State, l: Label, p: PodId, j: nat, id: RowId)
    requires Inv(s) && Exclusive(s) && Enabled(s, l) && (l.Done? || l.Fail?)
    requires Holds(s, p, j, id) && (p != l.pod || j > 0)
    ensures PodOf(s, l.pod).batch[0].id != id
  {
    if PodOf(s, l.pod).batch[0].id == id {
      assert Holds(s, l.pod, 0, id);
    }
  }

  lemma StepKeepsUpToDate(s: State, l: Label, p: PodId, k: nat, id: RowId)
    requires Inv(s) && Exclusive(s) && Enabled(s, l) && !LiveReclaim(s, l) && Holds(Apply(s, l), p, k, id)
    ensures UpToDate(Apply(s, l), p, k, id)
  {
    HeldBefore(s, l, p, k, id);
    if l.Claim? && l.pod == p {
      assert id in Ids(l.order);
    } else {
      var j := if (l.Done? || l.Fail?) && l.pod == p then k + 1 else k;
      assert UpToDate(s, p, j, id);
      ClaimedWasEligible(s, l, id);
      assert id in s.audit;
      if l.Done? || l.Fail? {
        OutcomeOfAnother(s, l, p, j, id);
      }
      assert l.Reclaim? ==> !TakesHeldRow(s, p, j, id);
    }
  }

  lemma StepKeepsOneHolder(s: State, l: Label, p: PodId, k: nat, q: PodId, j: nat, id: RowId)
    requires Inv(s) && Exclusive(s) && Enabled(s, l)
    requires Holds(Apply(s, l), p, k, id) && Holds(Apply(s, l), q, j, id)
    ensures p == q && k == j
  {
    HeldBefore(s, l, p, k, id);
    HeldBefore(s, l, q, j, id);
    ClaimedWasEligible(s, l, id);
    if l.Claim? && l.pod != p {
      assert UpToDate(s, p, k, id);
    }
    if l.Claim? && l.pod != q {
      assert UpToDate(s, q, j, id);
    }
  }

  lemma StepKeepsExclusive(s: State, l: Label)
    requires Inv(s) && Exclusive(s) && Enabled(s, l) && !LiveReclaim(s, l)
    ensures Exclusive(Apply(s, l))
  {
    var s' := Apply(s, l);
    forall p: PodId, k: nat, id: RowId | Holds(s', p, k, id)
      ensures UpToDate(s', p, k, id)
    {
      StepKeepsUpToDate(s, l, p, k, id);
    }
    forall p: PodId, k: nat, q: PodId, j: nat, id: RowId | Holds(s', p, k, id) && Holds(s', q, j, id)
      ensures p == q && k == j
    {
      StepKeepsOneHolder(s, l, p, k, q, j, id);
    }
  }

  /** Any number of pods, crashes and lost writes: without a live reclaim every record in memory is
    * up to date and no row is held twice. */
  lemma {:induction false} RunKeepsExclusive(s: State, run: seq<Label>)
    requires Inv(s) && Exclusive(s) && Legal(s, run) && NoLiveReclaim(s, run)
    ensures Inv(After(s, run)) && Exclusive(After(s, run))
    decreases |run|
  {
    if run != [] {
      RunKeepsExclusive(s, run[..|run| - 1]);
      StepKeepsInv(After(s, run[..|run| - 1]), run[|run| - 1]);
      StepKeepsExclusive(After(s, run[..|run| - 1]), run[|run| - 1]);
    }
  }

  lemma NothingHeldYet(now: int)
    ensures Inv(Init(now)) && Exclusive(Init(now))
  {
  }

  lemma ExclusiveMeansUnthreatened(s: State, id: RowId)
    requires Exclusive(s) && Finished(s, id)
    ensures !Threatened(s, id)
  {
  }

  /** If no reclaim so far was live, a row once processed or dead-lettered never changes again,
    * whatever follows, until cleanup deletes it. */
  lemma FinishedStaysWithoutLiveReclaim(now: int, run: seq<Label>, more: seq<Label>, id: RowId)
    requires Legal(Init(now), run) && NoLiveReclaim(Init(now), run) && Finished(After(Init(now), run), id)
    requires Legal(After(Init(now), run), more)
    ensures var s := After(Init(now), run);
      var end := After(s, more);
      (id in end.rows && end.rows[id] == s.rows[id]) || (id !in end.rows && id in end.deleted)
  {
    NothingHeldYet(now);
    RunKeepsExclusive(Init(now), run);
    ExclusiveMeansUnthreatened(After(Init(now), run), id);
    UnthreatenedIsFinal(After(Init(now), run), more, id);
  }

  // ----- at most one delivery ----------------------------------------------------

  predicate Fine(l: Label) {
    !l.DoneLost? && !l.Fail? && !l.FailLost? && !l.Crash? && (l.Publish? ==> l.ok)
  }

  /** Pod `p` has delivered the event and is about to say so. */
  ghost predicate Delivered(s: State, p: PodId, id: RowId) {
    Holds(s, p, 0, id) && PodOf(s, p).published == Some(true)
  }

  ghost predicate OnceSoFar(s: State, id: RowId)
    requires id in s.audit
  {
    && s.audit[id].publishes <= 1
    && (s.audit[id].publishes == 1 && id in s.rows ==>
          s.rows[id].status.Processed? || exists p: PodId :: Delivered(s, p, id))
  }

  ghost predicate NoCallFailed(s: State) {
    forall p: PodId :: PodOf(s, p).Busy? ==> PodOf(s, p).published != Some(false)
  }

  ghost predicate AllOnce(s: State) {
    && Inv(s) && Exclusive(s) && NoCallFailed(s)
    && forall id :: id in s.audit ==> OnceSoFar(s, id)
  }

  lemma DeliveryIsTheFirst(s: State, l: Label)
    requires AllOnce(s) && Enabled(s, l) && l.Publish?
    ensures var id := PodOf(s, l.pod).batch[0].id; id in s.audit && s.audit[id].publishes == 0
  {
    HeadIsKnown(s);
    var id := PodOf(s, l.pod).batch[0].id;
    assert UpToDate(s, l.pod, 0, id) by {
      assert Holds(s, l.pod, 0, id);
    }
    assert OnceSoFar(s, id);
    forall p: PodId | Delivered(s, p, id)
      ensures p == l.pod
    {
      assert Holds(s, l.pod, 0, id);
    }
  }

  lemma DeliveredStays(s: State, l: Label, p: PodId, id: RowId)
    requires Inv(s) && Enabled(s, l) && Fine(l) && Delivered(s, p, id) && !(l.Done? && l.pod == p)
    ensures Delivered(Apply(s, l), p, id)
  {
  }

  lemma StepKeepsOnce(s: State, l: Label, id: RowId)
    requires AllOnce(s) && Enabled(s, l) && Fine(l) && !LiveReclaim(s, l) && id in s.audit
    ensures id in Apply(s, l).audit && OnceSoFar(Apply(s, l), id)
  {
    AuditGrows(s, l);
    StepCountsDelivery(s, l, id);
    assert OnceSoFar(s, id);
    if l.Publish? {
      DeliveryIsTheFirst(s, l);
      if PodOf(s, l.pod).batch[0].id == id {
        assert Delivered(Apply(s, l), l.pod, id);
      }
    }
    if s.audit[id].publishes == 1 && id in s.rows {
      OnceStays(s, l, id);
    }
  }

  lemma OnceStays(s: State, l: Label, id: RowId)
    requires AllOnce(s) && Enabled(s, l) && Fine(l) && !LiveReclaim(s, l)
    requires id in s.rows && (s.rows[id].status.Processed? || exists p: PodId :: Delivered(s, p, id))
    ensures id in Apply(s, l).rows ==>
              Apply(s, l).rows[id].status.Processed? || exists p: PodId :: Delivered(Apply(s, l), p, id)
  {
    assert id in s.audit;
    ClaimedWasEligible(s, l, id);
    if !s.rows[id].status.Processed? {
      var p: PodId :| Delivered(s, p, id);
      if !(l.Done? && l.pod == p) {
        DeliveredStays(s, l, p, id);
      }
    }
  }

  lemma NoCallFails(s: State, l: Label)
    requires NoCallFailed(s) && Enabled(s, l) && Fine(l)
    ensures NoCallFailed(Apply(s, l))
  {
    forall p: PodId | PodOf(Apply(s, l), p).Busy?
      ensures PodOf(Apply(s, l), p).published != Some(false)
    {
      assert PodOf(s, p).Busy? ==> PodOf(s, p).published != Some(false);
    }
  }

  lemma StepKeepsAllOnce(s: State, l: Label)
    requires AllOnce(s) && Enabled(s, l) && Fine(l) && !LiveReclaim(s, l)
    ensures AllOnce(Apply(s, l))
  {
    var s' := Apply(s, l);
    StepKeepsInv(s, l);
    StepKeepsExclusive(s, l);
    NoCallFails(s, l);
    AuditGrows(s, l);
    forall id | id in s'.audit
      ensures OnceSoFar(s', id)
    {
      if id in s.audit {
        StepKeepsOnce(s, l, id);
      }
    }
  }

  lemma {:induction false} RunKeepsAllOnce(s: State, run: seq<Label>)
    requires AllOnce(s) && Legal(s, run) && NothingFails(run) && NoLiveReclaim(s, run)
    ensures AllOnce(After(s, run))
    decreases |run|
  {
    if run != [] {
      var shorter := run[..|run| - 1];
      assert run[|run| - 1] in run;
      RunKeepsAllOnce(s, shorter);
      StepKeepsAllOnce(After(s, shorter), run[|run| - 1]);
    }
  }

  /** Any number of pods: if nothing fails and no reclaim is live, every event is delivered at most
    * once. */
  lemma DeliveredAtMostOnce(now: int, run: seq<Label>, id: RowId)
    requires Legal(Init(now), run) && NothingFails(run) && NoLiveReclaim(Init(now), run)
    ensures CountIn(Init(now), run, DeliveriesOf(id)) <= 1
  {
    RunKeepsAllOnce(Init(now), run);
    DeliveriesMatchRun(now, run, id);
    var s := After(Init(now), run);
    assert id in s.audit ==> OnceSoFar(s, id);
  }

  // ----- after a live reclaim ------------------------------------------------------

  predicate Smooth(run: seq<Label>) {
    NothingFails(run) && forall l :: l in run ==> !l.Reclaim?
  }

  lemma SmoothConcat(first: seq<Label>, second: seq<Label>)
    requires Smooth(first) && Smooth(second)
    ensures Smooth(first + second)
  {
  }

  /** Row `id` has been delivered `n` times more in `s'`. */
  ghost predicate MoreDeliveries(s: State, s': State, id: RowId, n: nat) {
    id in s.audit && id in s'.audit && s'.audit[id].publishes >= s.audit[id].publishes + n
  }

  /** Pod `p` works through its batch until it has delivered the record at place `k`. */
  lemma {:induction false} DeliverUpTo(s: State, p: PodId, k: nat, id: RowId) returns (run: seq<Label>, end: State)
    requires Inv(s) && Holds(s, p, k, id) && PodOf(s, p).published != Some(false)
    ensures Goes(s, run, end) && Smooth(run)
    ensures MoreDeliveries(s, end, id, if k > 0 || PodOf(s, p).published.None? then 1 else 0)
    decreases k
  {
    if k == 0 {
      assert PodOk(s, s.pods[p]);
      run, end := TellHead(s, p);
    } else {
      var first, ready := NextRecord(s, p, k, id);
      var rest;
      rest, end := DeliverUpTo(ready, p, k - 1, id);
      GoesOn(s, first, ready, rest, end);
      SmoothConcat(first, rest);
      run := first + rest;
    }
  }

  /** The handler call for the first record of pod `p` has returned. */
  lemma TellHead(s: State, p: PodId) returns (run: seq<Label>, end: State)
    requires Inv(s) && PodOf(s, p).Busy? && PodOf(s, p).batch != [] && PodOf(s, p).published != Some(false)
    ensures Goes(s, run, end) && Smooth(run) && Inv(end)
    ensures PodOf(end, p) == Busy(PodOf(s, p).batch, Some(true))
    ensures forall id :: id in s.audit ==>
              MoreDeliveries(s, end, id, if PodOf(s, p).batch[0].id == id && PodOf(s, p).published.None? then 1 else 0)
  {
    if PodOf(s, p).published.None? {
      run, end := [Publish(p, true)], Apply(s, Publish(p, true));
      OneStep(s, Publish(p, true));
      StepKeepsInv(s, Publish(p, true));
    } else {
      run, end := [], s;
      assert PodOf(s, p).published.value;
      assert PodOf(s, p) == Busy(PodOf(s, p).batch, Some(true));
    }
  }

  lemma NextRecord(s: State, p: PodId, k: nat, id: RowId) returns (run: seq<Label>, end: State)
    requires Inv(s) && k > 0 && Holds(s, p, k, id) && PodOf(s, p).published != Some(false)
    ensures Goes(s, run, end) && Smooth(run) && Inv(end)
    ensures Holds(end, p, k - 1, id) && PodOf(end, p).published.None? && MoreDeliveries(s, end, id, 0)
  {
    assert PodOk(s, s.pods[p]);
    var first, told := TellHead(s, p);
    end := DoneWithHead(told, p, k, id);
    GoesOn(s, first, told, [Done(p)], end);
    run := first + [Done(p)];
  }

  lemma DoneWithHead(s: State, p: PodId, k: nat, id: RowId) returns (end: State)
    requires Inv(s) && k > 0 && Holds(s, p, k, id) && PodOf(s, p).published == Some(true)
    ensures Goes(s, [Done(p)], end) && Inv(end)
    ensures Holds(end, p, k - 1, id) && PodOf(end, p).published.None?
    ensures id in s.audit && id in end.audit && end.audit[id].publishes == s.audit[id].publishes
  {
    assert PodOk(s, s.pods[p]);
    end := Apply(s, Done(p));
    OneStep(s, Done(p));
    StepKeepsInv(s, Done(p));
  }

  /** Apart from pod `q` and, for row `id`, `n` more deliveries, nothing that matters has changed. */
  ghost predicate OnlyPod(s: State, s': State, q: PodId, id: RowId, n: nat) {
    && (forall p: PodId :: p != q ==> PodOf(s', p) == PodOf(s, p))
    && id in s.audit && id in s'.audit && s'.audit[id].publishes == s.audit[id].publishes + n
  }

  lemma TakeBack(s: State, q: PodId, id: RowId) returns (s': State)
    requires Inv(s) && PodOf(s, q).Idle? && id in s.rows && Stuck(s.rows[id], s.now)
    ensures Step(s, Reclaim(q), s') && Inv(s') && OnlyPod(s, s', q, id, 0)
    ensures PodOf(s', q).Reclaiming? && id in s'.rows && s'.rows[id].status.Pending?
  {
    s' := Apply(s, Reclaim(q));
    StepKeepsInv(s, Reclaim(q));
    assert id in s.audit;
  }

  /** The claim finds all other rows locked. */
  lemma ClaimOne(s: State, q: PodId, id: RowId) returns (l: Label, s': State)
    requires Inv(s) && PodOf(s, q).Reclaiming? && id in s.rows && s.rows[id].status.Pending?
    ensures l.Claim? && Step(s, l, s') && Inv(s') && OnlyPod(s, s', q, id, 0)
    ensures PodOf(s', q).Busy? && PodOf(s', q).batch[0].id == id && PodOf(s', q).published.None?
  {
    l := Claim(q, [id], s.rows.Keys - {id});
    assert Ids([id]) == {id};
    assert Candidates(s.rows, s.now, s.rows.Keys - {id}) == {id};
    StepKeepsInv(s, l);
    assert id in s.audit;
    s' := Apply(s, l);
  }

  lemma DeliverOne(s: State, q: PodId, id: RowId) returns (s': State)
    requires Inv(s) && PodOf(s, q).Busy? && PodOf(s, q).batch[0].id == id && PodOf(s, q).published.None?
    ensures Step(s, Publish(q, true), s') && Inv(s') && OnlyPod(s, s', q, id, 1)
  {
    StepKeepsInv(s, Publish(q, true));
    HeadIsKnown(s);
    s' := Apply(s, Publish(q, true));
  }

  lemma OnlyPodTwice(s: State, s1: State, s2: State, q: PodId, id: RowId, m: nat, n: nat)
    requires OnlyPod(s, s1, q, id, m) && OnlyPod(s1, s2, q, id, n)
    ensures OnlyPod(s, s2, q, id, m + n)
  {
  }

  lemma ClaimAndDeliver(s: State, q: PodId, id: RowId) returns (run: seq<Label>, end: State)
    requires Inv(s) && PodOf(s, q).Reclaiming? && id in s.rows && s.rows[id].status.Pending?
    ensures Goes(s, run, end) && Smooth(run) && Inv(end) && OnlyPod(s, end, q, id, 1)
  {
    var claim, claimed := ClaimOne(s, q, id);
    end := DeliverOne(claimed, q, id);
    OnlyPodTwice(s, claimed, end, q, id, 0, 1);
    GoesTwice(s, claim, claimed, Publish(q, true), end);
    SmoothConcat([claim], [Publish(q, true)]);
    run := [claim] + [Publish(q, true)];
  }

  lemma GoesTwice(s: State, first: Label, mid: State, second: Label, end: State)
    requires Step(s, first, mid) && Step(mid, second, end)
    ensures Goes(s, [first] + [second], end)
  {
    OneStep(s, first);
    OneStep(mid, second);
    GoesOn(s, [first], mid, [second], end);
  }

  /** Pod `q` takes back row `id`, claims nothing else, and delivers the event. */
  lemma ReclaimAndDeliver(s: State, q: PodId, id: RowId) returns (s1: State, run: seq<Label>, end: State)
    requires Inv(s) && PodOf(s, q).Idle? && id in s.rows && Stuck(s.rows[id], s.now)
    ensures Step(s, Reclaim(q), s1) && Goes(s1, run, end) && Smooth(run)
    ensures Inv(end) && OnlyPod(s, end, q, id, 1)
  {
    s1 := TakeBack(s, q, id);
    run, end := ClaimAndDeliver(s1, q, id);
    OnlyPodTwice(s, s1, end, q, id, 0, 1);
  }

  ghost predicate TwiceIn(s: State, id: RowId) {
    id in s.audit && s.audit[id].publishes >= 2
  }

  lemma HolderDelivers(s: State, mid: State, p: PodId, k: nat, q: PodId, id: RowId) returns (run: seq<Label>, end: State)
    requires Inv(s) && NoCallFailed(s) && Holds(s, p, k, id) && p != q && Inv(mid) && OnlyPod(s, mid, q, id, 1)
    ensures Goes(mid, run, end) && Smooth(run) && TwiceIn(end, id)
  {
    assert PodOk(s, s.pods[p]);
    assert PodOf(mid, p) == PodOf(s, p) && Holds(mid, p, k, id);
    if PodOf(s, p).published.Some? {
      assert PodOf(s, p).published.value;
      assert k == 0 ==> s.audit[id].publishes >= 1;
    }
    run, end := DeliverUpTo(mid, p, k, id);
  }

  /** The reclaim may be followed by a run without another reclaim in which nothing fails and after
    * which the event has been delivered twice in all. */
  lemma LiveReclaimDeliversTwice(s: State, q: PodId) returns (more: seq<Label>, id: RowId)
    requires Inv(s) && NoCallFailed(s) && Enabled(s, Reclaim(q)) && LiveReclaim(s, Reclaim(q))
    ensures Legal(Apply(s, Reclaim(q)), more) && Smooth(more)
    ensures TwiceIn(After(Apply(s, Reclaim(q)), more), id)
  {
    var p: PodId, k: nat;
    p, k, id :| TakesHeldRow(s, p, k, id);
    var s1, first, mid := ReclaimAndDeliver(s, q, id);
    var rest, end := HolderDelivers(s, mid, p, k, q, id);
    GoesOn(s1, first, mid, rest, end);
    SmoothConcat(first, rest);
    more := first + rest;
  }

  lemma {:induction false} NoReclaimIsLive(s: State, run: seq<Label>)
    requires Legal(s, run) && Smooth(run)
    ensures NoLiveReclaim(s, run)
    decreases |run|
  {
    if run != [] {
      NoReclaimIsLive(s, run[..|run| - 1]);
      assert run[|run| - 1] in run;
    }
  }

  // ----- exactly then ----------------------------------------------------------------

  lemma Joined(now: int, past: seq<Label>, l: Label, more: seq<Label>)
    requires Legal(Init(now), past) && Enabled(After(Init(now), past), l)
    requires Legal(Apply(After(Init(now), past), l), more)
    ensures Legal(Init(now), past + ([l] + more))
    ensures After(Init(now), past + ([l] + more)) == After(Apply(After(Init(now), past), l), more)
  {
    StepThenRun(After(Init(now), past), l, more);
    LegalConcat(Init(now), past, [l] + more);
  }

  /** How often the event is delivered in `past`, then `l`, then `more`. */
  ghost function DeliveriesWith(now: int, past: seq<Label>, l: Label, more: seq<Label>, id: RowId): nat
    requires Legal(Init(now), past) && Enabled(After(Init(now), past), l)
    requires Legal(Apply(After(Init(now), past), l), more)
  {
    Joined(now, past, l, more);
    CountIn(Init(now), past + ([l] + more), DeliveriesOf(id))
  }

  lemma DeliveriesAreAudited(now: int, past: seq<Label>, l: Label, more: seq<Label>, id: RowId)
    requires Legal(Init(now), past) && Enabled(After(Init(now), past), l)
    requires Legal(Apply(After(Init(now), past), l), more)
    ensures var end := After(Apply(After(Init(now), past), l), more);
      DeliveriesWith(now, past, l, more, id) == if id in end.audit then end.audit[id].publishes else 0
  {
    Joined(now, past, l, more);
    DeliveriesMatchRun(now, past + ([l] + more), id);
  }

  /** Whatever follows the reclaim by pod `q`, short of a failure or of another live reclaim, no event
    * is delivered twice. */
  ghost predicate SafeAfter(now: int, past: seq<Label>, q: PodId)
    requires Legal(Init(now), past) && Enabled(After(Init(now), past), Reclaim(q))
  {
    var s := Apply(After(Init(now), past), Reclaim(q));
    forall more: seq<Label>, id: RowId :: Legal(s, more) && NothingFails(more) && NoLiveReclaim(s, more) ==>
      DeliveriesWith(now, past, Reclaim(q), more, id) <= 1
  }

  lemma StillOnce(s: State, q: PodId, more: seq<Label>, id: RowId)
    requires AllOnce(s) && Enabled(s, Reclaim(q)) && !LiveReclaim(s, Reclaim(q))
    requires Legal(Apply(s, Reclaim(q)), more) && NothingFails(more) && NoLiveReclaim(Apply(s, Reclaim(q)), more)
    ensures !TwiceIn(After(Apply(s, Reclaim(q)), more), id)
  {
    StepKeepsAllOnce(s, Reclaim(q));
    RunKeepsAllOnce(Apply(s, Reclaim(q)), more);
    var end := After(Apply(s, Reclaim(q)), more);
    assert id in end.audit ==> OnceSoFar(end, id);
  }

  /** With any number of pods the age test decides: in a run where nothing has failed and no reclaim
    * was live, the next reclaim is safe if and only if no row it takes back is still held. */
  lemma ReclaimIsSafeIff(now: int, past: seq<Label>, q: PodId)
    requires Legal(Init(now), past) && NothingFails(past) && NoLiveReclaim(Init(now), past)
    requires Enabled(After(Init(now), past), Reclaim(q))
    ensures SafeAfter(now, past, q) <==> !LiveReclaim(After(Init(now), past), Reclaim(q))
  {
    var s := After(Init(now), past);
    RunKeepsAllOnce(Init(now), past);
    if LiveReclaim(s, Reclaim(q)) {
      var more, id := LiveReclaimDeliversTwice(s, q);
      NoReclaimIsLive(Apply(s, Reclaim(q)), more);
      DeliveriesAreAudited(now, past, Reclaim(q), more, id);
      assert DeliveriesWith(now, past, Reclaim(q), more, id) > 1;
    } else {
      forall more: seq<Label>, id: RowId
        | Legal(Apply(s, Reclaim(q)), more) && NothingFails(more) && NoLiveReclaim(Apply(s, Reclaim(q)), more)
        ensures DeliveriesWith(now, past, Reclaim(q), more, id) <= 1
      {
        StillOnce(s, q, more, id);
        DeliveriesAreAudited(now, past, Reclaim(q), more, id);
      }
    }
  }
}
