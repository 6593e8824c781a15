/** Any sequence of calls on the service objects, writes, polls and cleanups, with time passing in
  * between, is a run of the transition system with one dispatcher, in which everything is counted
  * as on the calls; so what holds of every such run holds of the objects.
  */
module OutboxRefinement {
  import opened Wrappers
  import opened OutboxRows
  import opened OutboxProtocol
  import opened OutboxCounts
  import opened OutboxManyPods
  import opened OutboxStaleWrites
  import opened OutboxLiveReclaims
  import opened OutboxAccounting
  import opened OutboxSoleDispatcher
  import opened OutboxFairness
  import opened OutboxServices

  // ----- one record ------------------------------------------------------------------

  /** The statements of processEvent for one record. */
  function LabelsOf(a: Attempt): seq<Label> {
    (if a.elapsed > 0 then [Tick(a.elapsed)] else []) + ([Publish(0, a.ok)] + OutcomeOf(a))
  }

  function OutcomeOf(a: Attempt): seq<Label> {
    if a.ok && !a.saved then [DoneLost(0)] + [LastOf(a)] else [LastOf(a)]
  }

  function LastOf(a: Attempt): Label {
    if Succeeds(a) then Done(0) else if a.recorded then Fail(0) else FailLost(0)
  }

  ghost predicate Handling(s: State, batch: seq<Record>, published: Option<bool>) {
    batch != [] && PodOf(s, 0) == Busy(batch, published)
  }

  ghost predicate SameTable(s: State, s': State, elapsed: int) {
    s'.rows == s.rows && s'.now == s.now + elapsed
  }

  ghost predicate Attempted(s: State, s': State, batch: seq<Record>, a: Attempt) {
    && batch != [] && s'.now == s.now && s'.rows == AfterAttempt(s.rows, batch[0], a, s.now)
    && PodOf(s', 0) == if Escapes(a) then Idle else Release(batch)
  }

  lemma TickStep(s: State, batch: seq<Record>, elapsed: nat, what: Kind)
    requires Handling(s, batch, None) && elapsed > 0
    ensures Enabled(s, Tick(elapsed)) && SameTable(s, Apply(s, Tick(elapsed)), elapsed)
    ensures Handling(Apply(s, Tick(elapsed)), batch, None) && StepCount(s, Tick(elapsed), what) == 0
  {
  }

  lemma PublishStep(s: State, batch: seq<Record>, ok: bool, what: Kind)
    requires Handling(s, batch, None)
    ensures Enabled(s, Publish(0, ok)) && SameTable(s, Apply(s, Publish(0, ok)), 0)
    ensures Handling(Apply(s, Publish(0, ok)), batch, Some(ok))
    ensures StepCount(s, Publish(0, ok), what) == One(ok && what == DeliveriesOf(batch[0].id))
  {
  }

  lemma LostStep(s: State, batch: seq<Record>, what: Kind)
    requires Handling(s, batch, Some(true))
    ensures Enabled(s, DoneLost(0)) && SameTable(s, Apply(s, DoneLost(0)), 0)
    ensures Handling(Apply(s, DoneLost(0)), batch, Some(false)) && StepCount(s, DoneLost(0), what) == 0
  {
  }

  lemma LastStep(s: State, batch: seq<Record>, a: Attempt, what: Kind)
    requires Handling(s, batch, Some(Succeeds(a)))
    ensures Enabled(s, LastOf(a)) && Attempted(s, Apply(s, LastOf(a)), batch, a)
    ensures StepCount(s, LastOf(a), what) == CutShort(batch, a, what)
  {
  }

  /** An error that escapes leaves this record and all after it without an outcome. */
  function CutShort(batch: seq<Record>, a: Attempt, what: Kind): nat {
    if what.Abandoned? && Escapes(a) then |batch| else 0
  }

  function AttemptCount(batch: seq<Record>, a: Attempt, what: Kind): nat
    requires batch != []
  {
    One(a.ok && what == DeliveriesOf(batch[0].id)) + CutShort(batch, a, what)
  }

  lemma OutcomeRun(s: State, batch: seq<Record>, a: Attempt, what: Kind)
    requires Handling(s, batch, Some(a.ok))
    ensures Legal(s, OutcomeOf(a)) && Attempted(s, After(s, OutcomeOf(a)), batch, a)
    ensures CountIn(s, OutcomeOf(a), what) == CutShort(batch, a, what)
  {
    if a.ok && !a.saved {
      LostStep(s, batch, what);
      LastStep(Apply(s, DoneLost(0)), batch, a, what);
      CountOne(Apply(s, DoneLost(0)), LastOf(a), what);
      CountFirst(s, DoneLost(0), [LastOf(a)], what);
    } else {
      LastStep(s, batch, a, what);
      CountOne(s, LastOf(a), what);
    }
  }

  lemma PublishRun(s: State, batch: seq<Record>, a: Attempt, what: Kind)
    requires Handling(s, batch, None)
    ensures var run := [Publish(0, a.ok)] + OutcomeOf(a);
      Legal(s, run) && Attempted(s, After(s, run), batch, a) && CountIn(s, run, what) == AttemptCount(batch, a, what)
  {
    PublishStep(s, batch, a.ok, what);
    OutcomeRun(Apply(s, Publish(0, a.ok)), batch, a, what);
    CountFirst(s, Publish(0, a.ok), OutcomeOf(a), what);
  }

  /** processEvent on the first record in memory. */
  lemma EventRun(s: State, batch: seq<Record>, a: Attempt, what: Kind)
    requires Handling(s, batch, None)
    ensures Legal(s, LabelsOf(a))
    ensures Attempted(s.(now := s.now + a.elapsed), After(s, LabelsOf(a)), batch, a)
    ensures CountIn(s, LabelsOf(a), what) == AttemptCount(batch, a, what)
  {
    var rest := [Publish(0, a.ok)] + OutcomeOf(a);
    if a.elapsed > 0 {
      LaterEventRun(s, batch, a, what);
    } else {
      PublishRun(s, batch, a, what);
      assert LabelsOf(a) == rest;
    }
  }

  lemma LaterEventRun(s: State, batch: seq<Record>, a: Attempt, what: Kind)
    requires Handling(s, batch, None) && a.elapsed > 0
    ensures var run := [Tick(a.elapsed)] + ([Publish(0, a.ok)] + OutcomeOf(a));
      && Legal(s, run) && Attempted(s.(now := s.now + a.elapsed), After(s, run), batch, a)
      && CountIn(s, run, what) == AttemptCount(batch, a, what)
  {
    var rest := [Publish(0, a.ok)] + OutcomeOf(a);
    TickStep(s, batch, a.elapsed, what);
    var later := Apply(s, Tick(a.elapsed));
    PublishRun(later, batch, a, what);
    CountFirst(s, Tick(a.elapsed), rest, what);
    AttemptedLater(s, later, After(s, [Tick(a.elapsed)] + rest), batch, a);
  }

  lemma AttemptedLater(s: State, later: State, end: State, batch: seq<Record>, a: Attempt)
    requires SameTable(s, later, a.elapsed) && Attempted(later, end, batch, a)
    ensures Attempted(s.(now := s.now + a.elapsed), end, batch, a)
  {
  }

  // ----- the batch -------------------------------------------------------------------

  /** The statements of the loop over the batch, from record `k` on. */
  function BatchLabels(size: nat, attempts: nat -> Attempt, k: nat): seq<Label>
    requires k <= size
    decreases size - k
  {
    if k == size then []
    else LabelsOf(attempts(k)) + (if Escapes(attempts(k)) then [] else BatchLabels(size, attempts, k + 1))
  }

  function BatchCount(batch: seq<Record>, attempts: nat -> Attempt, k: nat, what: Kind): nat
    requires k <= |batch|
    decreases |batch| - k
  {
    if k == |batch| then 0
    else
      AttemptCount(batch[k..], attempts(k), what)
      + (if Escapes(attempts(k)) then 0 else BatchCount(batch, attempts, k + 1, what))
  }

  ghost predicate BatchDone(s: State, s': State, batch: seq<Record>, attempts: nat -> Attempt, k: nat)
    requires k <= |batch|
  {
    && PodOf(s', 0).Idle? && s'.rows == AfterBatch(s.rows, batch, attempts, k, s.now)
    && s'.now == BatchEnd(|batch|, attempts, k, s.now)
  }

  /** One record done, and the rest after it unless the error escaped. */
  lemma BatchStep(s: State, mid: State, end: State, batch: seq<Record>, attempts: nat -> Attempt, k: nat)
    requires k < |batch| && Attempted(s.(now := s.now + attempts(k).elapsed), mid, batch[k..], attempts(k))
    requires if Escapes(attempts(k)) then end == mid else BatchDone(mid, end, batch, attempts, k + 1)
    ensures BatchDone(s, end, batch, attempts, k)
  {
  }

  lemma ReleaseTail(batch: seq<Record>, k: nat)
    requires k < |batch|
    ensures Release(batch[k..]) == if k + 1 == |batch| then Idle else Busy(batch[k + 1..], None)
  {
    assert batch[k..][1..] == batch[k + 1..];
  }

  /** The run leads to a finished batch, and everything in it happens as often as in the batch. */
  ghost predicate DoesBatch(s: State, run: seq<Label>, batch: seq<Record>, attempts: nat -> Attempt, k: nat, what: Kind)
    requires k <= |batch|
  {
    Legal(s, run) && BatchDone(s, After(s, run), batch, attempts, k)
    && CountIn(s, run, what) == BatchCount(batch, attempts, k, what)
  }

  lemma BatchGoesOn(s: State, first: seq<Label>, mid: State, rest: seq<Label>, batch: seq<Record>,
                    attempts: nat -> Attempt, k: nat, what: Kind)
    requires k < |batch| && !Escapes(attempts(k)) && Legal(s, first) && After(s, first) == mid
    requires Attempted(s.(now := s.now + attempts(k).elapsed), mid, batch[k..], attempts(k))
    requires CountIn(s, first, what) == AttemptCount(batch[k..], attempts(k), what)
    requires DoesBatch(mid, rest, batch, attempts, k + 1, what)
    ensures DoesBatch(s, first + rest, batch, attempts, k, what)
  {
    CountsAdd(s, first, rest, what);
    BatchStep(s, mid, After(mid, rest), batch, attempts, k);
  }

  lemma {:induction false} BatchRun(s: State, batch: seq<Record>, attempts: nat -> Attempt, k: nat, what: Kind)
    requires k <= |batch| && PodOf(s, 0) == if k == |batch| then Idle else Busy(batch[k..], None)
    ensures DoesBatch(s, BatchLabels(|batch|, attempts, k), batch, attempts, k, what)
    decreases |batch| - k
  {
    if k < |batch| {
      var first := LabelsOf(attempts(k));
      EventRun(s, batch[k..], attempts(k), what);
      var mid := After(s, first);
      if Escapes(attempts(k)) {
        assert first + [] == first;
        BatchStep(s, mid, mid, batch, attempts, k);
      } else {
        ReleaseTail(batch, k);
        BatchRun(mid, batch, attempts, k + 1, what);
        BatchGoesOn(s, first, mid, BatchLabels(|batch|, attempts, k + 1), batch, attempts, k, what);
      }
    }
  }

  // ----- calls on the objects ------------------------------------------------------

  /** A call, with what the database and the handlers answered. */
  datatype Call =
    | Insert(ids: set<RowId>)
    | Poll(answers: Answers, batch: seq<Record>, attempts: nat -> Attempt)
    | Clean(processed: bool)
    | Wait(delta: nat)

  /** The table, the clock, and the ids used so far. */
  datatype Outbox = Outbox(now: int, rows: Table, used: set<RowId>)

  /** Ids are fresh, and a poll claims what the claiming statement may answer. */
  ghost predicate CallOk(o: Outbox, c: Call) {
    match c
    case Insert(ids) => ids !! o.used
    case Poll(answers, batch, _) => MayClaim(o.rows, o.now, answers, batch)
    case _ => true
  }

  function AfterCall(o: Outbox, c: Call): Outbox {
    match c
    case Insert(ids) => o.(rows := InsertAll(o.rows, ids, o.now), used := o.used + ids)
    case Poll(answers, batch, attempts) =>
      o.(rows := AfterPoll(o.rows, o.now, answers, batch, attempts),
         now := if GetsBatch(answers) then BatchEnd(|batch|, attempts, 0, o.now) else o.now)
    case Clean(processed) => o.(rows := o.rows - Expired(o.rows, o.now, processed))
    case Wait(delta) => o.(now := o.now + delta)
  }

  function AfterCalls(o: Outbox, calls: seq<Call>): Outbox {
    if calls == [] then o else AfterCall(AfterCalls(o, calls[..|calls| - 1]), calls[|calls| - 1])
  }

  ghost predicate CallsOk(o: Outbox, calls: seq<Call>) {
    calls == [] || (CallsOk(o, calls[..|calls| - 1]) && CallOk(AfterCalls(o, calls[..|calls| - 1]), calls[|calls| - 1]))
  }

  function ViewOf(s: State): Outbox {
    Outbox(s.now, s.rows, s.audit.Keys)
  }

  /** Nobody else claims, so nothing is locked. */
  predicate Alone(calls: seq<Call>) {
    forall k :: 0 <= k < |calls| ==> (calls[k].Poll? ==> calls[k].answers.locked == {})
  }

  /** How often a call makes something happen. */
  function CallCount(o: Outbox, c: Call, what: Kind): nat {
    var gets := c.Poll? && GetsBatch(c.answers);
    match what
    case ClaimsOf(id) => One(gets && id in IdsOf(c.batch))
    case ReclaimsOf(id) => One(c.Poll? && c.answers.reclaims && id in o.rows && Stuck(o.rows[id], o.now))
    case DeliveriesOf(_) => if gets then BatchCount(c.batch, c.attempts, 0, what) else 0
    case Polls => One(gets)
    case Abandoned => if gets then BatchCount(c.batch, c.attempts, 0, what) else 0
    case EarlyWrites(cutoff) => One(c.Insert? && o.now <= cutoff)
  }

  function CallsCount(o: Outbox, calls: seq<Call>, what: Kind): nat {
    if calls == [] then 0
    else
      var shorter := calls[..|calls| - 1];
      CallsCount(o, shorter, what) + CallCount(AfterCalls(o, shorter), calls[|calls| - 1], what)
  }

  // ----- the statements of a call ----------------------------------------------------

  function OrderOf(batch: seq<Record>): seq<RowId> {
    seq(|batch|, k requires 0 <= k < |batch| => batch[k].id)
  }

  function ClaimLabel(answers: Answers, batch: seq<Record>): Label {
    Claim(0, OrderOf(batch), answers.locked)
  }

  function PollLabels(answers: Answers, batch: seq<Record>, attempts: nat -> Attempt): seq<Label> {
    if !answers.reclaims then []
    else [Reclaim(0)] + (if answers.claims then [ClaimLabel(answers, batch)] + BatchLabels(|batch|, attempts, 0) else [Crash(0)])
  }

  function LabelsOfCall(c: Call): seq<Label> {
    match c
    case Insert(ids) => [Write(ids)]
    case Poll(answers, batch, attempts) => PollLabels(answers, batch, attempts)
    case Clean(processed) => [Cleanup(processed)]
    case Wait(delta) => if delta > 0 then [Tick(delta)] else []
  }

  function LabelsOfCalls(calls: seq<Call>): seq<Label> {
    if calls == [] then []
    else LabelsOfCalls(calls[..|calls| - 1]) + LabelsOfCall(calls[|calls| - 1])
  }

  // ----- they lead where the call leads -------------------------------------------------

  lemma ClaimStep(s: State, answers: Answers, batch: seq<Record>)
    requires ClaimOf(s.rows, s.now, answers.locked, batch) && PodOf(s, 0).Reclaiming?
    ensures var l := ClaimLabel(answers, batch);
      && Enabled(s, l)
      && Apply(s, l).rows == ClaimAll(s.rows, IdsOf(batch), s.now) && Apply(s, l).now == s.now
      && PodOf(Apply(s, l), 0) == if batch == [] then Idle else Busy(batch, None)
  {
    var order := OrderOf(batch);
    assert forall k :: 0 <= k < |batch| ==> order[k] == batch[k].id;
    assert Ids(order) == IdsOf(batch);
    assert Snapshot(s.rows, order) == batch;
  }

  ghost predicate Polled(s: State, s': State, answers: Answers, batch: seq<Record>, attempts: nat -> Attempt) {
    && PodOf(s', 0).Idle? && s'.rows == AfterPoll(s.rows, s.now, answers, batch, attempts)
    && s'.now == if GetsBatch(answers) then BatchEnd(|batch|, attempts, 0, s.now) else s.now
  }

  lemma ClaimCounts(s: State, answers: Answers, batch: seq<Record>, what: Kind)
    requires Enabled(s, ClaimLabel(answers, batch))
    ensures StepCount(s, ClaimLabel(answers, batch), what)
         == One(what.Polls? || (what.ClaimsOf? && what.id in IdsOf(batch)))
  {
    var order := OrderOf(batch);
    if what.ClaimsOf? && what.id in IdsOf(batch) {
      var k :| 0 <= k < |batch| && batch[k].id == what.id;
      assert order[k] == what.id;
    }
  }

  lemma ReclaimCounts(s: State, answers: Answers, what: Kind)
    requires Enabled(s, Reclaim(0))
    ensures StepCount(s, Reclaim(0), what)
         == One(what.ReclaimsOf? && what.id in s.rows && Stuck(s.rows[what.id], s.now))
  {
  }

  lemma {:induction false} BatchCountsOnly(batch: seq<Record>, attempts: nat -> Attempt, k: nat, what: Kind)
    requires k <= |batch| && !what.DeliveriesOf? && !what.Abandoned?
    ensures BatchCount(batch, attempts, k, what) == 0
    decreases |batch| - k
  {
    if k < |batch| {
      BatchCountsOnly(batch, attempts, k + 1, what);
    }
  }

  lemma FullPollRun(s: State, answers: Answers, batch: seq<Record>, attempts: nat -> Attempt, what: Kind)
    requires PodOf(s, 0).Idle? && GetsBatch(answers) && ClaimOf(ReclaimAll(s.rows, s.now), s.now, answers.locked, batch)
    ensures var run := PollLabels(answers, batch, attempts);
      && Legal(s, run) && Polled(s, After(s, run), answers, batch, attempts)
      && CountIn(s, run, what) == CallCount(ViewOf(s), Poll(answers, batch, attempts), what)
  {
    var reclaimed := Apply(s, Reclaim(0));
    ClaimAndBatchRun(reclaimed, answers, batch, attempts, what);
    CountFirst(s, Reclaim(0), [ClaimLabel(answers, batch)] + BatchLabels(|batch|, attempts, 0), what);
    ReclaimCounts(s, answers, what);
    PollCountAdds(ViewOf(s), answers, batch, attempts, what);
  }

  lemma PollCountAdds(o: Outbox, answers: Answers, batch: seq<Record>, attempts: nat -> Attempt, what: Kind)
    requires GetsBatch(answers)
    ensures CallCount(o, Poll(answers, batch, attempts), what)
         == One(what.ReclaimsOf? && what.id in o.rows && Stuck(o.rows[what.id], o.now))
          + One(what.Polls? || (what.ClaimsOf? && what.id in IdsOf(batch)))
          + BatchCount(batch, attempts, 0, what)
  {
    if !what.DeliveriesOf? && !what.Abandoned? {
      BatchCountsOnly(batch, attempts, 0, what);
    }
  }

  lemma ClaimAndBatchRun(s: State, answers: Answers, batch: seq<Record>, attempts: nat -> Attempt, what: Kind)
    requires PodOf(s, 0).Reclaiming? && ClaimOf(s.rows, s.now, answers.locked, batch)
    ensures var run := [ClaimLabel(answers, batch)] + BatchLabels(|batch|, attempts, 0);
      && Legal(s, run) && PodOf(After(s, run), 0).Idle?
      && After(s, run).rows == AfterBatch(ClaimAll(s.rows, IdsOf(batch), s.now), batch, attempts, 0, s.now)
      && After(s, run).now == BatchEnd(|batch|, attempts, 0, s.now)
      && CountIn(s, run, what)
           == One(what.Polls? || (what.ClaimsOf? && what.id in IdsOf(batch))) + BatchCount(batch, attempts, 0, what)
  {
    var claim, rest := ClaimLabel(answers, batch), BatchLabels(|batch|, attempts, 0);
    ClaimStep(s, answers, batch);
    assert batch[0..] == batch;
    BatchRun(Apply(s, claim), batch, attempts, 0, what);
    CountFirst(s, claim, rest, what);
    ClaimCounts(s, answers, batch, what);
  }

  lemma BrokenPollRun(s: State, answers: Answers, batch: seq<Record>, attempts: nat -> Attempt, what: Kind)
    requires PodOf(s, 0).Idle? && !GetsBatch(answers)
    ensures var run := PollLabels(answers, batch, attempts);
      && Legal(s, run) && Polled(s, After(s, run), answers, batch, attempts)
      && CountIn(s, run, what) == CallCount(ViewOf(s), Poll(answers, batch, attempts), what)
  {
    if answers.reclaims {
      ReclaimCounts(s, answers, what);
      CountOne(Apply(s, Reclaim(0)), Crash(0), what);
      CountFirst(s, Reclaim(0), [Crash(0)], what);
    }
  }

  /** Everything ProcessOutbox ensures is reached by a run of the transition system: the table, the
    * flag, and the time at which the poll ends; and the run does just what the poll does. */
  lemma ProcessOutboxIsARun(s: State, answers: Answers, batch: seq<Record>, attempts: nat -> Attempt, what: Kind)
    requires PodOf(s, 0).Idle? && MayClaim(s.rows, s.now, answers, batch)
    ensures Legal(s, PollLabels(answers, batch, attempts))
    ensures Polled(s, After(s, PollLabels(answers, batch, attempts)), answers, batch, attempts)
    ensures CountIn(s, PollLabels(answers, batch, attempts), what)
         == CallCount(ViewOf(s), Poll(answers, batch, attempts), what)
  {
    if GetsBatch(answers) {
      FullPollRun(s, answers, batch, attempts, what);
    } else {
      BrokenPollRun(s, answers, batch, attempts, what);
    }
  }

  // ----- what no poll does ---------------------------------------------------------------

  predicate Polling(run: seq<Label>) {
    forall l :: l in run ==> !l.Write? && !l.Cleanup?
  }

  lemma AttemptOnlyPolls(a: Attempt)
    ensures Polling(LabelsOf(a)) && Sole(LabelsOf(a))
  {
  }

  lemma OnlyPollsConcat(first: seq<Label>, second: seq<Label>)
    requires Polling(first) && Sole(first) && Polling(second) && Sole(second)
    ensures Polling(first + second) && Sole(first + second)
  {
  }

  lemma {:induction false} BatchOnlyPolls(size: nat, attempts: nat -> Attempt, k: nat)
    requires k <= size
    ensures Polling(BatchLabels(size, attempts, k)) && Sole(BatchLabels(size, attempts, k))
    decreases size - k
  {
    if k < size {
      AttemptOnlyPolls(attempts(k));
      BatchOnlyPolls(size, attempts, k + 1);
      OnlyPollsConcat(LabelsOf(attempts(k)), if Escapes(attempts(k)) then [] else BatchLabels(size, attempts, k + 1));
    }
  }

  lemma PollOnlyPolls(answers: Answers, batch: seq<Record>, attempts: nat -> Attempt)
    ensures Polling(PollLabels(answers, batch, attempts))
    ensures answers.locked == {} ==> Sole(PollLabels(answers, batch, attempts))
  {
    BatchOnlyPolls(|batch|, attempts, 0);
  }

  lemma {:induction false} PollingKeepsKeys(s: State, run: seq<Label>)
    requires Legal(s, run) && Polling(run)
    ensures After(s, run).audit.Keys == s.audit.Keys && After(s, run).deleted == s.deleted
    decreases |run|
  {
    if run != [] {
      assert run[|run| - 1] in run;
      PollingKeepsKeys(s, run[..|run| - 1]);
      AuditGrows(After(s, run[..|run| - 1]), run[|run| - 1]);
    }
  }

  // ----- one call ----------------------------------------------------------------------

  lemma PollIsARun(s: State, answers: Answers, batch: seq<Record>, attempts: nat -> Attempt, what: Kind)
    requires PodOf(s, 0).Idle? && MayClaim(s.rows, s.now, answers, batch)
    ensures var run := PollLabels(answers, batch, attempts);
      && Legal(s, run) && PodOf(After(s, run), 0).Idle?
      && ViewOf(After(s, run)) == AfterCall(ViewOf(s), Poll(answers, batch, attempts))
      && CountIn(s, run, what) == CallCount(ViewOf(s), Poll(answers, batch, attempts), what)
  {
    ProcessOutboxIsARun(s, answers, batch, attempts, what);
    PollOnlyPolls(answers, batch, attempts);
    PollingKeepsKeys(s, PollLabels(answers, batch, attempts));
  }

  /** One call is a run that leads to the call's own result and does what the call does. */
  lemma CallIsARun(s: State, c: Call, what: Kind)
    requires PodOf(s, 0).Idle? && CallOk(ViewOf(s), c)
    ensures Legal(s, LabelsOfCall(c)) && PodOf(After(s, LabelsOfCall(c)), 0).Idle?
    ensures ViewOf(After(s, LabelsOfCall(c))) == AfterCall(ViewOf(s), c)
    ensures CountIn(s, LabelsOfCall(c), what) == CallCount(ViewOf(s), c, what)
  {
    match c
    case Insert(ids) =>
      CountOne(s, Write(ids), what);
      AuditGrows(s, Write(ids));
    case Poll(answers, batch, attempts) =>
      PollIsARun(s, answers, batch, attempts, what);
    case Clean(processed) =>
      CountOne(s, Cleanup(processed), what);
      AuditGrows(s, Cleanup(processed));
    case Wait(delta) =>
      if delta > 0 {
        CountOne(s, Tick(delta), what);
        AuditGrows(s, Tick(delta));
      }
  }

  lemma CallIsSole(c: Call)
    requires c.Poll? ==> c.answers.locked == {}
    ensures Sole(LabelsOfCall(c))
  {
    if c.Poll? {
      PollOnlyPolls(c.answers, c.batch, c.attempts);
    }
  }

  // ----- any sequence of calls -----------------------------------------------------------

  /** Any sequence of calls, from any state between polls, is a run that leads where the calls lead,
    * and in which everything happens as often as in the calls. */
  lemma {:induction false} CallsAreARun(s: State, calls: seq<Call>, what: Kind)
    requires PodOf(s, 0).Idle? && CallsOk(ViewOf(s), calls)
    ensures Legal(s, LabelsOfCalls(calls)) && PodOf(After(s, LabelsOfCalls(calls)), 0).Idle?
    ensures ViewOf(After(s, LabelsOfCalls(calls))) == AfterCalls(ViewOf(s), calls)
    ensures CountIn(s, LabelsOfCalls(calls), what) == CallsCount(ViewOf(s), calls, what)
    decreases |calls|
  {
    if calls != [] {
      var shorter, c := calls[..|calls| - 1], calls[|calls| - 1];
      CallsAreARun(s, shorter, what);
      CallIsARun(After(s, LabelsOfCalls(shorter)), c, what);
      LegalConcat(s, LabelsOfCalls(shorter), LabelsOfCall(c));
      CountsAdd(s, LabelsOfCalls(shorter), LabelsOfCall(c), what);
    }
  }

  lemma {:induction false} CallsAreSole(calls: seq<Call>)
    requires Alone(calls)
    ensures Sole(LabelsOfCalls(calls))
    decreases |calls|
  {
    if calls != [] {
      var shorter := calls[..|calls| - 1];
      assert forall k :: 0 <= k < |shorter| ==> shorter[k] == calls[k];
      CallsAreSole(shorter);
      CallIsSole(calls[|calls| - 1]);
    }
  }

  // ----- the row of an event, also after its deletion --------------------------------------

  /** The row of an event, or the last there was. */
  function LastRow(o: Outbox, calls: seq<Call>, id: RowId): Option<Row> {
    if id in AfterCalls(o, calls).rows then Some(AfterCalls(o, calls).rows[id])
    else if calls == [] then None
    else LastRow(o, calls[..|calls| - 1], id)
  }

  lemma CallBuries(s: State, c: Call, s': State, id: RowId)
    requires Inv(s) && PodOf(s, 0).Idle? && CallOk(ViewOf(s), c)
    requires Legal(s, LabelsOfCall(c)) && s' == After(s, LabelsOfCall(c)) && id !in s'.rows && id in s'.deleted
    ensures (id in s.rows || id in s.deleted) && RowOf(s, id) == s'.deleted[id].row
  {
    match c
    case Insert(ids) => OneStep(s, Write(ids));
    case Poll(answers, batch, attempts) =>
      PollOnlyPolls(answers, batch, attempts);
      PollingKeepsKeys(s, LabelsOfCall(c));
    case Clean(processed) => OneStep(s, Cleanup(processed));
    case Wait(delta) =>
      if delta > 0 {
        OneStep(s, Tick(delta));
      }
  }

  lemma {:induction false} LastRowIs(s: State, calls: seq<Call>, id: RowId)
    requires Inv(s) && PodOf(s, 0).Idle? && CallsOk(ViewOf(s), calls) && id !in s.deleted
    requires Legal(s, LabelsOfCalls(calls))
    requires var end := After(s, LabelsOfCalls(calls)); id in end.rows || id in end.deleted
    ensures LastRow(ViewOf(s), calls, id) == Some(RowOf(After(s, LabelsOfCalls(calls)), id))
    decreases |calls|
  {
    CallsAreARun(s, calls, Polls);
    var end := After(s, LabelsOfCalls(calls));
    if calls != [] && id !in end.rows {
      var shorter, c := calls[..|calls| - 1], calls[|calls| - 1];
      CallsAreARun(s, shorter, Polls);
      var mid := After(s, LabelsOfCalls(shorter));
      CallIsARun(mid, c, Polls);
      LegalConcat(s, LabelsOfCalls(shorter), LabelsOfCall(c));
      RunKeepsInv(s, LabelsOfCalls(shorter));
      CallBuries(mid, c, end, id);
      LastRowIs(s, shorter, id);
    }
  }

  // ----- what this gives for the objects -----------------------------------------------

  function Empty(now: int): Outbox {
    Outbox(now, map[], {})
  }

  lemma FromEmpty(now: int, calls: seq<Call>, what: Kind)
    requires CallsOk(Empty(now), calls) && Alone(calls)
    ensures Legal(Init(now), LabelsOfCalls(calls)) && Sole(LabelsOfCalls(calls))
    ensures PodOf(After(Init(now), LabelsOfCalls(calls)), 0).Idle?
    ensures ViewOf(After(Init(now), LabelsOfCalls(calls))) == AfterCalls(Empty(now), calls)
    ensures CountIn(Init(now), LabelsOfCalls(calls), what) == CallsCount(Empty(now), calls, what)
  {
    assert ViewOf(Init(now)) == Empty(now);
    CallsAreARun(Init(now), calls, what);
    CallsAreSole(calls);
  }

  /** The objects: every time a poll took an event is accounted for by a failure, by having been taken
    * back, or by its last status; so it is taken at most five times plus once per reclaim. This
    * holds of every event inserted, also after its deletion. */
  lemma TakesBalance(now: int, calls: seq<Call>, id: RowId)
    requires CallsOk(Empty(now), calls) && Alone(calls) && id in AfterCalls(Empty(now), calls).used
    ensures LastRow(Empty(now), calls, id).Some?
    ensures var r := LastRow(Empty(now), calls, id).value;
      var taken, back := CallsCount(Empty(now), calls, ClaimsOf(id)), CallsCount(Empty(now), calls, ReclaimsOf(id));
      && taken == r.retryCount + back + One(r.status.Processing?) + One(r.status.Processed?)
      && taken <= MAX_RETRIES + back
  {
    var run := LabelsOfCalls(calls);
    assert ViewOf(Init(now)) == Empty(now);
    FromEmpty(now, calls, ClaimsOf(id));
    FromEmpty(now, calls, ReclaimsOf(id));
    AuditMatchesRun(now, run);
    OneDispatcherIsEnough(now, run);
    ClaimsBalance(now, run, id);
    NothingHeldYet(now);
    LastRowIs(Init(now), calls, id);
  }

  lemma {:induction false} SomePollTakes(o: Outbox, calls: seq<Call>, id: RowId)
    requires CallsCount(o, calls, ClaimsOf(id)) > 0
    ensures exists k :: 0 <= k < |calls| && Takes(calls[k], id)
    decreases |calls|
  {
    var shorter := calls[..|calls| - 1];
    if !Takes(calls[|calls| - 1], id) {
      SomePollTakes(o, shorter, id);
      var k :| 0 <= k < |shorter| && Takes(shorter[k], id);
      assert calls[k] == shorter[k];
    }
  }

  predicate Takes(c: Call, id: RowId) {
    c.Poll? && GetsBatch(c.answers) && id in IdsOf(c.batch)
  }

  lemma {:induction false} ClaimIsCounted(s: State, run: seq<Label>, id: RowId, k: nat)
    requires Legal(s, run) && k < |run| && Claims(run[k], id)
    ensures CountIn(s, run, ClaimsOf(id)) > 0
    decreases |run|
  {
    if k < |run| - 1 {
      ClaimIsCounted(s, run[..|run| - 1], id, k);
    }
  }

  /** The objects: a waiting event is taken within (S + A) / 50 + 1 polls that get a batch, where S is the
    * number of attempts left to its elders and A the records left without an outcome by errors
    * that escaped. */
  lemma TakenWithinBoundedPolls(now: int, past: seq<Call>, calls: seq<Call>, e: RowId, n: nat)
    requires CallsOk(Empty(now), past) && Alone(past)
    requires var o := AfterCalls(Empty(now), past);
      && CallsOk(o, calls) && Alone(calls)
      && e in o.rows && Eligible(o.rows[e], o.now) && CallsCount(o, calls, EarlyWrites(o.rows[e].createdAt)) == 0
      && (forall i :: i in o.rows ==> i < n)
      && CallsCount(o, calls, Polls)
           >= (Backlog(o.rows, e, o.rows[e].createdAt, n) + CallsCount(o, calls, Abandoned)) / BATCH_SIZE + 1
    ensures exists k :: 0 <= k < |calls| && Takes(calls[k], e)
  {
    FromEmpty(now, past, Polls);
    var s, run := After(Init(now), LabelsOfCalls(past)), LabelsOfCalls(calls);
    CallsAreARun(s, calls, Polls);
    CallsAreARun(s, calls, Abandoned);
    CallsAreARun(s, calls, EarlyWrites(s.rows[e].createdAt));
    CallsAreARun(s, calls, ClaimsOf(e));
    CallsAreSole(calls);
    ClaimedWithinBoundedPolls(now, LabelsOfCalls(past), run, e, n);
    var k: nat :| k < |run| && Claims(run[k], e);
    ClaimIsCounted(s, run, e, k);
    SomePollTakes(ViewOf(s), calls, e);
  }

  lemma {:induction false} NoEscapeInBatch(batch: seq<Record>, attempts: nat -> Attempt, k: nat)
    requires k <= |batch| && forall i :: k <= i < |batch| ==> !Escapes(attempts(i))
    ensures BatchCount(batch, attempts, k, Abandoned) == 0
    decreases |batch| - k
  {
    if k < |batch| {
      NoEscapeInBatch(batch, attempts, k + 1);
    }
  }

  predicate NoneEscapes(c: Call) {
    c.Poll? ==> forall i :: 0 <= i < |c.batch| ==> !Escapes(c.attempts(i))
  }

  /** If no error escapes, A is zero. */
  lemma {:induction false} NoEscapeAbandonsNothing(o: Outbox, calls: seq<Call>)
    requires forall k :: 0 <= k < |calls| ==> NoneEscapes(calls[k])
    ensures CallsCount(o, calls, Abandoned) == 0
    decreases |calls|
  {
    if calls != [] {
      var shorter, c := calls[..|calls| - 1], calls[|calls| - 1];
      assert NoneEscapes(calls[|calls| - 1]) && forall k :: 0 <= k < |shorter| ==> shorter[k] == calls[k];
      NoEscapeAbandonsNothing(o, shorter);
      if c.Poll? {
        NoEscapeInBatch(c.batch, c.attempts, 0);
      }
    }
  }

  /** No statement of the poll fails and every handler call returns. */
  predicate Smoothly(c: Call) {
    c.Poll? ==> (c.answers.reclaims ==> c.answers.claims) && forall i :: 0 <= i < |c.batch| ==> Succeeds(c.attempts(i))
  }

  lemma SmoothLabels(a: Attempt)
    requires Succeeds(a)
    ensures NothingFails(LabelsOf(a))
  {
  }

  lemma SmoothConcat(first: seq<Label>, second: seq<Label>)
    requires NothingFails(first) && NothingFails(second)
    ensures NothingFails(first + second)
  {
  }

  lemma {:induction false} SmoothBatch(size: nat, attempts: nat -> Attempt, k: nat)
    requires k <= size && forall i :: k <= i < size ==> Succeeds(attempts(i))
    ensures NothingFails(BatchLabels(size, attempts, k))
    decreases size - k
  {
    if k < size {
      SmoothLabels(attempts(k));
      SmoothBatch(size, attempts, k + 1);
      SmoothConcat(LabelsOf(attempts(k)), BatchLabels(size, attempts, k + 1));
    }
  }

  lemma {:induction false} SmoothCalls(calls: seq<Call>)
    requires forall k :: 0 <= k < |calls| ==> Smoothly(calls[k])
    ensures NothingFails(LabelsOfCalls(calls))
    decreases |calls|
  {
    if calls != [] {
      var shorter, c := calls[..|calls| - 1], calls[|calls| - 1];
      assert Smoothly(calls[|calls| - 1]) && forall k :: 0 <= k < |shorter| ==> shorter[k] == calls[k];
      SmoothCalls(shorter);
      if c.Poll? {
        SmoothBatch(|c.batch|, c.attempts, 0);
      }
    }
  }

  /** The objects: if nothing fails, every event is delivered at most once. */
  lemma DeliveredAtMostOnceByCalls(now: int, calls: seq<Call>, id: RowId)
    requires CallsOk(Empty(now), calls) && Alone(calls)
    requires forall k :: 0 <= k < |calls| ==> Smoothly(calls[k])
    ensures CallsCount(Empty(now), calls, DeliveriesOf(id)) <= 1
  {
    FromEmpty(now, calls, DeliveriesOf(id));
    SmoothCalls(calls);
    OneDispatcherIsEnough(now, LabelsOfCalls(calls));
    DeliveredAtMostOnce(now, LabelsOfCalls(calls), id);
  }
}
