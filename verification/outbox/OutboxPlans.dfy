/** The service objects at work: a plan of writes, polls and cleanups, carried out one after the other
  * on the objects, is a sequence of calls that the refinement is about. */
module OutboxPlans {
  import opened OutboxRows
  import opened OutboxServices
  import opened OutboxRefinement

  /** What a timer or a request asks of the objects, and what will be answered. */
  datatype Task =
    | WriteTask(ids: set<RowId>)
    | PollTask(answers: Answers, attempts: nat -> Attempt)
    | CleanTask(processed: bool)
    | WaitTask(delta: nat)

  /** Ids are drawn fresh for every write. */
  predicate FreshIds(used: set<RowId>, plan: seq<Task>)
    decreases |plan|
  {
    plan == [] ||
    ((plan[0].WriteTask? ==> plan[0].ids !! used)
      && FreshIds(if plan[0].WriteTask? then used + plan[0].ids else used, plan[1..]))
  }

  /** The call carries out the task. */
  ghost predicate Does(c: Call, task: Task) {
    match task
    case WriteTask(ids) => c == Insert(ids)
    case PollTask(answers, attempts) => c.Poll? && c.answers == answers && c.attempts == attempts
    case CleanTask(processed) => c == Clean(processed)
    case WaitTask(delta) => c == Wait(delta)
  }

  ghost predicate DoesAll(calls: seq<Call>, plan: seq<Task>) {
    |calls| == |plan| && forall k :: 0 <= k < |plan| ==> Does(calls[k], plan[k])
  }

  lemma {:induction false} BatchKeepsKeys(rows: Table, batch: seq<Record>, attempts: nat -> Attempt, k: nat, now: int)
    requires k <= |batch|
    ensures AfterBatch(rows, batch, attempts, k, now).Keys == rows.Keys
    decreases |batch| - k
  {
    if k < |batch| {
      var a := attempts(k);
      var next := AfterAttempt(rows, batch[k], a, now + a.elapsed);
      assert next.Keys == rows.Keys;
      BatchKeepsKeys(next, batch, attempts, k + 1, now + a.elapsed);
    }
  }

  lemma PollKeepsKeys(rows: Table, now: int, answers: Answers, batch: seq<Record>, attempts: nat -> Attempt)
    ensures AfterPoll(rows, now, answers, batch, attempts).Keys == rows.Keys
  {
    var claimed := ClaimAll(ReclaimAll(rows, now), IdsOf(batch), now);
    assert claimed.Keys == rows.Keys;
    BatchKeepsKeys(claimed, batch, attempts, 0, now);
  }

  lemma OneMoreCall(o: Outbox, calls: seq<Call>, c: Call)
    requires CallsOk(o, calls) && CallOk(AfterCalls(o, calls), c)
    ensures CallsOk(o, calls + [c]) && AfterCalls(o, calls + [c]) == AfterCall(AfterCalls(o, calls), c)
  {
    assert (calls + [c])[..|calls + [c]| - 1] == calls;
  }

  /** The calls so far carry out what is done of the plan, and lead to this table and time. */
  ghost predicate Tracks(o: Outbox, calls: seq<Call>, done: seq<Task>, rest: seq<Task>, rows: Table, clock: int) {
    var here := AfterCalls(o, calls);
    && DoesAll(calls, done) && CallsOk(o, calls)
    && rows == here.rows && clock == here.now && rows.Keys <= here.used && FreshIds(here.used, rest)
  }

  lemma TracksOneMore(o: Outbox, calls: seq<Call>, done: seq<Task>, rest: seq<Task>, rows: Table, clock: int, c: Call)
    requires Tracks(o, calls, done, rest, rows, clock) && rest != []
    requires Does(c, rest[0]) && CallOk(AfterCalls(o, calls), c)
    requires var next := AfterCall(AfterCalls(o, calls), c); next.rows.Keys <= next.used
    ensures var next := AfterCall(AfterCalls(o, calls), c);
      Tracks(o, calls + [c], done + [rest[0]], rest[1..], next.rows, next.now)
  {
    OneMoreCall(o, calls, c);
  }

  /** The objects over one table. */
  class Services {
    const outbox: EventOutbox
    const outboxService: OutboxService
    const dispatcher: OutboxDispatcher
    const cleanup: OutboxCleanupService

    constructor ()
      ensures Valid() && fresh(outbox) && fresh(dispatcher) && outbox.rows == map[]
    {
      var table := new EventOutbox();
      outbox := table;
      outboxService := new OutboxService(table);
      dispatcher := new OutboxDispatcher(table);
      cleanup := new OutboxCleanupService(table);
    }

    /** Between polls. */
    predicate Valid()
      reads dispatcher
    {
      outboxService.outbox == outbox && dispatcher.outbox == outbox && cleanup.outbox == outbox && !dispatcher.isRunning
    }

    /** Carries out one task at time `now` and returns the call it was. */
    method Do(task: Task, now: int, ghost o: Outbox) returns (end: int, ghost c: Call)
      requires Valid() && o.now == now && o.rows == outbox.rows && outbox.rows.Keys <= o.used
      requires task.WriteTask? ==> task.ids !! o.used
      modifies outbox, dispatcher
      ensures Valid() && Does(c, task) && CallOk(o, c)
      ensures outbox.rows == AfterCall(o, c).rows && end == AfterCall(o, c).now
      ensures outbox.rows.Keys <= AfterCall(o, c).used
      ensures AfterCall(o, c).used == if task.WriteTask? then o.used + task.ids else o.used
    {
      end := now;
      match task
      case WriteTask(ids) =>
        outboxService.WriteEvents(ids, now);
        c := Insert(ids);
      case PollTask(answers, attempts) =>
        var batch := dispatcher.ProcessOutbox(now, answers, attempts);
        c := Poll(answers, batch, attempts);
        PollKeepsKeys(o.rows, now, answers, batch, attempts);
        if GetsBatch(answers) {
          end := BatchEnd(|batch|, attempts, 0, now);
        }
      case CleanTask(processed) =>
        if processed {
          cleanup.CleanupProcessedEvents(now);
        } else {
          cleanup.CleanupDeadLetterEvents(now);
        }
        c := Clean(processed);
      case WaitTask(delta) =>
        end := now + delta;
        c := Wait(delta);
    }

    /** Carries out the whole plan, from any table: what the objects end with is what the calls of
      * the refinement lead to. */
    method Perform(plan: seq<Task>, now: int, ghost used: set<RowId>) returns (end: int, ghost calls: seq<Call>)
      requires Valid() && outbox.rows.Keys <= used && FreshIds(used, plan)
      modifies outbox, dispatcher
      ensures Valid() && DoesAll(calls, plan)
      ensures var o := Outbox(now, old(outbox.rows), used);
        CallsOk(o, calls) && outbox.rows == AfterCalls(o, calls).rows && end == AfterCalls(o, calls).now
    {
      ghost var o := Outbox(now, outbox.rows, used);
      end, calls := now, [];
      for i := 0 to |plan|
        invariant Valid() && Tracks(o, calls, plan[..i], plan[i..], outbox.rows, end)
      {
        ghost var done, rest, here, clock := plan[..i], plan[i..], outbox.rows, end;
        assert rest[0] == plan[i] && rest[1..] == plan[i + 1..] && plan[..i + 1] == done + [rest[0]];
        ghost var c;
        end, c := Do(plan[i], end, AfterCalls(o, calls));
        TracksOneMore(o, calls, done, rest, here, clock, c);
        calls := calls + [c];
      }
      assert plan[..|plan|] == plan;
    }
  }
}
