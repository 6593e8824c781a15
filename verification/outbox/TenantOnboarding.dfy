/** IdempotencyService and the handler built on it, as objects. Whether a query answered and
  * whether the onboarding steps succeeded come in as arguments.
  */
module TenantOnboarding {
  import opened Wrappers
  import I = Idempotency

  const HANDLER_NAME := "TenantOnboardingService"

  type Key = (I.EventId, string)

  class IdempotencyService {
    var records: map<Key, int>

    constructor ()
      ensures records == map[]
    {
      records := map[];
    }

    method IsAlreadyProcessed(event: I.EventId, handlerName: string, answered: bool) returns (found: bool)
      ensures found <==> answered && (event, handlerName) in records
    {
      if !answered {
        return false;
      }
      found := (event, handlerName) in records;
    }

    method MarkAsProcessed(event: I.EventId, handlerName: string, answered: bool, now: int)
      modifies this
      ensures records ==
        if answered && (event, handlerName) !in old(records)
        then old(records)[(event, handlerName) := now] else old(records)
    {
      if answered {
        if (event, handlerName) !in records {
          records := records[(event, handlerName) := now];
        }
      }
    }

    method CleanupOldRecords(olderThanDays: nat, now: int) returns (deleted: nat)
      modifies this
      ensures records == map key | key in old(records) && old(records)[key] > now - olderThanDays * I.DAY_MS :: old(records)[key]
      ensures deleted == |old(records)| - |records|
    {
      var cutoff := now - olderThanDays * I.DAY_MS;
      var gone := set key | key in records && records[key] <= cutoff;
      SizeAfterDelete(records, gone);
      deleted := |gone|;
      records := records - gone;
    }
  }

  lemma SizeAfterDelete(m: map<Key, int>, gone: set<Key>)
    requires gone <= m.Keys
    ensures |m - gone| == |m| - |gone|
  {
    assert (m - gone).Keys == m.Keys - gone;
    assert |(m - gone).Keys| == |m.Keys| - |gone|;
  }

  /** The marks of this handler, as the transition system sees them. */
  function MarksOf(records: map<Key, int>): map<I.EventId, int> {
    map e | e in (set key | key in records && key.1 == HANDLER_NAME :: key.0) :: records[(e, HANDLER_NAME)]
  }

  /** Cleaning up the records with the default retention is the purge of the marks. */
  lemma CleanupPurgesMarks(records: map<Key, int>, now: int)
    ensures MarksOf(map key | key in records && records[key] > now - I.RETENTION_DAYS * I.DAY_MS :: records[key])
         == MarksOf(records) - I.Old(MarksOf(records), now)
  {
    var kept := map key | key in records && records[key] > now - I.RETENTION_DAYS * I.DAY_MS :: records[key];
    assert forall e :: e in MarksOf(kept) <==> (e, HANDLER_NAME) in kept;
    assert forall e :: e in MarksOf(records) <==> (e, HANDLER_NAME) in records;
  }

  class TenantOnboardingService {
    const idempotency: IdempotencyService

    constructor (idempotency: IdempotencyService)
      ensures this.idempotency == idempotency
    {
      this.idempotency := idempotency;
    }

    /** `acted` says whether the onboarding steps completed; an error leaves the handler. */
    method HandleTenantCreated(event: I.EventId, checkAnswers: bool, stepsSucceed: bool, markAnswers: bool, now: int)
      returns (outcome: Result<bool, string>)
      modifies idempotency
      ensures outcome == HandlerOutcome(MarksOf(old(idempotency.records)), event, checkAnswers, stepsSucceed)
      ensures MarksOf(idempotency.records)
        == HandlerMarks(MarksOf(old(idempotency.records)), event, checkAnswers, stepsSucceed, markAnswers, now)
      ensures idempotency.records ==
        if outcome == Success(true) && markAnswers && (event, HANDLER_NAME) !in old(idempotency.records)
        then old(idempotency.records)[(event, HANDLER_NAME) := now] else old(idempotency.records)
    {
      var alreadyProcessed := idempotency.IsAlreadyProcessed(event, HANDLER_NAME, checkAnswers);
      if alreadyProcessed {
        return Success(false);
      }
      if !stepsSucceed {
        return Failure("onboarding failed");
      }
      idempotency.MarkAsProcessed(event, HANDLER_NAME, markAnswers, now);
      outcome := Success(true);
    }
  }

  function HandlerOutcome(marks: map<I.EventId, int>, event: I.EventId, checkAnswers: bool,
                          stepsSucceed: bool): Result<bool, string> {
    if checkAnswers && event in marks then Success(false)
    else if stepsSucceed then Success(true)
    else Failure("onboarding failed")
  }

  function HandlerMarks(marks: map<I.EventId, int>, event: I.EventId,
                        checkAnswers: bool, stepsSucceed: bool, markAnswers: bool, now: int): map<I.EventId, int> {
    if (checkAnswers && event in marks) || !stepsSucceed || !markAnswers || event in marks then marks
    else marks[event := now]
  }

  /** What one undisturbed call of the handler does: a check, the body unless the event was found
    * marked, and the mark if the body completed. */
  function HandlerLabels(marks: map<I.EventId, int>, w: I.WorkerId, event: I.EventId,
                         checkAnswers: bool, stepsSucceed: bool, markAnswers: bool): seq<I.Label> {
    if checkAnswers && event in marks then [I.Check(w, event, true)]
    else if !stepsSucceed then [I.Check(w, event, checkAnswers)] + [I.Act(w, false)]
    else [I.Check(w, event, checkAnswers)] + [I.Act(w, true)] + [I.Mark(w, markAnswers)]
  }

  /** How often one call makes this happen for `e`. */
  function HandlerCount(marks: map<I.EventId, int>, event: I.EventId, checkAnswers: bool, stepsSucceed: bool,
                        markAnswers: bool, e: I.EventId, kind: I.Kind): nat {
    var completed := HandlerOutcome(marks, event, checkAnswers, stepsSucceed) == Success(true);
    if e != event then 0 else
      match kind
      case Body => I.One(completed)
      case FailedCheck => I.One(!checkAnswers)
      case LostMark => I.One(completed && !markAnswers)
      case Conflict => I.One(completed && markAnswers && event in marks)
      case Purged => 0
  }

  lemma CheckLeads(here: I.State, w: I.WorkerId, event: I.EventId, answered: bool, e: I.EventId, kind: I.Kind)
    returns (end: I.State)
    requires w !in here.deliveries
    ensures I.Leads(here, [I.Check(w, event, answered)], end, e, kind, I.One(e == event && kind.FailedCheck? && !answered))
    ensures end == if answered && event in here.marks then here
                   else here.(deliveries := here.deliveries[w := I.Checked(event, !answered)])
  {
    end := I.Apply(here, I.Check(w, event, answered));
    I.LeadsByOne(here, I.Check(w, event, answered), end, e, kind, I.One(e == event && kind.FailedCheck? && !answered));
  }

  lemma ActLeads(here: I.State, mid: I.State, w: I.WorkerId, event: I.EventId, unsure: bool, ok: bool,
                 e: I.EventId, kind: I.Kind)
    returns (end: I.State)
    requires w !in here.deliveries && mid == here.(deliveries := here.deliveries[w := I.Checked(event, unsure)])
    ensures I.Leads(mid, [I.Act(w, ok)], end, e, kind, I.One(e == event && kind.Body? && ok))
    ensures end == if ok then here.(deliveries := here.deliveries[w := I.Acted(event, unsure)]) else here
  {
    end := I.Apply(mid, I.Act(w, ok));
    assert mid.deliveries - {w} == here.deliveries;
    I.LeadsByOne(mid, I.Act(w, ok), end, e, kind, I.One(e == event && kind.Body? && ok));
  }

  function MarkCount(marks: map<I.EventId, int>, event: I.EventId, answered: bool, e: I.EventId, kind: I.Kind): nat {
    I.One(e == event && (if answered then kind.Conflict? && event in marks else kind.LostMark?))
  }

  lemma MarkLeads(here: I.State, mid: I.State, w: I.WorkerId, event: I.EventId, unsure: bool, answered: bool,
                  e: I.EventId, kind: I.Kind)
    returns (end: I.State)
    requires w !in here.deliveries && mid == here.(deliveries := here.deliveries[w := I.Acted(event, unsure)])
    ensures I.Leads(mid, [I.Mark(w, answered)], end, e, kind, MarkCount(here.marks, event, answered, e, kind))
    ensures end == if answered && event !in here.marks then here.(marks := here.marks[event := here.now]) else here
  {
    end := I.Apply(mid, I.Mark(w, answered));
    assert mid.deliveries - {w} == here.deliveries;
    I.LeadsByOne(mid, I.Mark(w, answered), end, e, kind, MarkCount(here.marks, event, answered, e, kind));
  }

  lemma FailingCall(here: I.State, w: I.WorkerId, event: I.EventId, answered: bool, e: I.EventId, kind: I.Kind)
    requires w !in here.deliveries && !(answered && event in here.marks)
    ensures I.Leads(here, [I.Check(w, event, answered)] + [I.Act(w, false)], here, e, kind,
                    I.One(e == event && kind.FailedCheck? && !answered))
  {
    var mid := CheckLeads(here, w, event, answered, e, kind);
    var end := ActLeads(here, mid, w, event, !answered, false, e, kind);
    I.LeadsOn(here, [I.Check(w, event, answered)], mid, [I.Act(w, false)], end, e, kind,
              I.One(e == event && kind.FailedCheck? && !answered), 0);
  }

  lemma CompletedCall(here: I.State, w: I.WorkerId, event: I.EventId, answered: bool, marked: bool,
                      e: I.EventId, kind: I.Kind)
    returns (end: I.State)
    requires w !in here.deliveries && !(answered && event in here.marks)
    ensures I.Leads(here, [I.Check(w, event, answered)] + [I.Act(w, true)] + [I.Mark(w, marked)], end, e, kind,
                    I.One(e == event && kind.FailedCheck? && !answered) + I.One(e == event && kind.Body?)
                    + MarkCount(here.marks, event, marked, e, kind))
    ensures end == if marked && event !in here.marks then here.(marks := here.marks[event := here.now]) else here
  {
    var checks, bodies := I.One(e == event && kind.FailedCheck? && !answered), I.One(e == event && kind.Body?);
    var checked := CheckLeads(here, w, event, answered, e, kind);
    var acted := ActLeads(here, checked, w, event, !answered, true, e, kind);
    end := MarkLeads(here, acted, w, event, !answered, marked, e, kind);
    I.LeadsOn(here, [I.Check(w, event, answered)], checked, [I.Act(w, true)], acted, e, kind, checks, bodies);
    I.LeadsOn(here, [I.Check(w, event, answered)] + [I.Act(w, true)], acted, [I.Mark(w, marked)], end, e, kind,
              checks + bodies, MarkCount(here.marks, event, marked, e, kind));
  }

  /** One undisturbed call of the handler by worker `w` is its own check, act and mark: it leaves the
    * marks the call says and no delivery behind, completes the body once if the call says so and
    * not otherwise, and does nothing for any other event. */
  lemma HandlerIsARun(here: I.State, w: I.WorkerId, event: I.EventId, checkAnswers: bool, stepsSucceed: bool,
                      markAnswers: bool, e: I.EventId, kind: I.Kind)
    requires w !in here.deliveries
    ensures I.Leads(here, HandlerLabels(here.marks, w, event, checkAnswers, stepsSucceed, markAnswers),
                    here.(marks := HandlerMarks(here.marks, event, checkAnswers, stepsSucceed, markAnswers, here.now)), e, kind,
                    HandlerCount(here.marks, event, checkAnswers, stepsSucceed, markAnswers, e, kind))
  {
    if checkAnswers && event in here.marks {
      var end := CheckLeads(here, w, event, true, e, kind);
    } else if !stepsSucceed {
      FailingCall(here, w, event, checkAnswers, e, kind);
    } else {
      var end := CompletedCall(here, w, event, checkAnswers, markAnswers, e, kind);
    }
  }

  // ----- any sequence of calls -----------------------------------------------------

  /** What happens to the table of marks when one dispatcher delivers: calls of the handler, the
    * cleanup, and time passing. */
  datatype Call =
    | Handle(event: I.EventId, checkAnswers: bool, stepsSucceed: bool, markAnswers: bool)
    | CleanUp
    | Wait(delta: nat)

  function AfterCall(s: I.State, c: Call): I.State {
    match c
    case Handle(event, check, steps, mark) => s.(marks := HandlerMarks(s.marks, event, check, steps, mark, s.now))
    case CleanUp => s.(marks := s.marks - I.Old(s.marks, s.now))
    case Wait(delta) => s.(now := s.now + delta)
  }

  function AfterCalls(s: I.State, calls: seq<Call>): I.State {
    if calls == [] then s else AfterCall(AfterCalls(s, calls[..|calls| - 1]), calls[|calls| - 1])
  }

  function CallCount(s: I.State, c: Call, e: I.EventId, kind: I.Kind): nat {
    match c
    case Handle(event, check, steps, mark) => HandlerCount(s.marks, event, check, steps, mark, e, kind)
    case CleanUp => I.One(kind.Purged? && e in I.Old(s.marks, s.now))
    case Wait(_) => 0
  }

  function CallsCount(s: I.State, calls: seq<Call>, e: I.EventId, kind: I.Kind): nat {
    if calls == [] then 0
    else
      var shorter := calls[..|calls| - 1];
      CallsCount(s, shorter, e, kind) + CallCount(AfterCalls(s, shorter), calls[|calls| - 1], e, kind)
  }

  function CallLabels(s: I.State, c: Call): seq<I.Label> {
    match c
    case Handle(event, check, steps, mark) => HandlerLabels(s.marks, 0, event, check, steps, mark)
    case CleanUp => [I.Purge]
    case Wait(delta) => [I.Tick(delta)]
  }

  function CallsLabels(s: I.State, calls: seq<Call>): seq<I.Label> {
    if calls == [] then []
    else
      var shorter := calls[..|calls| - 1];
      CallsLabels(s, shorter) + CallLabels(AfterCalls(s, shorter), calls[|calls| - 1])
  }

  lemma CallIsARun(here: I.State, c: Call, e: I.EventId, kind: I.Kind)
    requires here.deliveries == map[]
    ensures I.Leads(here, CallLabels(here, c), AfterCall(here, c), e, kind, CallCount(here, c, e, kind))
  {
    match c
    case Handle(event, check, steps, mark) =>
      HandlerIsARun(here, 0, event, check, steps, mark, e, kind);
    case CleanUp =>
      I.LeadsByOne(here, I.Purge, AfterCall(here, c), e, kind, CallCount(here, c, e, kind));
    case Wait(delta) =>
      I.LeadsByOne(here, I.Tick(delta), AfterCall(here, c), e, kind, 0);
  }

  lemma {:induction false} CallsAreSole(s: I.State, calls: seq<Call>)
    ensures I.Sole(CallsLabels(s, calls))
    ensures AfterCalls(s, calls).deliveries == s.deliveries
    decreases |calls|
  {
    if calls != [] {
      CallsAreSole(s, calls[..|calls| - 1]);
    }
  }

  /** Any sequence of calls on the objects is a run of one worker at a time, in which the same things
    * happen equally often. */
  lemma {:induction false} CallsAreARun(s: I.State, calls: seq<Call>, e: I.EventId, kind: I.Kind)
    requires s.deliveries == map[]
    ensures I.Leads(s, CallsLabels(s, calls), AfterCalls(s, calls), e, kind, CallsCount(s, calls, e, kind))
    ensures I.Sole(CallsLabels(s, calls))
    decreases |calls|
  {
    CallsAreSole(s, calls);
    if calls != [] {
      var shorter := calls[..|calls| - 1];
      var here, last := AfterCalls(s, shorter), calls[|calls| - 1];
      CallsAreSole(s, shorter);
      CallsAreARun(s, shorter, e, kind);
      CallIsARun(here, last, e, kind);
      I.LeadsOn(s, CallsLabels(s, shorter), here, CallLabels(here, last), AfterCall(here, last), e, kind,
                CallsCount(s, shorter, e, kind), CallCount(here, last, e, kind));
    }
  }

  /** However often one dispatcher calls the handler for an event, and whatever fails, the body
    * completes at most once plus once per failed check, lost mark and purged mark. */
  lemma CallsAreBounded(now: int, calls: seq<Call>, e: I.EventId)
    ensures CallsCount(I.Init(now), calls, e, I.Body)
         <= 1 + CallsCount(I.Init(now), calls, e, I.FailedCheck)
              + CallsCount(I.Init(now), calls, e, I.LostMark)
              + CallsCount(I.Init(now), calls, e, I.Purged)
  {
    CallsAreARun(I.Init(now), calls, e, I.Body);
    CallsAreARun(I.Init(now), calls, e, I.FailedCheck);
    CallsAreARun(I.Init(now), calls, e, I.LostMark);
    CallsAreARun(I.Init(now), calls, e, I.Purged);
    I.BodiesAreBounded(now, CallsLabels(I.Init(now), calls), e);
  }

  /** The objects at work: calls carried out one after the other leave the marks, and the time, that the
    * sequence of calls leads to. */
  method Perform(service: TenantOnboardingService, calls: seq<Call>, now: int) returns (end: int)
    modifies service.idempotency
    ensures var s := AfterCalls(I.State(now, MarksOf(old(service.idempotency.records)), map[]), calls);
      MarksOf(service.idempotency.records) == s.marks && end == s.now
  {
    ghost var start := I.State(now, MarksOf(service.idempotency.records), map[]);
    end := now;
    for i := 0 to |calls|
      invariant MarksOf(service.idempotency.records) == AfterCalls(start, calls[..i]).marks
      invariant end == AfterCalls(start, calls[..i]).now
    {
      assert calls[..i + 1][..i] == calls[..i];
      match calls[i]
      case Handle(event, check, steps, mark) =>
        var outcome := service.HandleTenantCreated(event, check, steps, mark, end);
      case CleanUp =>
        CleanupPurgesMarks(service.idempotency.records, end);
        var deleted := service.idempotency.CleanupOldRecords(I.RETENTION_DAYS, end);
      case Wait(delta) =>
        end := end + delta;
    }
    assert calls[..|calls|] == calls;
  }
}
