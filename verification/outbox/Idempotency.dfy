/** The check / act / mark handler and its table of processed events: isAlreadyProcessed,
  * the handler body, then markAsProcessed, by any number of deliveries at once. */
module Idempotency {

  type EventId = nat
  type WorkerId = nat

  const DAY_MS := 86_400_000
  const RETENTION_DAYS := 30

  /** One delivery of an event to the handler. `unsure`: the check failed and was taken as no. */
  datatype Delivery = Checked(event: EventId, unsure: bool) | Acted(event: EventId, unsure: bool)

  datatype State = State(now: int, marks: map<EventId, int>, deliveries: map<WorkerId, Delivery>)

  datatype Label =
    | Tick(delta: nat)
    | Check(worker: WorkerId, event: EventId, answered: bool)
    | Act(worker: WorkerId, ok: bool)
    | Mark(worker: WorkerId, answered: bool)
    | Crash(worker: WorkerId)
    | Purge

  function Init(now: int): State {
    State(now, map[], map[])
  }

  function Old(marks: map<EventId, int>, now: int): set<EventId> {
    set e | e in marks && marks[e] <= now - RETENTION_DAYS * DAY_MS
  }

  predicate Enabled(s: State, l: Label) {
    match l
    case Check(w, _, _) => w !in s.deliveries
    case Act(w, _) => w in s.deliveries && s.deliveries[w].Checked?
    case Mark(w, _) => w in s.deliveries && s.deliveries[w].Acted?
    case _ => true
  }

  function NextDeliveries(s: State, l: Label): map<WorkerId, Delivery>
    requires Enabled(s, l)
  {
    match l
    case Check(w, e, answered) =>
      if answered && e in s.marks then s.deliveries else s.deliveries[w := Checked(e, !answered)]
    case Act(w, ok) =>
      if ok then s.deliveries[w := Acted(s.deliveries[w].event, s.deliveries[w].unsure)] else s.deliveries - {w}
    case Mark(w, _) => s.deliveries - {w}
    case Crash(w) => s.deliveries - {w}
    case _ => s.deliveries
  }

  function NextMarks(s: State, l: Label): map<EventId, int>
    requires Enabled(s, l)
  {
    match l
    case Mark(w, answered) =>
      if answered && s.deliveries[w].event !in s.marks then s.marks[s.deliveries[w].event := s.now] else s.marks
    case Purge => s.marks - Old(s.marks, s.now)
    case _ => s.marks
  }

  function Apply(s: State, l: Label): State
    requires Enabled(s, l)
  {
    State(if l.Tick? then s.now + l.delta else s.now, NextMarks(s, l), NextDeliveries(s, l))
  }

  ghost predicate Legal(s: State, run: seq<Label>)
    decreases |run|, 0
  {
    run == [] || (Legal(s, run[..|run| - 1]) && Enabled(After(s, run[..|run| - 1]), run[|run| - 1]))
  }

  ghost function After(s: State, run: seq<Label>): State
    requires Legal(s, run)
    decreases |run|, 1
  {
    if run == [] then s else Apply(After(s, run[..|run| - 1]), run[|run| - 1])
  }

  /** Runs compose. */
  lemma {:induction false} LegalConcat(s: State, first: seq<Label>, second: seq<Label>)
    requires Legal(s, first) && Legal(After(s, first), second)
    ensures Legal(s, first + second) && After(s, first + second) == After(After(s, first), second)
    decreases |second|
  {
    if second == [] {
      assert first + second == first;
    } else {
      var init := second[..|second| - 1];
      LegalConcat(s, first, init);
      assert (first + second)[..|first + second| - 1] == first + init;
    }
  }

  lemma OneStep(s: State, l: Label)
    requires Enabled(s, l)
    ensures Legal(s, [l]) && After(s, [l]) == Apply(s, l)
  {
    var run := [l];
    var none := run[..|run| - 1];
    assert none == [] && run[|run| - 1] == l;
    assert Legal(s, none) && After(s, none) == s;
  }

  // ----- what happened during a run ------------------------------------------

  /** For one event: its body completed, a check for it failed, a mark was never written, a mark was
    * refused because one was there, a mark was purged. */
  datatype Kind = Body | FailedCheck | LostMark | Conflict | Purged

  function One(b: bool): nat {
    if b then 1 else 0
  }

  predicate Completes(s: State, l: Label, e: EventId)
    requires Enabled(s, l)
  {
    l.Act? && l.ok && s.deliveries[l.worker].event == e
  }

  /** The worker's body for `e` has completed and its mark is still to come. */
  predicate Owes(s: State, w: WorkerId, e: EventId) {
    w in s.deliveries && s.deliveries[w].Acted? && s.deliveries[w].event == e
  }

  predicate Happens(s: State, l: Label, e: EventId, kind: Kind)
    requires Enabled(s, l)
  {
    match kind
    case Body => Completes(s, l, e)
    case FailedCheck => l.Check? && l.event == e && !l.answered
    case LostMark => (l.Crash? || (l.Mark? && !l.answered)) && Owes(s, l.worker, e)
    case Conflict => l.Mark? && l.answered && Owes(s, l.worker, e) && e in s.marks
    case Purged => l.Purge? && e in Old(s.marks, s.now)
  }

  ghost function CountIn(s: State, run: seq<Label>, e: EventId, kind: Kind): nat
    requires Legal(s, run)
    decreases |run|
  {
    if run == [] then 0
    else
      var shorter := run[..|run| - 1];
      CountIn(s, shorter, e, kind) + One(Happens(After(s, shorter), run[|run| - 1], e, kind))
  }

  /** The run leads from `s` to `end`, and this kind of thing happens `n` times for `e`. */
  ghost predicate Leads(s: State, run: seq<Label>, end: State, e: EventId, kind: Kind, n: nat) {
    Legal(s, run) && After(s, run) == end && CountIn(s, run, e, kind) == n
  }

  lemma {:induction false} LeadsOn(s: State, first: seq<Label>, mid: State, second: seq<Label>, end: State,
                                   e: EventId, kind: Kind, m: nat, n: nat)
    requires Leads(s, first, mid, e, kind, m) && Leads(mid, second, end, e, kind, n)
    ensures Leads(s, first + second, end, e, kind, m + n)
    decreases |second|
  {
    LegalConcat(s, first, second);
    if second == [] {
      assert first + second == first;
    } else {
      var init := second[..|second| - 1];
      LeadsOn(s, first, mid, init, After(mid, init), e, kind, m, CountIn(mid, init, e, kind));
      assert (first + second)[..|first + second| - 1] == first + init;
    }
  }

  lemma LeadsByOne(s: State, l: Label, end: State, e: EventId, kind: Kind, n: nat)
    requires Enabled(s, l) && Apply(s, l) == end && n == One(Happens(s, l, e, kind))
    ensures Leads(s, [l], end, e, kind, n)
  {
    assert [l][..|[l]| - 1] == [];
    OneStep(s, l);
  }

  datatype Tally = Tally(bodies: nat, failedChecks: nat, lostMarks: nat, conflicts: nat, purged: nat)

  ghost function TallyIn(s: State, run: seq<Label>, e: EventId): Tally
    requires Legal(s, run)
  {
    Tally(CountIn(s, run, e, Body), CountIn(s, run, e, FailedCheck), CountIn(s, run, e, LostMark),
          CountIn(s, run, e, Conflict), CountIn(s, run, e, Purged))
  }

  /** The tally one step later. */
  function NextTally(t: Tally, s: State, l: Label, e: EventId): Tally
    requires Enabled(s, l)
  {
    Tally(t.bodies + One(Happens(s, l, e, Body)), t.failedChecks + One(Happens(s, l, e, FailedCheck)),
          t.lostMarks + One(Happens(s, l, e, LostMark)), t.conflicts + One(Happens(s, l, e, Conflict)),
          t.purged + One(Happens(s, l, e, Purged)))
  }

  // ----- every body is accounted for -----------------------------------------

  function Unmarked(s: State, e: EventId): set<WorkerId> {
    set w | w in s.deliveries && Owes(s, w, e)
  }

  function Marked(s: State, e: EventId): nat {
    One(e in s.marks)
  }

  ghost predicate Balanced(s: State, t: Tally, e: EventId) {
    t.bodies == Marked(s, e) + t.purged + t.lostMarks + t.conflicts + |Unmarked(s, e)|
  }

  predicate Settles(s: State, l: Label, e: EventId) {
    (l.Mark? || l.Crash?) && Owes(s, l.worker, e)
  }

  lemma UnmarkedMoves(s: State, l: Label, e: EventId)
    requires Enabled(s, l)
    ensures |Unmarked(Apply(s, l), e)| == |Unmarked(s, e)| + One(Completes(s, l, e)) - One(Settles(s, l, e))
  {
    var before, after := Unmarked(s, e), Unmarked(Apply(s, l), e);
    if Completes(s, l, e) {
      OneMoreOwes(s, l, e);
      OneElementMore(before, after, l.worker);
    } else if Settles(s, l, e) {
      OneLessOwes(s, l, e);
      OneElementMore(after, before, l.worker);
    } else {
      SameOwe(s, l, e);
      assert after == before;
    }
  }

  lemma OneElementMore(a: set<WorkerId>, b: set<WorkerId>, w: WorkerId)
    requires w !in a && forall v :: v in b <==> v == w || v in a
    ensures |b| == |a| + 1
  {
    assert b == a + {w};
  }

  lemma OneMoreOwes(s: State, l: Label, e: EventId)
    requires Enabled(s, l) && Completes(s, l, e)
    ensures l.worker !in Unmarked(s, e)
    ensures forall w :: w in Unmarked(Apply(s, l), e) <==> w == l.worker || w in Unmarked(s, e)
  {
  }

  lemma OneLessOwes(s: State, l: Label, e: EventId)
    requires Enabled(s, l) && Settles(s, l, e)
    ensures l.worker !in Unmarked(Apply(s, l), e)
    ensures forall w :: w in Unmarked(s, e) <==> w == l.worker || w in Unmarked(Apply(s, l), e)
  {
  }

  lemma SameOwe(s: State, l: Label, e: EventId)
    requires Enabled(s, l) && !Completes(s, l, e) && !Settles(s, l, e)
    ensures forall w :: w in Unmarked(Apply(s, l), e) <==> w in Unmarked(s, e)
  {
  }

  lemma StepKeepsBalance(s: State, l: Label, t: Tally, e: EventId)
    requires Enabled(s, l) && Balanced(s, t, e)
    ensures Balanced(Apply(s, l), NextTally(t, s, l, e), e)
  {
    UnmarkedMoves(s, l, e);
  }

  /** However many workers deliver an event, and however often: each body completed in the run is
    * the one marked now, or a mark since purged, lost, or refused as a duplicate, or not yet
    * written. */
  lemma {:induction false} BodiesBalance(now: int, run: seq<Label>, e: EventId)
    requires Legal(Init(now), run)
    ensures Balanced(After(Init(now), run), TallyIn(Init(now), run, e), e)
    decreases |run|
  {
    if run == [] {
      assert Unmarked(Init(now), e) == {};
    } else {
      var shorter := run[..|run| - 1];
      BodiesBalance(now, shorter, e);
      StepKeepsBalance(After(Init(now), shorter), run[|run| - 1], TallyIn(Init(now), shorter, e), e);
    }
  }

  // ----- one delivery at a time ------------------------------------------------

  predicate SoleLabel(l: Label) {
    l.Tick? || l.Purge? || l.worker == 0
  }

  predicate Sole(run: seq<Label>) {
    forall k :: 0 <= k < |run| ==> SoleLabel(run[k])
  }

  /** A delivery that is sure of its check finds no mark; only failed checks lead to conflicts. */
  ghost predicate SoleInv(s: State, t: Tally, e: EventId) {
    && Balanced(s, t, e)
    && (forall w :: w in s.deliveries ==> w == 0)
    && (0 in s.deliveries && s.deliveries[0].event == e && !s.deliveries[0].unsure ==> e !in s.marks)
    && t.conflicts + One(0 in s.deliveries && s.deliveries[0].event == e && s.deliveries[0].unsure) <= t.failedChecks
  }

  lemma SoleStep(s: State, l: Label, t: Tally, e: EventId)
    requires SoleInv(s, t, e) && Enabled(s, l) && SoleLabel(l)
    ensures SoleInv(Apply(s, l), NextTally(t, s, l, e), e)
  {
    StepKeepsBalance(s, l, t, e);
  }

  lemma {:induction false} SoleRun(now: int, run: seq<Label>, e: EventId)
    requires Legal(Init(now), run) && Sole(run)
    ensures SoleInv(After(Init(now), run), TallyIn(Init(now), run, e), e)
    decreases |run|
  {
    if run == [] {
      assert Unmarked(Init(now), e) == {};
    } else {
      var shorter := run[..|run| - 1];
      assert forall k :: 0 <= k < |shorter| ==> shorter[k] == run[k];
      SoleRun(now, shorter, e);
      SoleStep(After(Init(now), shorter), run[|run| - 1], TallyIn(Init(now), shorter, e), e);
    }
  }

  /** Under one dispatcher the body completes in a run at most once plus once per failed check, lost
    * mark and purged mark, however often the event is redelivered. */
  lemma BodiesAreBounded(now: int, run: seq<Label>, e: EventId)
    requires Legal(Init(now), run) && Sole(run)
    ensures var t := TallyIn(Init(now), run, e);
      t.bodies <= 1 + t.failedChecks + t.lostMarks + t.purged
  {
    SoleRun(now, run, e);
    var s := After(Init(now), run);
    if Unmarked(s, e) != {} {
      assert Unmarked(s, e) == {0};
    }
  }

  // ----- several at a time -------------------------------------------------------

  /** No mark is purged and no check fails. */
  predicate Calm(run: seq<Label>) {
    forall l :: l in run ==> !l.Purge? && (l.Check? ==> l.answered)
  }

  lemma CalmConcat(first: seq<Label>, second: seq<Label>)
    requires Calm(first) && Calm(second)
    ensures Calm(first + second)
  {
  }

  /** The deliveries of `e` that have checked and not acted yet. */
  function Ready(s: State, e: EventId): set<WorkerId> {
    set w | w in s.deliveries && s.deliveries[w].Checked? && s.deliveries[w].event == e
  }

  lemma MarkedStep(s: State, l: Label, e: EventId)
    requires Enabled(s, l) && e in s.marks && !l.Purge? && (l.Check? ==> l.answered)
    ensures e in Apply(s, l).marks
    ensures |Ready(Apply(s, l), e)| + One(Completes(s, l, e)) <= |Ready(s, e)|
  {
    var before, after := Ready(s, e), Ready(Apply(s, l), e);
    assert forall w :: w in after ==> w in before;
    if Completes(s, l, e) {
      assert l.worker in before && l.worker !in after;
      FewerReady(after, before - {l.worker});
    } else {
      FewerReady(after, before);
    }
  }

  lemma FewerReady(a: set<WorkerId>, b: set<WorkerId>)
    requires forall w :: w in a ==> w in b
    ensures |a| <= |b|
  {
    assert b == a + (b - a);
  }

  /** Once the mark is there, only the deliveries that checked before it can still act. */
  lemma {:induction false} MarkedBodiesAtMost(s: State, run: seq<Label>, e: EventId)
    requires e in s.marks && Legal(s, run) && Calm(run)
    ensures e in After(s, run).marks
    ensures CountIn(s, run, e, Body) + |Ready(After(s, run), e)| <= |Ready(s, e)|
    decreases |run|
  {
    if run != [] {
      var shorter := run[..|run| - 1];
      assert run[|run| - 1] in run;
      MarkedBodiesAtMost(s, shorter, e);
      MarkedStep(After(s, shorter), run[|run| - 1], e);
    }
  }

  /** A calm run during which the body of `e` completes `n` times. */
  ghost predicate Achieves(s: State, run: seq<Label>, e: EventId, n: nat) {
    Legal(s, run) && Calm(run) && CountIn(s, run, e, Body) == n
  }

  lemma AchievesMore(s: State, l: Label, rest: seq<Label>, e: EventId, n: nat)
    requires Enabled(s, l) && Calm([l]) && Achieves(Apply(s, l), rest, e, n)
    ensures Achieves(s, [l] + rest, e, One(Completes(s, l, e)) + n)
  {
    var mid := Apply(s, l);
    LeadsByOne(s, l, mid, e, Body, One(Completes(s, l, e)));
    LeadsOn(s, [l], mid, rest, After(mid, rest), e, Body, One(Completes(s, l, e)), n);
    CalmConcat([l], rest);
  }

  lemma ActMovesReady(s: State, w: WorkerId, e: EventId)
    requires w in Ready(s, e)
    ensures Enabled(s, Act(w, true)) && Completes(s, Act(w, true), e)
    ensures Ready(Apply(s, Act(w, true)), e) == Ready(s, e) - {w}
  {
  }

  /** All of them can. */
  lemma {:induction false} ReadyAct(s: State, e: EventId, n: nat) returns (run: seq<Label>)
    requires |Ready(s, e)| >= n
    ensures Achieves(s, run, e, n)
    decreases n
  {
    run := [];
    if n > 0 {
      var w :| w in Ready(s, e);
      ActMovesReady(s, w, e);
      var rest := ReadyAct(Apply(s, Act(w, true)), e, n - 1);
      AchievesMore(s, Act(w, true), rest, e, n - 1);
      run := [Act(w, true)] + rest;
    }
  }

  /** With no check failing and no mark purged the body can complete `n` times more. */
  ghost predicate CanComplete(s: State, e: EventId, n: nat) {
    exists run, m: nat :: Achieves(s, run, e, m) && m >= n
  }

  /** Once the mark is there the body can complete `n` more times, with no check failing and no mark
    * purged, if and only if `n` deliveries have checked and not acted. */
  lemma MarkedCanCompleteIff(s: State, e: EventId, n: nat)
    requires e in s.marks
    ensures CanComplete(s, e, n) <==> n <= |Ready(s, e)|
  {
    if n <= |Ready(s, e)| {
      var run := ReadyAct(s, e, n);
      assert Achieves(s, run, e, n);
    } else {
      forall run, m: nat | Achieves(s, run, e, m)
        ensures m < n
      {
        MarkedBodiesAtMost(s, run, e);
      }
    }
  }

  /** In particular once more if and only if some delivery has checked and not acted. */
  lemma AnotherBodyIff(s: State, e: EventId)
    requires e in s.marks
    ensures CanComplete(s, e, 1) <==> exists w :: w in s.deliveries && s.deliveries[w].Checked? && s.deliveries[w].event == e
  {
    MarkedCanCompleteIff(s, e, 1);
    if w :| w in s.deliveries && s.deliveries[w].Checked? && s.deliveries[w].event == e {
      assert w in Ready(s, e);
    } else {
      assert Ready(s, e) == {};
    }
  }

  lemma {:induction false} FreshWorker(used: set<WorkerId>) returns (w: WorkerId)
    ensures forall v :: v in used ==> v < w
    decreases |used|
  {
    if used == {} {
      w := 0;
    } else {
      var v :| v in used;
      var other := FreshWorker(used - {v});
      w := if other > v then other else v + 1;
      assert forall u :: u in used ==> u == v || u in used - {v};
    }
  }

  lemma UnmarkedSteps(s: State, w: WorkerId, e: EventId) returns (mid: State, end: State)
    requires e !in s.marks && w !in s.deliveries
    ensures mid == Apply(s, Check(w, e, true)) && Enabled(mid, Act(w, true)) && end == Apply(mid, Act(w, true))
    ensures Completes(mid, Act(w, true), e) && e !in end.marks
  {
    mid := Apply(s, Check(w, e, true));
    end := Apply(mid, Act(w, true));
  }

  /** As long as there is no mark, any number of deliveries can check and act. */
  lemma {:induction false} UnmarkedCanAct(s: State, e: EventId, n: nat) returns (run: seq<Label>)
    requires e !in s.marks
    ensures Achieves(s, run, e, n)
    decreases n
  {
    run := [];
    if n > 0 {
      var w := FreshWorker(s.deliveries.Keys);
      var mid, end := UnmarkedSteps(s, w, e);
      var rest := UnmarkedCanAct(end, e, n - 1);
      AchievesMore(mid, Act(w, true), rest, e, n - 1);
      AchievesMore(s, Check(w, e, true), [Act(w, true)] + rest, e, n);
      run := [Check(w, e, true)] + ([Act(w, true)] + rest);
    }
  }

  /** So the mark, and nothing else, bounds the completions of the body. */
  lemma BodiesAreLimitedIff(s: State, e: EventId)
    ensures (exists n: nat :: !CanComplete(s, e, n)) <==> e in s.marks
  {
    if e in s.marks {
      MarkedCanCompleteIff(s, e, |Ready(s, e)| + 1);
    } else {
      forall n: nat
        ensures CanComplete(s, e, n)
      {
        var run := UnmarkedCanAct(s, e, n);
        assert Achieves(s, run, e, n);
      }
    }
  }

  // ----- how long a mark protects ------------------------------------------------------

  ghost predicate MarkedUntil(s: State, e: EventId, t: int) {
    forall run :: Legal(s, run) && After(s, run).now <= t ==> e in After(s, run).marks
  }

  lemma StepKeepsMark(s: State, l: Label, e: EventId)
    requires Enabled(s, l) && e in s.marks && s.now < s.marks[e] + 30 * 24 * 3_600_000
    ensures e in Apply(s, l).marks && Apply(s, l).marks[e] == s.marks[e]
  {
  }

  lemma {:induction false} MarkStays(s: State, run: seq<Label>, e: EventId)
    requires Legal(s, run) && e in s.marks && After(s, run).now < s.marks[e] + 30 * 24 * 3_600_000
    ensures e in After(s, run).marks && After(s, run).marks[e] == s.marks[e]
    decreases |run|
  {
    if run != [] {
      var shorter, l := run[..|run| - 1], run[|run| - 1];
      assert After(s, shorter).now <= After(s, run).now;
      MarkStays(s, shorter, e);
      StepKeepsMark(After(s, shorter), l, e);
    }
  }

  lemma WaitAndPurge(s: State, e: EventId, t: int) returns (run: seq<Label>)
    requires e in s.marks && s.now <= t && s.marks[e] + 30 * 24 * 3_600_000 <= t
    ensures Legal(s, run) && After(s, run).now == t && e !in After(s, run).marks
  {
    var later := Apply(s, Tick(t - s.now));
    OneStep(s, Tick(t - s.now));
    OneStep(later, Purge);
    LegalConcat(s, [Tick(t - s.now)], [Purge]);
    run := [Tick(t - s.now)] + [Purge];
  }

  /** A mark is there until time `t`, whatever happens, exactly if `t` comes before thirty days from when
    * it was written. */
  lemma MarkedUntilIff(s: State, e: EventId, t: int)
    requires e in s.marks && t >= s.now
    ensures MarkedUntil(s, e, t) <==> t < s.marks[e] + 30 * 24 * 3_600_000
  {
    if t < s.marks[e] + 30 * 24 * 3_600_000 {
      forall run | Legal(s, run) && After(s, run).now <= t
        ensures e in After(s, run).marks
      {
        MarkStays(s, run, e);
      }
    } else {
      var run := WaitAndPurge(s, e, t);
    }
  }

  /** A delivery that marks an event protects it for thirty days from now; one that finds it marked
    * leaves the older mark and its time. */
  lemma MarkProtectsFor(s: State, w: WorkerId, t: int)
    requires Enabled(s, Mark(w, true)) && t >= s.now
    ensures var e, s' := s.deliveries[w].event, Apply(s, Mark(w, true));
      && e in s'.marks
      && (MarkedUntil(s', e, t) <==> t < (if e in s.marks then s.marks[e] else s.now) + 30 * 24 * 3_600_000)
  {
    MarkedUntilIff(Apply(s, Mark(w, true)), s.deliveries[w].event, t);
  }

  // ----- two workers, one after the other at every step ------------------------------

  predicate Both(s: State, v: WorkerId, w: WorkerId, d: Delivery) {
    v != w && v in s.deliveries && w in s.deliveries && s.deliveries[v] == d && s.deliveries[w] == d
  }

  lemma BothCheck(s: State, v: WorkerId, w: WorkerId, e: EventId, kind: Kind) returns (run: seq<Label>, end: State)
    requires v != w && v !in s.deliveries && w !in s.deliveries && e !in s.marks
    ensures run == [Check(v, e, true)] + [Check(w, e, true)] && Leads(s, run, end, e, kind, 0)
    ensures end == s.(deliveries := s.deliveries[v := Checked(e, false)][w := Checked(e, false)])
  {
    var mid := Apply(s, Check(v, e, true));
    end := Apply(mid, Check(w, e, true));
    run := [Check(v, e, true)] + [Check(w, e, true)];
    LeadsByOne(s, Check(v, e, true), mid, e, kind, 0);
    LeadsByOne(mid, Check(w, e, true), end, e, kind, 0);
    LeadsOn(s, [Check(v, e, true)], mid, [Check(w, e, true)], end, e, kind, 0, 0);
  }

  lemma BothAct(s: State, v: WorkerId, w: WorkerId, e: EventId, kind: Kind) returns (run: seq<Label>, end: State)
    requires Both(s, v, w, Checked(e, false))
    ensures run == [Act(v, true)] + [Act(w, true)] && Leads(s, run, end, e, kind, if kind == Body then 2 else 0)
    ensures end == s.(deliveries := s.deliveries[v := Acted(e, false)][w := Acted(e, false)])
  {
    var n := if kind == Body then 1 else 0;
    var mid := Apply(s, Act(v, true));
    end := Apply(mid, Act(w, true));
    run := [Act(v, true)] + [Act(w, true)];
    LeadsByOne(s, Act(v, true), mid, e, kind, n);
    LeadsByOne(mid, Act(w, true), end, e, kind, n);
    LeadsOn(s, [Act(v, true)], mid, [Act(w, true)], end, e, kind, n, n);
  }

  lemma BothMark(s: State, v: WorkerId, w: WorkerId, e: EventId, kind: Kind) returns (run: seq<Label>, end: State)
    requires Both(s, v, w, Acted(e, false)) && e !in s.marks
    ensures run == [Mark(v, true)] + [Mark(w, true)] && Leads(s, run, end, e, kind, if kind == Conflict then 1 else 0)
  {
    var n := if kind == Conflict then 1 else 0;
    var mid := Apply(s, Mark(v, true));
    end := Apply(mid, Mark(w, true));
    run := [Mark(v, true)] + [Mark(w, true)];
    LeadsByOne(s, Mark(v, true), mid, e, kind, 0);
    LeadsByOne(mid, Mark(w, true), end, e, kind, n);
    LeadsOn(s, [Mark(v, true)], mid, [Mark(w, true)], end, e, kind, 0, n);
  }

  function CheckActMark(v: WorkerId, w: WorkerId, e: EventId): seq<Label> {
    ([Check(v, e, true)] + [Check(w, e, true)]) + (([Act(v, true)] + [Act(w, true)]) + ([Mark(v, true)] + [Mark(w, true)]))
  }

  /** The unique index does not stop the body: any two workers that both check first can both act,
    * with no failed check, no lost mark and no purge; the index only refuses the second mark. */
  lemma TwoWorkersActTwice(s: State, v: WorkerId, w: WorkerId, e: EventId, kind: Kind)
    requires v != w && v !in s.deliveries && w !in s.deliveries && e !in s.marks
    ensures Legal(s, CheckActMark(v, w, e))
    ensures CountIn(s, CheckActMark(v, w, e), e, kind) == if kind == Body then 2 else if kind == Conflict then 1 else 0
  {
    var checking, checked := BothCheck(s, v, w, e, kind);
    var acting, acted := BothAct(checked, v, w, e, kind);
    var marking, marked := BothMark(acted, v, w, e, kind);
    LeadsOn(checked, acting, acted, marking, marked, e, kind,
            if kind == Body then 2 else 0, if kind == Conflict then 1 else 0);
    LeadsOn(s, checking, checked, acting + marking, marked, e, kind,
            0, if kind == Body then 2 else if kind == Conflict then 1 else 0);
  }
}
