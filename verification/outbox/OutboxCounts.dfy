/** What happened during a run of the outbox, counted on the run itself. */
module OutboxCounts {
  import opened OutboxRows
  import opened OutboxProtocol

  /** Claims of a row; reclaims of it; handler calls for it that returned normally; polls that got to
    * the claiming statement; records whose processing a crash, or a failure that could not be
    * recorded, cut short; writes of events while the clock has not moved past `cutoff`. */
  datatype Kind =
    | ClaimsOf(id: RowId)
    | ReclaimsOf(id: RowId)
    | DeliveriesOf(id: RowId)
    | Polls
    | Abandoned
    | EarlyWrites(cutoff: int)

  function One(b: bool): nat {
    if b then 1 else 0
  }

  predicate Claims(l: Label, id: RowId) {
    l.Claim? && id in l.order
  }

  ghost predicate ReclaimsRow(s: State, l: Label, id: RowId) {
    l.Reclaim? && id in s.rows && Stuck(s.rows[id], s.now)
  }

  ghost predicate Delivers(s: State, l: Label, id: RowId)
    requires Enabled(s, l)
  {
    l.Publish? && l.ok && PodOf(s, l.pod).batch[0].id == id
  }

  function RecordsHeld(pod: Pod): nat {
    if pod.Busy? then |pod.batch| else 0
  }

  ghost function StepCount(s: State, l: Label, what: Kind): nat
    requires Enabled(s, l)
  {
    match what
    case ClaimsOf(id) => One(Claims(l, id))
    case ReclaimsOf(id) => One(ReclaimsRow(s, l, id))
    case DeliveriesOf(id) => One(Delivers(s, l, id))
    case Polls => One(l.Claim?)
    case Abandoned => if l.Crash? || l.FailLost? then RecordsHeld(PodOf(s, l.pod)) else 0
    case EarlyWrites(cutoff) => One(l.Write? && s.now <= cutoff)
  }

  ghost function CountIn(s: State, run: seq<Label>, what: Kind): nat
    requires Legal(s, run)
  {
    if run == [] then 0
    else
      var shorter := run[..|run| - 1];
      CountIn(s, shorter, what) + StepCount(After(s, shorter), run[|run| - 1], what)
  }

  lemma CountLast(s: State, run: seq<Label>, l: Label, what: Kind)
    requires Legal(s, run) && Enabled(After(s, run), l)
    ensures Legal(s, run + [l]) && After(s, run + [l]) == Apply(After(s, run), l)
    ensures CountIn(s, run + [l], what) == CountIn(s, run, what) + StepCount(After(s, run), l, what)
  {
    var longer := run + [l];
    assert longer[..|longer| - 1] == run && longer[|longer| - 1] == l;
  }

  /** The first run leads to `mid`, the second from there to `end`, and so do both together, with the
    * counts added. */
  ghost predicate Adds(s: State, first: seq<Label>, mid: State, second: seq<Label>, end: State, what: Kind) {
    && Legal(s, first) && After(s, first) == mid
    && Legal(mid, second) && After(mid, second) == end
    && Legal(s, first + second) && After(s, first + second) == end
    && CountIn(s, first + second, what) == CountIn(s, first, what) + CountIn(mid, second, what)
  }

  lemma AddsOneMore(s: State, first: seq<Label>, mid: State, second: seq<Label>, end: State, l: Label, what: Kind)
    requires Adds(s, first, mid, second, end, what) && Enabled(end, l)
    ensures Adds(s, first, mid, second + [l], Apply(end, l), what)
  {
    CountLast(s, first + second, l, what);
    CountLast(mid, second, l, what);
    assert first + (second + [l]) == (first + second) + [l];
  }

  lemma {:induction false} CountsAdd(s: State, first: seq<Label>, second: seq<Label>, what: Kind)
    requires Legal(s, first) && Legal(After(s, first), second)
    ensures Adds(s, first, After(s, first), second, After(After(s, first), second), what)
    decreases |second|
  {
    if second == [] {
      assert first + second == first;
    } else {
      var init, l := second[..|second| - 1], second[|second| - 1];
      CountsAdd(s, first, init, what);
      AddsOneMore(s, first, After(s, first), init, After(After(s, first), init), l, what);
      assert second == init + [l];
    }
  }

  lemma CountOne(s: State, l: Label, what: Kind)
    requires Enabled(s, l)
    ensures Legal(s, [l]) && After(s, [l]) == Apply(s, l) && CountIn(s, [l], what) == StepCount(s, l, what)
  {
    assert [l][..0] == [];
    OneStep(s, l);
  }

  lemma CountFirst(s: State, l: Label, rest: seq<Label>, what: Kind)
    requires Enabled(s, l) && Legal(Apply(s, l), rest)
    ensures Legal(s, [l] + rest) && After(s, [l] + rest) == After(Apply(s, l), rest)
    ensures CountIn(s, [l] + rest, what) == StepCount(s, l, what) + CountIn(Apply(s, l), rest, what)
  {
    CountOne(s, l, what);
    StepThenRun(s, l, rest);
    CountsAdd(s, [l], rest, what);
  }
}
