/** The outbox as a labelled transition system: any number of pods poll one table, and each
  * database statement, each handler call, each crash and each clock tick is a step of its own.
  *
  * `audit` and `deleted` are history that no code reads.
  */
module OutboxProtocol {
  import opened Wrappers
  import opened Sequences
  import opened OutboxRows

  type PodId = nat

  /** Where one pod's processOutbox stands. Idle is isRunning == false. `published` is the
    * result of the handler call for the first record of the batch, once there is one. */
  datatype Pod =
    | Idle
    | Reclaiming
    | Busy(batch: seq<Record>, published: Option<bool>)

  datatype Audit = Audit(claims: nat, reclaims: nat, publishes: nat, backoff: int)

  datatype Tombstone = Tombstone(row: Row, at: int)

  datatype State = State(
    now: int,
    rows: Table,
    pods: map<PodId, Pod>,
    audit: map<RowId, Audit>,
    deleted: map<RowId, Tombstone>)

  datatype Label =
    | Write(ids: set<RowId>)
    | Tick(delta: int)
    | Reclaim(pod: PodId)
    | Claim(pod: PodId, order: seq<RowId>, locked: set<RowId>)
    | Publish(pod: PodId, ok: bool)
    | Done(pod: PodId)
    | DoneLost(pod: PodId)
    | Fail(pod: PodId)
    | FailLost(pod: PodId)
    | Crash(pod: PodId)
    | Cleanup(processed: bool)

  function Init(now: int): State {
    State(now, map[], map[], map[], map[])
  }

  function PodOf(s: State, p: PodId): Pod {
    if p in s.pods then s.pods[p] else Idle
  }

  function Ids(order: seq<RowId>): set<RowId> {
    set id | id in order
  }

  predicate Published(pod: Pod, ok: bool) {
    pod.Busy? && pod.batch != [] && pod.published == Some(ok)
  }

  ghost predicate Enabled(s: State, l: Label) {
    match l
    case Write(ids) => ids !! s.audit.Keys
    case Tick(delta) => delta > 0
    case Reclaim(p) => PodOf(s, p).Idle?
    case Claim(p, order, locked) =>
      PodOf(s, p).Reclaiming? && Distinct(order) && OldestFirst(s.rows, s.now, locked, Ids(order))
    case Publish(p, _) => PodOf(s, p).Busy? && PodOf(s, p).batch != [] && PodOf(s, p).published == None
    case Done(p) => Published(PodOf(s, p), true)
    case DoneLost(p) => Published(PodOf(s, p), true)
    case Fail(p) => Published(PodOf(s, p), false)
    case FailLost(p) => Published(PodOf(s, p), false)
    case Crash(p) => true
    case Cleanup(_) => true
  }

  function Release(batch: seq<Record>): Pod
    requires batch != []
  {
    if |batch| == 1 then Idle else Busy(batch[1..], None)
  }

  function CountReclaims(s: State): map<RowId, Audit> {
    map id | id in s.audit ::
      if id in s.rows && Stuck(s.rows[id], s.now)
      then s.audit[id].(reclaims := s.audit[id].reclaims + 1) else s.audit[id]
  }

  function CountClaims(audit: map<RowId, Audit>, ids: set<RowId>): map<RowId, Audit> {
    map id | id in audit :: if id in ids then audit[id].(claims := audit[id].claims + 1) else audit[id]
  }

  function CountPublish(audit: map<RowId, Audit>, id: RowId, ok: bool): map<RowId, Audit> {
    if ok && id in audit then audit[id := audit[id].(publishes := audit[id].publishes + 1)] else audit
  }

  /** A wait is added only when the failure leads to another attempt. */
  function CountBackoff(audit: map<RowId, Audit>, rows: Table, rec: Record): map<RowId, Audit> {
    if rec.id in audit && rec.id in rows && rec.retryCount + 1 < rec.maxRetries
    then audit[rec.id := audit[rec.id].(backoff := audit[rec.id].backoff + RetryDelay(rec.retryCount + 1))]
    else audit
  }

  function NextRows(s: State, l: Label): Table
    requires Enabled(s, l)
  {
    match l
    case Write(ids) => InsertAll(s.rows, ids, s.now)
    case Reclaim(p) => ReclaimAll(s.rows, s.now)
    case Claim(p, order, locked) => ClaimAll(s.rows, Ids(order), s.now)
    case Done(p) => WriteProcessed(s.rows, PodOf(s, p).batch[0], s.now)
    case Fail(p) => WriteFailure(s.rows, PodOf(s, p).batch[0], s.now)
    case Cleanup(processed) => s.rows - Expired(s.rows, s.now, processed)
    case _ => s.rows
  }

  function NextDeleted(s: State, l: Label): map<RowId, Tombstone>
    requires Enabled(s, l)
  {
    if l.Cleanup?
    then s.deleted + map id | id in Expired(s.rows, s.now, l.processed) :: Tombstone(s.rows[id], s.now)
    else s.deleted
  }

  function NextPods(s: State, l: Label): map<PodId, Pod>
    requires Enabled(s, l)
  {
    match l
    case Reclaim(p) => s.pods[p := Reclaiming]
    case Claim(p, order, locked) =>
      assert forall id :: id in order ==> id in Ids(order);
      s.pods[p := if order == [] then Idle else Busy(Snapshot(s.rows, order), None)]
    case Publish(p, ok) => s.pods[p := Busy(PodOf(s, p).batch, Some(ok))]
    case Done(p) => s.pods[p := Release(PodOf(s, p).batch)]
    case DoneLost(p) => s.pods[p := Busy(PodOf(s, p).batch, Some(false))]
    case Fail(p) => s.pods[p := Release(PodOf(s, p).batch)]
    case FailLost(p) => s.pods[p := Idle]
    case Crash(p) => s.pods[p := Idle]
    case _ => s.pods
  }

  function NextAudit(s: State, l: Label): map<RowId, Audit>
    requires Enabled(s, l)
  {
    match l
    case Write(ids) => s.audit + map id | id in ids :: Audit(0, 0, 0, 0)
    case Reclaim(p) => CountReclaims(s)
    case Claim(p, order, locked) => CountClaims(s.audit, Ids(order))
    case Publish(p, ok) => CountPublish(s.audit, PodOf(s, p).batch[0].id, ok)
    case Fail(p) => CountBackoff(s.audit, s.rows, PodOf(s, p).batch[0])
    case _ => s.audit
  }

  function Apply(s: State, l: Label): State
    requires Enabled(s, l)
  {
    State(if l.Tick? then s.now + l.delta else s.now,
          NextRows(s, l), NextPods(s, l), NextAudit(s, l), NextDeleted(s, l))
  }

  // ----- runs ---------------------------------------------------------------

  ghost predicate Legal(s: State, run: seq<Label>)
    decreases |run|, 0
  {
    run == [] || (Legal(s, run[..|run| - 1]) && Enabled(After(s, run[..|run| - 1]), run[|run| - 1]))
  }

  ghost function After(s: State, run: seq<Label>): State
    requires Legal(s, run)
    decreases |run|, 1
  {
    if run == [] then s else Apply(After(s, run[..|run| - 1]), run[|run| - 1])
  }

  /** Every prefix of a legal run is legal, and continues by one step. */
  lemma {:induction false} LegalPrefix(s: State, run: seq<Label>, k: nat)
    requires Legal(s, run) && k <= |run|
    ensures Legal(s, run[..k])
    ensures k < |run| ==> Legal(s, run[..k + 1]) && Enabled(After(s, run[..k]), run[k])
    ensures k < |run| ==> After(s, run[..k + 1]) == Apply(After(s, run[..k]), run[k])
    decreases |run|
  {
    if k == |run| {
      assert run[..k] == run;
    } else {
      var shorter := run[..|run| - 1];
      assert run[..k] == shorter[..k];
      LegalPrefix(s, shorter, k);
      if k == |run| - 1 {
        assert run[..k] == shorter && run[..k + 1] == run;
      } else {
        assert run[..k + 1] == shorter[..k + 1] && run[k] == shorter[k];
      }
    }
  }

  /** The state before step `k`, or at the end of the run. */
  ghost function StateAt(s: State, run: seq<Label>, k: nat): State
    requires Legal(s, run) && k <= |run|
  {
    LegalPrefix(s, run, k);
    After(s, run[..k])
  }

  lemma StepAt(s: State, run: seq<Label>, k: nat)
    requires Legal(s, run) && k < |run|
    ensures Enabled(StateAt(s, run, k), run[k])
    ensures StateAt(s, run, k + 1) == Apply(StateAt(s, run, k), run[k])
  {
    LegalPrefix(s, run, k);
  }

  /** Runs compose. */
  lemma {:induction false} LegalConcat(s: State, first: seq<Label>, second: seq<Label>)
    requires Legal(s, first) && Legal(After(s, first), second)
    ensures Legal(s, first + second)
    ensures After(s, first + second) == After(After(s, first), second)
    decreases |second|
  {
    if second == [] {
      assert first + second == first;
    } else {
      var init := second[..|second| - 1];
      LegalConcat(s, first, init);
      assert (first + second)[..|first + second| - 1] == first + init;
    }
  }

  lemma OneStep(s: State, l: Label)
    requires Enabled(s, l)
    ensures Legal(s, [l]) && After(s, [l]) == Apply(s, l)
  {
    assert [l][..0] == [];
  }

  /** One more step at the front of a run. */
  lemma StepThenRun(s: State, l: Label, run: seq<Label>)
    requires Enabled(s, l) && Legal(Apply(s, l), run)
    ensures Legal(s, [l] + run) && After(s, [l] + run) == After(Apply(s, l), run)
  {
    OneStep(s, l);
    LegalConcat(s, [l], run);
  }
}
