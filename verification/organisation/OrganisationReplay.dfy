/** The emitted events as a full record: replaying them rebuilds both tables. */
module OrganisationReplay {
  import opened Wrappers
  import opened DepartmentForest
  import opened DepartmentRepository
  import opened Organisation
  import opened OrganisationInvariants

  /** What a consumer of the events knows. */
  datatype View = View(depts: Departments, emps: Employees)

  function To<T>(c: Option<Change<T>>, was: T): T {
    if c.Some? then c.value.to else was
  }

  /** How a consumer reads one event; events about unknown ids are ignored. */
  function Observe(v: View, e: Event): View {
    match e
    case DepartmentCreated(t, id, name, parentId) =>
      v.(depts := v.depts[id := Department(t, name, parentId, None, true)])
    case DepartmentUpdated(t, id, changes) =>
      if id !in v.depts then v
      else
        var row := v.depts[id];
        v.(depts := v.depts[id := row.(
          name := To(changes.name, row.name),
          parentId := To(changes.parentId, row.parentId),
          managerEmployeeId := To(changes.managerEmployeeId, row.managerEmployeeId),
          isActive := To(changes.isActive, row.isActive))])
    case DepartmentDeactivated(t, id, name) =>
      if id !in v.depts then v
      else v.(depts := v.depts[id := v.depts[id].(isActive := false, managerEmployeeId := None)])
    case EmployeeCreated(t, id, u, dept) =>
      v.(emps := v.emps[id := Employee(t, u, dept, Active, None)])
    case EmployeeUpdated(t, id, dept) =>
      if id !in v.emps then v
      else v.(emps := v.emps[id := v.emps[id].(departmentId := To(dept, v.emps[id].departmentId))])
    case EmployeeStatusChanged(t, id, previous, status, date) =>
      if id !in v.emps then v
      else
        View(if status == Suspended || status == Terminated then WithoutManager(v.depts, t, id) else v.depts,
             v.emps[id := v.emps[id].(
               status := status,
               terminationDate := if status == Terminated then date else v.emps[id].terminationDate)])
  }

  function Replay(log: seq<Event>): View {
    if log == [] then View(map[], map[]) else Observe(Replay(log[..|log| - 1]), log[|log| - 1])
  }

  predicate From<T(==)>(c: Option<Change<T>>, was: T) {
    c.Some? ==> c.value.from == was && c.value.to != was
  }

  /** What the event says was there before is what the consumer has. */
  predicate Continues(v: View, e: Event) {
    match e
    case DepartmentCreated(t, id, name, parentId) => id !in v.depts
    case DepartmentUpdated(t, id, changes) =>
      && id in v.depts && v.depts[id].tenantId == t
      && From(changes.name, v.depts[id].name)
      && From(changes.parentId, v.depts[id].parentId)
      && (changes.managerEmployeeId.Some? ==> changes.managerEmployeeId.value.from == v.depts[id].managerEmployeeId)
      && From(changes.isActive, v.depts[id].isActive)
    case DepartmentDeactivated(t, id, name) =>
      id in v.depts && v.depts[id].tenantId == t && v.depts[id].name == name && v.depts[id].isActive
    case EmployeeCreated(t, id, u, dept) => id !in v.emps
    case EmployeeUpdated(t, id, dept) =>
      id in v.emps && v.emps[id].tenantId == t && From(dept, v.emps[id].departmentId)
    case EmployeeStatusChanged(t, id, previous, status, date) =>
      id in v.emps && v.emps[id].tenantId == t && v.emps[id].status == previous
  }

  predicate Coherent(log: seq<Event>) {
    log == [] || (Coherent(log[..|log| - 1]) && Continues(Replay(log[..|log| - 1]), log[|log| - 1]))
  }

  function ViewOf(s: Org): View {
    View(s.depts, s.emps)
  }

  /** A request emits nothing and changes nothing, or emits one event that tells it all. */
  lemma RequestIsObserved(s: Org, t: TenantId, r: Request)
    requires Inv(s) && FreshIds(s, r)
    ensures var s' := Handle(s, t, r).0;
      || s' == s
      || (|s'.log| == |s.log| + 1 && s'.log[..|s.log|] == s.log
          && ViewOf(s') == Observe(ViewOf(s), s'.log[|s.log|]) && Continues(ViewOf(s), s'.log[|s.log|]))
  {
    match r
    case ChangeStatus(id, status, date, today) =>
      if id in s.emps {
        assert EmployeeOk(s, id);
      }
    case DeactivateDepartment(id) =>
    case _ =>
  }

  lemma ReplaySnoc(log: seq<Event>, e: Event)
    ensures Replay(log + [e]) == Observe(Replay(log), e)
    ensures Coherent(log + [e]) <==> Coherent(log) && Continues(Replay(log), e)
  {
    assert (log + [e])[..|log + [e]| - 1] == log;
  }

  lemma RequestIsReplayed(s: Org, t: TenantId, r: Request)
    requires Inv(s) && FreshIds(s, r) && Replay(s.log) == ViewOf(s) && Coherent(s.log)
    ensures var s' := Handle(s, t, r).0;
      Replay(s'.log) == ViewOf(s') && Coherent(s'.log)
  {
    RequestIsObserved(s, t, r);
    var s' := Handle(s, t, r).0;
    if s' != s {
      ReplaySnoc(s.log, s'.log[|s.log|]);
      assert s'.log == s.log + [s'.log[|s.log|]];
    }
  }

  /** Replaying the events of any run, in emission order, rebuilds every department and every
    * employee, including the silent clearing of managers; and every "from" is what the replay
    * has at that point. */
  lemma {:induction false} ReplayRebuildsTables(run: seq<Call>)
    requires Legal(run)
    ensures Replay(After(run).log) == ViewOf(After(run))
    ensures Coherent(After(run).log)
    decreases |run|
  {
    if run != [] {
      var shorter := run[..|run| - 1];
      ReplayRebuildsTables(shorter);
      RunKeepsInv(shorter);
      RequestIsReplayed(After(shorter), run[|run| - 1].tenant, run[|run| - 1].request);
    }
  }
}
