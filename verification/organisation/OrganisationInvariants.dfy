/** What every run of requests keeps. */
module OrganisationInvariants {
  import opened Wrappers
  import opened DepartmentForest
  import opened DepartmentRepository
  import opened Organisation

  /** An active department stands under an active parent, and only it may have a manager. */
  ghost predicate DeptOk(s: Org, id: DeptId)
    requires id in s.depts
  {
    var row := s.depts[id];
    && (row.parentId.Some? ==>
          && HasDept(s, row.tenantId, row.parentId.value)
          && (row.isActive ==> s.depts[row.parentId.value].isActive))
    && (row.managerEmployeeId.Some? ==>
          row.isActive && EmployeeActive(s, row.tenantId, row.managerEmployeeId.value))
  }

  ghost predicate EmployeeOk(s: Org, id: EmployeeId)
    requires id in s.emps
  {
    var e := s.emps[id];
    && (e.departmentId.Some? ==>
          && HasDept(s, e.tenantId, e.departmentId.value)
          && (e.status != Terminated ==> s.depts[e.departmentId.value].isActive))
    && (e.status == Terminated <==> e.terminationDate.Some?)
  }

  ghost predicate Inv(s: Org) {
    && Acyclic(s.depts)
    && (forall id :: id in s.depts ==> DeptOk(s, id))
    && (forall id :: id in s.emps ==> EmployeeOk(s, id))
    && (forall a, b :: a in s.emps && b in s.emps && a != b ==>
          !(s.emps[a].tenantId == s.emps[b].tenantId && s.emps[a].userId == s.emps[b].userId))
  }

  lemma InvGivesParents(s: Org)
    requires Inv(s)
    ensures ParentsExist(s.depts)
  {
    forall id | id in s.depts && s.depts[id].parentId.Some?
      ensures s.depts[id].parentId.value in s.depts
      ensures s.depts[s.depts[id].parentId.value].tenantId == s.depts[id].tenantId
    {
      assert DeptOk(s, id);
    }
  }

  /** Replacing one row, or adding one, as long as nobody else relied on what changed. */
  lemma StoreKeepsInv(s: Org, id: DeptId, row: Department, log: seq<Event>)
    requires Inv(s) && Acyclic(s.depts[id := row])
    requires id in s.depts ==> s.depts[id].tenantId == row.tenantId
    requires DeptOk(Org(s.depts[id := row], s.emps, log), id)
    requires !row.isActive && id in s.depts ==>
      ActiveChildren(s.depts, row.tenantId, id) == {} && Staff(s.emps, row.tenantId, id) == {}
    ensures Inv(Org(s.depts[id := row], s.emps, log))
  {
    var s' := Org(s.depts[id := row], s.emps, log);
    forall x | x in s'.depts
      ensures DeptOk(s', x)
    {
      if x != id {
        assert DeptOk(s, x);
        if s.depts[x].parentId == Some(id) && s.depts[x].isActive && !row.isActive {
          assert x in ActiveChildren(s.depts, row.tenantId, id);
        }
      }
    }
    forall e | e in s'.emps
      ensures EmployeeOk(s', e)
    {
      assert EmployeeOk(s, e);
      assert s.emps[e].departmentId == Some(id) && s.emps[e].tenantId == row.tenantId && s.emps[e].status != Terminated
        ==> e in Staff(s.emps, row.tenantId, id);
    }
  }

  lemma SameParentKeepsAcyclic(s: Org, id: DeptId, row: Department)
    requires Inv(s) && id in s.depts && row.parentId == s.depts[id].parentId
    ensures Acyclic(s.depts[id := row])
  {
    SameParentsSameShape(s.depts, s.depts[id := row]);
  }

  lemma CreateDepartmentKeepsInv(s: Org, t: TenantId, id: DeptId, name: string, taken: bool, parentId: Option<DeptId>)
    requires Inv(s) && id !in s.depts
    ensures Inv(HandleCreateDepartment(s, t, id, name, taken, parentId).0)
  {
    var s' := HandleCreateDepartment(s, t, id, name, taken, parentId).0;
    if s' != s {
      InvGivesParents(s);
      var row := Department(t, name, parentId, None, true);
      InsertKeepsAcyclic(s.depts, id, row);
      StoreKeepsInv(s, id, row, s'.log);
    }
  }

  lemma UpdateDepartmentKeepsInv(s: Org, t: TenantId, id: DeptId, newName: Patch<string>, taken: bool,
                                 newParent: Patch<Option<DeptId>>)
    requires Inv(s)
    ensures Inv(HandleUpdateDepartment(s, t, id, newName, taken, newParent).0)
  {
    var s' := HandleUpdateDepartment(s, t, id, newName, taken, newParent).0;
    if s' != s {
      var old', row := s.depts[id], s'.depts[id];
      assert DeptOk(s, id);
      InvGivesParents(s);
      if row.parentId.Some? && row.parentId != old'.parentId {
        TenantSubtree(s.depts, t, id, row.parentId.value);
      }
      MoveKeepsAcyclicIfChanged(s.depts, id, row.parentId);
      SameParentsSameShape(Move(s.depts, id, row.parentId), s.depts[id := row]);
      UpdatedInactiveStaysEmpty(s, id);
      StoreKeepsInv(s, id, row, s'.log);
    }
  }

  lemma MoveKeepsAcyclicIfChanged(d: Departments, id: DeptId, parent: Option<DeptId>)
    requires id in d && Acyclic(d)
    requires parent.Some? && parent != d[id].parentId ==> !Descendant(d, id, parent.value)
    ensures Acyclic(Move(d, id, parent))
  {
    if parent == d[id].parentId {
      SameParentsSameShape(d, Move(d, id, parent));
    } else {
      MoveKeepsAcyclic(d, id, parent);
    }
  }

  /** Nothing active hangs directly on an inactive department. */
  lemma UpdatedInactiveStaysEmpty(s: Org, id: DeptId)
    requires Inv(s) && id in s.depts
    ensures !s.depts[id].isActive ==>
      ActiveChildren(s.depts, s.depts[id].tenantId, id) == {} && Staff(s.emps, s.depts[id].tenantId, id) == {}
  {
    if !s.depts[id].isActive {
      forall c | c in s.depts && s.depts[c].parentId == Some(id)
        ensures !s.depts[c].isActive
      {
        assert DeptOk(s, c);
      }
      forall e | e in s.emps && s.emps[e].departmentId == Some(id)
        ensures s.emps[e].status == Terminated
      {
        assert EmployeeOk(s, e);
      }
    }
  }

  lemma ManagerRequestsKeepInv(s: Org, t: TenantId, id: DeptId, manager: EmployeeId)
    requires Inv(s)
    ensures Inv(HandleAssignManager(s, t, id, manager).0)
    ensures Inv(HandleRemoveManager(s, t, id).0)
  {
    if HasDept(s, t, id) {
      assert DeptOk(s, id);
      UpdatedInactiveStaysEmpty(s, id);
      var s1 := HandleAssignManager(s, t, id, manager).0;
      if s1 != s {
        SameParentKeepsAcyclic(s, id, s1.depts[id]);
        StoreKeepsInv(s, id, s1.depts[id], s1.log);
      }
      var s2 := HandleRemoveManager(s, t, id).0;
      if s2 != s {
        SameParentKeepsAcyclic(s, id, s2.depts[id]);
        StoreKeepsInv(s, id, s2.depts[id], s2.log);
      }
    }
  }

  lemma ActivationRequestsKeepInv(s: Org, t: TenantId, id: DeptId)
    requires Inv(s)
    ensures Inv(HandleDeactivate(s, t, id).0)
    ensures Inv(HandleReactivate(s, t, id).0)
  {
    if HasDept(s, t, id) {
      assert DeptOk(s, id);
      var s1 := HandleDeactivate(s, t, id).0;
      if s1 != s {
        SameParentKeepsAcyclic(s, id, s1.depts[id]);
        StoreKeepsInv(s, id, s1.depts[id], s1.log);
      }
      var s2 := HandleReactivate(s, t, id).0;
      if s2 != s {
        SameParentKeepsAcyclic(s, id, s2.depts[id]);
        StoreKeepsInv(s, id, s2.depts[id], s2.log);
      }
    }
  }

  /** An employee may be added for a user who has no profile yet, or moved, if the department
    * given is one of the tenant and active. */
  lemma StoreEmployeeKeepsInv(s: Org, id: EmployeeId, row: Employee, log: seq<Event>)
    requires Inv(s) && row.status != Terminated && row.terminationDate.None?
    requires row.departmentId.Some? ==> DepartmentValid(s, row.tenantId, row.departmentId.value)
    requires if id in s.emps then row == s.emps[id].(departmentId := row.departmentId)
             else !UserEmployed(s, row.tenantId, row.userId)
    ensures Inv(Org(s.depts, s.emps[id := row], log))
  {
    var s' := Org(s.depts, s.emps[id := row], log);
    forall x | x in s'.depts
      ensures DeptOk(s', x)
    {
      assert DeptOk(s, x);
    }
    forall e | e in s'.emps
      ensures EmployeeOk(s', e)
    {
      assert e in s.emps ==> EmployeeOk(s, e);
    }
  }

  lemma CreateEmployeeKeepsInv(s: Org, t: TenantId, id: EmployeeId, userId: UserId, numberTaken: bool,
                               departmentId: Option<DeptId>, timezoneOk: bool)
    requires Inv(s) && id !in s.emps
    ensures Inv(HandleCreateEmployee(s, t, id, userId, numberTaken, departmentId, timezoneOk).0)
  {
    var s' := HandleCreateEmployee(s, t, id, userId, numberTaken, departmentId, timezoneOk).0;
    if s' != s {
      StoreEmployeeKeepsInv(s, id, Employee(t, userId, departmentId, Active, None), s'.log);
    }
  }

  lemma UpdateEmployeeKeepsInv(s: Org, t: TenantId, id: EmployeeId, profileChanges: bool, timezoneOk: bool,
                               newDepartment: Patch<Option<DeptId>>)
    requires Inv(s)
    ensures Inv(HandleUpdateEmployee(s, t, id, profileChanges, timezoneOk, newDepartment).0)
  {
    var s' := HandleUpdateEmployee(s, t, id, profileChanges, timezoneOk, newDepartment).0;
    if s' != s {
      assert EmployeeOk(s, id);
      StoreEmployeeKeepsInv(s, id, s'.emps[id], s'.log);
    }
  }

  lemma ChangeStatusKeepsInv(s: Org, t: TenantId, id: EmployeeId, status: EmployeeStatus, date: Option<Date>, today: Date)
    requires Inv(s)
    ensures Inv(HandleChangeStatus(s, t, id, status, date, today).0)
  {
    var s' := HandleChangeStatus(s, t, id, status, date, today).0;
    SameParentsSameShape(s.depts, s'.depts);
    forall x | x in s'.depts
      ensures DeptOk(s', x)
    {
      ChangeStatusKeepsDept(s, t, id, status, date, today, x);
    }
    forall e | e in s'.emps
      ensures EmployeeOk(s', e)
    {
      assert EmployeeOk(s, e);
    }
  }

  lemma ChangeStatusKeepsDept(s: Org, t: TenantId, id: EmployeeId, status: EmployeeStatus, date: Option<Date>,
                              today: Date, x: DeptId)
    requires Inv(s) && x in HandleChangeStatus(s, t, id, status, date, today).0.depts
    ensures DeptOk(HandleChangeStatus(s, t, id, status, date, today).0, x)
  {
    assert DeptOk(s, x);
  }

  lemma RequestKeepsInv(s: Org, t: TenantId, r: Request)
    requires Inv(s) && FreshIds(s, r)
    ensures Inv(Handle(s, t, r).0)
  {
    match r
    case CreateDepartment(id, name, taken, parentId) => CreateDepartmentKeepsInv(s, t, id, name, taken, parentId);
    case UpdateDepartment(id, name, taken, parentId) => UpdateDepartmentKeepsInv(s, t, id, name, taken, parentId);
    case AssignManager(id, m) => ManagerRequestsKeepInv(s, t, id, m);
    case RemoveManager(id) => ManagerRequestsKeepInv(s, t, id, 0);
    case DeactivateDepartment(id) => ActivationRequestsKeepInv(s, t, id);
    case ReactivateDepartment(id) => ActivationRequestsKeepInv(s, t, id);
    case ChangeStatus(id, status, date, today) => ChangeStatusKeepsInv(s, t, id, status, date, today);
    case CreateEmployee(id, u, taken, dept, tz) => CreateEmployeeKeepsInv(s, t, id, u, taken, dept, tz);
    case UpdateEmployee(id, p, tz, dept) => UpdateEmployeeKeepsInv(s, t, id, p, tz, dept);
  }

  lemma {:induction false} RunKeepsInv(run: seq<Call>)
    requires Legal(run)
    ensures Inv(After(run))
    decreases |run|
  {
    if run != [] {
      var shorter := run[..|run| - 1];
      RunKeepsInv(shorter);
      RequestKeepsInv(After(shorter), run[|run| - 1].tenant, run[|run| - 1].request);
    }
  }

  // ----- what follows for every reachable state ---------------------------------------

  lemma {:induction false} InactiveBelow(s: Org, id: DeptId, x: DeptId, n: nat)
    requires Inv(s) && id in s.depts && !s.depts[id].isActive && x in s.depts && Up(s.depts, x, n) == Some(id)
    ensures !s.depts[x].isActive && s.depts[x].tenantId == s.depts[id].tenantId
    decreases n
  {
    if n > 0 {
      assert DeptOk(s, x);
      InactiveBelow(s, id, s.depts[x].parentId.value, n - 1);
    }
  }

  /** A local guard gives a global fact. Deactivation looks only at direct children and at
    * directly assigned employees, yet nothing in the whole subtree of an inactive department is
    * active: no department, no manager, no employee who has not been terminated. */
  lemma InactiveSubtreeIsEmpty(run: seq<Call>, id: DeptId, x: DeptId)
    requires Legal(run)
    requires var s := After(run); id in s.depts && !s.depts[id].isActive && x in s.depts && Descendant(s.depts, id, x)
    ensures var s := After(run);
      && !s.depts[x].isActive && s.depts[x].managerEmployeeId.None?
      && forall e :: e in s.emps && s.emps[e].departmentId == Some(x) ==> s.emps[e].status == Terminated
  {
    RunKeepsInv(run);
    var s := After(run);
    var n: nat :| Up(s.depts, x, n) == Some(id);
    InactiveBelow(s, id, x, n);
    assert DeptOk(s, x);
    forall e | e in s.emps && s.emps[e].departmentId == Some(x)
      ensures s.emps[e].status == Terminated
    {
      assert EmployeeOk(s, e);
    }
  }

  lemma {:induction false} ActiveAbove(s: Org, x: DeptId, n: nat)
    requires Inv(s) && x in s.depts && s.depts[x].isActive && Up(s.depts, x, n).Some?
    ensures Up(s.depts, x, n).value in s.depts && s.depts[Up(s.depts, x, n).value].isActive
    decreases n
  {
    if n > 0 {
      assert DeptOk(s, x);
      ActiveAbove(s, s.depts[x].parentId.value, n - 1);
    }
  }

  /** Nothing in the subtree of `id` stands in the way of its deactivation. */
  ghost predicate SubtreeIsQuiet(s: Org, id: DeptId) {
    && (forall x :: x in s.depts && x != id && Descendant(s.depts, id, x) ==> !s.depts[x].isActive)
    && (forall e :: e in s.emps && s.emps[e].departmentId.Some? && Descendant(s.depts, id, s.emps[e].departmentId.value) ==>
          s.emps[e].status == Terminated)
  }

  lemma QuietFromTheTop(s: Org, t: TenantId, id: DeptId)
    requires Inv(s) && HasDept(s, t, id)
    requires ActiveChildren(s.depts, t, id) == {} && Staff(s.emps, t, id) == {}
    ensures SubtreeIsQuiet(s, id)
  {
    forall x | x in s.depts && x != id && Descendant(s.depts, id, x)
      ensures !s.depts[x].isActive
    {
      var n: nat :| Up(s.depts, x, n) == Some(id);
      InactiveBelowQuiet(s, t, id, x, n);
    }
    forall e | e in s.emps && s.emps[e].departmentId.Some? && Descendant(s.depts, id, s.emps[e].departmentId.value)
      ensures s.emps[e].status == Terminated
    {
      assert EmployeeOk(s, e);
      var x := s.emps[e].departmentId.value;
      if x == id {
        assert e !in Staff(s.emps, t, id);
      } else {
        assert DeptOk(s, x);
      }
    }
  }

  lemma {:induction false} InactiveBelowQuiet(s: Org, t: TenantId, id: DeptId, x: DeptId, n: nat)
    requires Inv(s) && HasDept(s, t, id) && ActiveChildren(s.depts, t, id) == {}
    requires x in s.depts && x != id && Up(s.depts, x, n) == Some(id)
    ensures !s.depts[x].isActive
    decreases n
  {
    assert DeptOk(s, x);
    var p := s.depts[x].parentId.value;
    if p == id {
      assert x !in ActiveChildren(s.depts, t, id);
    } else {
      InactiveBelowQuiet(s, t, id, p, n - 1);
    }
  }

  /** Deactivating an active department looks one level down, and that is exact: the request is
    * accepted if and only if nothing in the whole subtree is active below it and nobody who has
    * not been terminated belongs to the subtree. */
  lemma DeactivationGuardIsExact(run: seq<Call>, t: TenantId, id: DeptId)
    requires Legal(run) && DepartmentValid(After(run), t, id)
    ensures Handle(After(run), t, DeactivateDepartment(id)).1 == Accepted <==> SubtreeIsQuiet(After(run), id)
  {
    RunKeepsInv(run);
    var s := After(run);
    if SubtreeIsQuiet(s, id) {
      QuietMeansNoneDirect(s, t, id);
    } else if Handle(s, t, DeactivateDepartment(id)).1 == Accepted {
      QuietFromTheTop(s, t, id);
    }
  }

  lemma QuietMeansNoneDirect(s: Org, t: TenantId, id: DeptId)
    requires Inv(s) && SubtreeIsQuiet(s, id)
    ensures ActiveChildren(s.depts, t, id) == {} && Staff(s.emps, t, id) == {}
  {
    forall c | c in ActiveChildren(s.depts, t, id)
      ensures false
    {
      DescendantOfChild(s.depts, id, c);
      DescendantOfChild(s.depts, id, id);
      SelfParentIsCycle(s.depts, c);
    }
    forall e | e in Staff(s.emps, t, id)
      ensures false
    {
      DescendantOfChild(s.depts, id, id);
    }
  }

  ghost predicate AllAboveActive(s: Org, id: DeptId) {
    forall x :: x in s.depts && x != id && Descendant(s.depts, x, id) ==> s.depts[x].isActive
  }

  /** Reactivating looks one level up, and that is exact: the request is accepted if and only if
    * every department above is active. */
  lemma ReactivationGuardIsExact(run: seq<Call>, t: TenantId, id: DeptId)
    requires Legal(run) && HasDept(After(run), t, id) && !After(run).depts[id].isActive
    ensures Handle(After(run), t, ReactivateDepartment(id)).1 == Accepted <==> AllAboveActive(After(run), id)
  {
    RunKeepsInv(run);
    ParentActiveIff(After(run), t, id);
  }

  lemma ParentActiveIff(s: Org, t: TenantId, id: DeptId)
    requires Inv(s) && HasDept(s, t, id)
    ensures (s.depts[id].parentId.Some? ==> DepartmentValid(s, t, s.depts[id].parentId.value)) <==> AllAboveActive(s, id)
  {
    assert DeptOk(s, id);
    if s.depts[id].parentId.Some? {
      var p := s.depts[id].parentId.value;
      DescendantOfChild(s.depts, p, id);
      DescendantOfChild(s.depts, p, p);
      SelfParentIsCycle(s.depts, id);
    }
    if s.depts[id].parentId.Some? ==> DepartmentValid(s, t, s.depts[id].parentId.value) {
      forall x | x in s.depts && x != id && Descendant(s.depts, x, id)
        ensures s.depts[x].isActive
      {
        var n: nat :| Up(s.depts, id, n) == Some(x);
        ActiveAbove(s, s.depts[id].parentId.value, n - 1);
      }
    }
  }

  /** Whenever a new parent exists in the tenant and is active, and the new name if any is free,
    * the request is rejected as circular if and only if granting it would close a cycle. */
  lemma CycleGuardIsExact(run: seq<Call>, t: TenantId, id: DeptId, newName: Patch<string>, p: DeptId)
    requires Legal(run) && HasDept(After(run), t, id) && DepartmentValid(After(run), t, p)
    requires After(run).depts[id].parentId != Some(p)
    ensures Handle(After(run), t, UpdateDepartment(id, newName, false, Set(Some(p)))).1 == Rejected(CircularReference)
      <==> !Acyclic(Move(After(run).depts, id, Some(p)))
  {
    RunKeepsInv(run);
    var s := After(run);
    InvGivesParents(s);
    MoveMakesCycleIff(s.depts, id, p);
    TenantSubtree(s.depts, t, id, p);
  }

  /** Managers, terminations and user profiles across the two tables. */
  lemma CrossModuleFacts(run: seq<Call>)
    requires Legal(run)
    ensures var s := After(run);
      && Acyclic(s.depts) && ParentsExist(s.depts)
      && (forall id :: id in s.depts && s.depts[id].managerEmployeeId.Some? ==>
            var m := s.depts[id].managerEmployeeId.value;
            && m in s.emps && s.emps[m].tenantId == s.depts[id].tenantId
            && s.emps[m].status != Suspended && s.emps[m].status != Terminated
            && s.depts[id].isActive)
      && (forall e :: e in s.emps ==> (s.emps[e].status == Terminated <==> s.emps[e].terminationDate.Some?))
      && (forall a, b :: a in s.emps && b in s.emps && a != b && s.emps[a].tenantId == s.emps[b].tenantId ==>
            s.emps[a].userId != s.emps[b].userId)
  {
    RunKeepsInv(run);
    var s := After(run);
    InvGivesParents(s);
    forall id | id in s.depts
      ensures DeptOk(s, id)
    {
    }
    forall e | e in s.emps
      ensures EmployeeOk(s, e)
    {
    }
  }

  /** Reactivating right after a deactivation always succeeds and restores the department,
    * except that its manager stays cleared. */
  lemma ReactivateUndoesDeactivate(run: seq<Call>, t: TenantId, id: DeptId)
    requires Legal(run) && Handle(After(run), t, DeactivateDepartment(id)).1 == Accepted
    ensures var s := After(run);
      var again := Handle(Handle(s, t, DeactivateDepartment(id)).0, t, ReactivateDepartment(id));
      && again.1 == Accepted
      && again.0.depts == s.depts[id := s.depts[id].(managerEmployeeId := None)]
      && again.0.emps == s.emps
  {
    RunKeepsInv(run);
    assert DeptOk(After(run), id);
    SelfParentIsCycle(After(run).depts, id);
  }
}
