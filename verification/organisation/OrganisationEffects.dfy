/** When a request is granted, why it is refused otherwise, and what a granted request leaves behind, in
  * terms of the departments and employees as a whole rather than of the checks made one by one. */
module OrganisationEffects {
  import opened Wrappers
  import opened DepartmentForest
  import opened DepartmentRepository
  import opened Organisation
  import opened OrganisationInvariants

  // ----- what a granted request leaves behind ------------------------------------------

  function Patched<T>(p: Patch<T>, was: T): T {
    match p
    case Keep => was
    case Set(v) => v
  }

  /** Nothing but the department `id` has changed in the tables. */
  ghost predicate OnlyDept(s: Org, s': Org, id: DeptId) {
    && s'.emps == s.emps && s'.depts.Keys == s.depts.Keys + {id}
    && forall x :: x in s.depts && x != id ==> s'.depts[x] == s.depts[x]
  }

  ghost predicate OnlyEmployee(s: Org, s': Org, id: EmployeeId) {
    && s'.emps.Keys == s.emps.Keys + {id}
    && forall x :: x in s.emps && x != id ==> s'.emps[x] == s.emps[x]
  }

  /** The department is the old one with these fields. */
  predicate DeptNow(s: Org, s': Org, id: DeptId, name: string, parent: Option<DeptId>, manager: Option<EmployeeId>, active: bool) {
    id in s.depts && id in s'.depts
    && s'.depts[id] == Department(s.depts[id].tenantId, name, parent, manager, active)
  }

  /** The managers after `e` has left: nobody else's department loses its manager. */
  ghost predicate LeavesManagement(s: Org, s': Org, t: TenantId, e: EmployeeId) {
    && s'.depts.Keys == s.depts.Keys
    && forall x :: x in s.depts ==>
         var was := s.depts[x];
         && s'.depts[x].tenantId == was.tenantId && s'.depts[x].name == was.name
         && s'.depts[x].parentId == was.parentId && s'.depts[x].isActive == was.isActive
         && (s'.depts[x].managerEmployeeId.None? <==>
               was.managerEmployeeId.None? || (was.tenantId == t && was.managerEmployeeId.value == e))
         && (s'.depts[x].managerEmployeeId.Some? ==> s'.depts[x].managerEmployeeId == was.managerEmployeeId)
  }

  ghost predicate Effect(s: Org, s': Org, t: TenantId, r: Request) {
    match r
    case CreateDepartment(id, name, _, parent) =>
      OnlyDept(s, s', id) && s'.depts[id] == Department(t, name, parent, None, true)
    case UpdateDepartment(id, newName, _, newParent) =>
      && OnlyDept(s, s', id) && id in s.depts
      && var was := s.depts[id];
         DeptNow(s, s', id, Patched(newName, was.name), Patched(newParent, was.parentId), was.managerEmployeeId, was.isActive)
    case AssignManager(id, m) =>
      OnlyDept(s, s', id) && id in s.depts && DeptNow(s, s', id, s.depts[id].name, s.depts[id].parentId, Some(m), true)
    case RemoveManager(id) =>
      && OnlyDept(s, s', id) && id in s.depts
      && DeptNow(s, s', id, s.depts[id].name, s.depts[id].parentId, None, s.depts[id].isActive)
    case DeactivateDepartment(id) =>
      OnlyDept(s, s', id) && id in s.depts && DeptNow(s, s', id, s.depts[id].name, s.depts[id].parentId, None, false)
    case ReactivateDepartment(id) =>
      && OnlyDept(s, s', id) && id in s.depts
      && DeptNow(s, s', id, s.depts[id].name, s.depts[id].parentId, s.depts[id].managerEmployeeId, true)
    case CreateEmployee(id, u, _, dept, _) =>
      s'.depts == s.depts && OnlyEmployee(s, s', id) && s'.emps[id] == Employee(t, u, dept, Active, None)
    case UpdateEmployee(id, _, _, newDept) =>
      && s'.depts == s.depts && OnlyEmployee(s, s', id) && id in s.emps
      && var was := s.emps[id];
         s'.emps[id] == Employee(was.tenantId, was.userId, Patched(newDept, was.departmentId), was.status, was.terminationDate)
    case ChangeStatus(id, status, date, today) =>
      && OnlyEmployee(s, s', id) && id in s.emps
      && (if status in {Suspended, Terminated} then LeavesManagement(s, s', t, id) else s'.depts == s.depts)
      && var was := s.emps[id];
         s'.emps[id] == Employee(was.tenantId, was.userId, was.departmentId, status,
                                 if status != Terminated then was.terminationDate
                                 else if date.Some? then date else Some(today))
  }

  /** The request asks for what is there already; such a request emits nothing. */
  predicate AsksForNothing(s: Org, r: Request) {
    match r
    case UpdateDepartment(id, newName, _, newParent) =>
      && id in s.depts && Patched(newName, s.depts[id].name) == s.depts[id].name
      && Patched(newParent, s.depts[id].parentId) == s.depts[id].parentId
    case RemoveManager(id) => id in s.depts && s.depts[id].managerEmployeeId.None?
    case UpdateEmployee(id, profileChanges, _, newDept) =>
      !profileChanges && id in s.emps && Patched(newDept, s.emps[id].departmentId) == s.emps[id].departmentId
    case _ => false
  }

  lemma DepartmentRequestTakesEffect(s: Org, t: TenantId, r: Request)
    requires FreshIds(s, r) && Handle(s, t, r).1 == Accepted
    requires r.CreateDepartment? || r.UpdateDepartment? || r.AssignManager? || r.RemoveManager?
             || r.DeactivateDepartment? || r.ReactivateDepartment?
    ensures Effect(s, Handle(s, t, r).0, t, r)
    ensures |Handle(s, t, r).0.log| == |s.log| + if AsksForNothing(s, r) then 0 else 1
  {
  }

  lemma EmployeeRequestTakesEffect(s: Org, t: TenantId, r: Request)
    requires FreshIds(s, r) && Handle(s, t, r).1 == Accepted
    requires r.CreateEmployee? || r.UpdateEmployee?
    ensures Effect(s, Handle(s, t, r).0, t, r)
    ensures |Handle(s, t, r).0.log| == |s.log| + if AsksForNothing(s, r) then 0 else 1
  {
  }

  lemma StatusChangeTakesEffect(s: Org, t: TenantId, r: Request)
    requires Handle(s, t, r).1 == Accepted && r.ChangeStatus?
    ensures Effect(s, Handle(s, t, r).0, t, r)
    ensures |Handle(s, t, r).0.log| == |s.log| + 1
  {
  }

  /** A granted request has just the effect it asks for, and emits one event unless it asks for nothing. */
  lemma GrantedRequestTakesEffect(s: Org, t: TenantId, r: Request)
    requires FreshIds(s, r) && Handle(s, t, r).1 == Accepted
    ensures Effect(s, Handle(s, t, r).0, t, r)
    ensures |Handle(s, t, r).0.log| == |s.log| + if AsksForNothing(s, r) then 0 else 1
  {
    if r.ChangeStatus? {
      StatusChangeTakesEffect(s, t, r);
    } else if r.CreateEmployee? || r.UpdateEmployee? {
      EmployeeRequestTakesEffect(s, t, r);
    } else {
      DepartmentRequestTakesEffect(s, t, r);
    }
  }

  /** A refused request leaves everything as it was. */
  lemma RefusedRequestChangesNothing(s: Org, t: TenantId, r: Request)
    requires Handle(s, t, r).1.Rejected?
    ensures Handle(s, t, r).0 == s
  {
  }

  // ----- when a request is granted --------------------------------------------------------

  /** Nobody comes back from termination, everybody else can be terminated, whoever is not active can
    * become active, and an active employee can become anything else. */
  predicate MayBecome(from: EmployeeStatus, to: EmployeeStatus) {
    from != Terminated && to != from && (from == Active || to == Active || to == Terminated)
  }

  lemma TransitionsAre(from: EmployeeStatus, to: EmployeeStatus)
    ensures to in ValidTransitions(from) <==> MayBecome(from, to)
  {
  }

  /** One thing that can stand against a request. */
  datatype Objection =
    | Unknown            // the tenant does not have the department or employee it is about
    | Taken              // the name or number is in use
    | Employed           // the user has a profile in the tenant
    | ParentUnknown
    | ParentInactive
    | Cyclic             // the move would close a cycle
    | DepartmentUnusable // not an active department of the tenant
    | ManagerUnfit       // not an employee of the tenant who may manage
    | Inactive
    | AlreadyActive
    | AboveInactive      // some department above is inactive
    | ChildrenActive
    | Staffed
    | Gone               // the employee was terminated
    | BadTimezone
    | BadTransition

  /** What the checks of a request look for, in their order. */
  function Objections(r: Request): seq<Objection> {
    match r
    case CreateDepartment(_, _, _, _) => [Taken, ParentUnknown, ParentInactive]
    case UpdateDepartment(_, _, _, _) => [Unknown, Taken, ParentUnknown, ParentInactive, Cyclic]
    case AssignManager(_, _) => [ManagerUnfit, Unknown, Inactive]
    case RemoveManager(_) => [Unknown]
    case DeactivateDepartment(_) => [Unknown, Inactive, ChildrenActive, Staffed]
    case ReactivateDepartment(_) => [Unknown, AlreadyActive, AboveInactive]
    case CreateEmployee(_, _, _, _, _) => [Taken, Employed, DepartmentUnusable, BadTimezone]
    case UpdateEmployee(_, _, _, _) => [Unknown, Gone, BadTimezone, DepartmentUnusable]
    case ChangeStatus(_, _, _, _) => [Unknown, BadTransition]
  }

  predicate KnownTarget(s: Org, t: TenantId, r: Request) {
    match r
    case CreateDepartment(_, _, _, _) => true
    case CreateEmployee(_, _, _, _, _) => true
    case UpdateEmployee(id, _, _, _) => HasEmployee(s, t, id)
    case ChangeStatus(id, _, _, _) => HasEmployee(s, t, id)
    case _ => HasDept(s, t, r.dept)
  }

  /** The parent a department request newly asks for. */
  function AskedParent(s: Org, r: Request): Option<DeptId> {
    match r
    case CreateDepartment(_, _, _, parent) => parent
    case UpdateDepartment(id, _, _, Set(parent)) => if id in s.depts && s.depts[id].parentId == parent then None else parent
    case _ => None
  }

  /** The department an employee request newly asks for. */
  function AskedDepartment(s: Org, r: Request): Option<DeptId> {
    match r
    case CreateEmployee(_, _, _, dept, _) => dept
    case UpdateEmployee(id, _, _, Set(dept)) => if id in s.emps && s.emps[id].departmentId == dept then None else dept
    case _ => None
  }

  predicate AsksForTaken(s: Org, r: Request) {
    match r
    case CreateDepartment(_, _, taken, _) => taken
    case UpdateDepartment(id, newName, taken, _) => taken && id in s.depts && Patched(newName, s.depts[id].name) != s.depts[id].name
    case CreateEmployee(_, _, taken, _, _) => taken
    case _ => false
  }

  /** The objection holds of the request. That there is a cycle, an inactive department above, is said of
    * the whole forest. */
  ghost predicate Holds(s: Org, t: TenantId, r: Request, o: Objection) {
    match o
    case Unknown => !KnownTarget(s, t, r)
    case Taken => AsksForTaken(s, r)
    case Employed => r.CreateEmployee? && exists e :: HasEmployee(s, t, e) && s.emps[e].userId == r.userId
    case ParentUnknown => AskedParent(s, r).Some? && !HasDept(s, t, AskedParent(s, r).value)
    case ParentInactive =>
      AskedParent(s, r).Some? && HasDept(s, t, AskedParent(s, r).value) && !s.depts[AskedParent(s, r).value].isActive
    case Cyclic => r.UpdateDepartment? && AskedParent(s, r).Some? && r.dept in s.depts && !Acyclic(Move(s.depts, r.dept, AskedParent(s, r)))
    case DepartmentUnusable => AskedDepartment(s, r).Some? && !DepartmentValid(s, t, AskedDepartment(s, r).value)
    case ManagerUnfit =>
      r.AssignManager? && !(HasEmployee(s, t, r.manager) && s.emps[r.manager].status in {Active, OnProbation, OnLeave})
    case Inactive => (r.AssignManager? || r.DeactivateDepartment?) && r.dept in s.depts && !s.depts[r.dept].isActive
    case AlreadyActive => r.ReactivateDepartment? && r.dept in s.depts && s.depts[r.dept].isActive
    case AboveInactive => r.ReactivateDepartment? && !AllAboveActive(s, r.dept)
    case ChildrenActive => r.DeactivateDepartment? && exists c :: c in s.depts && s.depts[c].parentId == Some(r.dept) && s.depts[c].isActive
    case Staffed => r.DeactivateDepartment? && exists e :: e in s.emps && s.emps[e].departmentId == Some(r.dept) && s.emps[e].status != Terminated
    case Gone => r.UpdateEmployee? && r.employee in s.emps && s.emps[r.employee].status == Terminated
    case BadTimezone => (r.CreateEmployee? || r.UpdateEmployee?) && !r.timezoneOk
    case BadTransition => r.ChangeStatus? && r.employee in s.emps && !MayBecome(s.emps[r.employee].status, r.status)
  }

  /** The answer an objection is given. */
  ghost predicate Says(s: Org, t: TenantId, r: Request, o: Objection, e: Error) {
    match o
    case Unknown => e == NotFound
    case Taken => e == if r.CreateEmployee? then NumberTaken else AlreadyExists
    case Employed => e == UserAlreadyEmployed
    case ParentUnknown => e == NotFound
    case ParentInactive => e == NotPermitted
    case Cyclic => e == CircularReference
    case DepartmentUnusable => e == NotFound
    case ManagerUnfit => e == EmployeeNotActive
    case Inactive => e == NotPermitted
    case AlreadyActive => e == NotPermitted
    case AboveInactive => e == NotPermitted
    case ChildrenActive => r.DeactivateDepartment? && e == HasActiveChildren(|ActiveChildren(s.depts, t, r.dept)|)
    case Staffed => r.DeactivateDepartment? && e == HasActiveEmployees(|Staff(s.emps, t, r.dept)|)
    case Gone => e == EmployeeTerminated
    case BadTimezone => e == NotPermitted
    case BadTransition => e == InvalidTransition
  }

  /** None of the first `n` objections holds. */
  ghost predicate NoneHolds(s: Org, t: TenantId, r: Request, os: seq<Objection>, n: nat)
    requires n <= |os|
  {
    forall k :: 0 <= k < n ==> !Holds(s, t, r, os[k])
  }

  /** The reply names the first objection that holds, and accepts if there is none. */
  ghost predicate AnswersFirst(s: Org, t: TenantId, r: Request, os: seq<Objection>, reply: Reply) {
    && (reply == Accepted <==> NoneHolds(s, t, r, os, |os|))
    && forall k :: 0 <= k < |os| && Holds(s, t, r, os[k]) && NoneHolds(s, t, r, os, k) ==>
         reply.Rejected? && Says(s, t, r, os[k], reply.error)
  }

  lemma ChildrenActiveIff(s: Org, t: TenantId, id: DeptId)
    requires Inv(s) && HasDept(s, t, id)
    ensures |ActiveChildren(s.depts, t, id)| > 0 <==> exists c :: c in s.depts && s.depts[c].parentId == Some(id) && s.depts[c].isActive
    ensures |Staff(s.emps, t, id)| > 0 <==> exists e :: e in s.emps && s.emps[e].departmentId == Some(id) && s.emps[e].status != Terminated
  {
    forall c | c in s.depts && s.depts[c].parentId == Some(id) && s.depts[c].isActive
      ensures c in ActiveChildren(s.depts, t, id)
    {
      assert DeptOk(s, c);
    }
    forall e | e in s.emps && s.emps[e].departmentId == Some(id) && s.emps[e].status != Terminated
      ensures e in Staff(s.emps, t, id)
    {
      assert EmployeeOk(s, e);
    }
    if |ActiveChildren(s.depts, t, id)| > 0 {
      var c :| c in ActiveChildren(s.depts, t, id);
    }
    if |Staff(s.emps, t, id)| > 0 {
      var e :| e in Staff(s.emps, t, id);
    }
  }

  lemma CyclicIff(s: Org, t: TenantId, id: DeptId, p: DeptId)
    requires Inv(s) && HasDept(s, t, id)
    ensures Descendant(OfTenant(s.depts, t), id, p) <==> !Acyclic(Move(s.depts, id, Some(p)))
  {
    InvGivesParents(s);
    MoveMakesCycleIff(s.depts, id, p);
    TenantSubtree(s.depts, t, id, p);
  }

  lemma CreateDepartmentAnswers(s: Org, t: TenantId, r: Request)
    requires r.CreateDepartment?
    ensures AnswersFirst(s, t, r, Objections(r), Handle(s, t, r).1)
  {
    var os := Objections(r);
    assert os[0] == Taken && os[1] == ParentUnknown && os[2] == ParentInactive;
  }

  lemma UpdateDepartmentAnswers(s: Org, t: TenantId, r: Request)
    requires Inv(s) && r.UpdateDepartment?
    ensures AnswersFirst(s, t, r, Objections(r), Handle(s, t, r).1)
  {
    UpdateReplyIs(s, t, r);
    FiveObjections(s, t, r, Handle(s, t, r).1);
  }

  lemma FiveObjections(s: Org, t: TenantId, r: Request, reply: Reply)
    requires r.UpdateDepartment?
    requires reply
         == if Holds(s, t, r, Unknown) then Rejected(NotFound)
            else if Holds(s, t, r, Taken) then Rejected(AlreadyExists)
            else if Holds(s, t, r, ParentUnknown) then Rejected(NotFound)
            else if Holds(s, t, r, ParentInactive) then Rejected(NotPermitted)
            else if Holds(s, t, r, Cyclic) then Rejected(CircularReference)
            else Accepted
    ensures AnswersFirst(s, t, r, Objections(r), reply)
  {
    var os := Objections(r);
    assert os[0] == Unknown && os[1] == Taken && os[2] == ParentUnknown && os[3] == ParentInactive && os[4] == Cyclic;
  }

  lemma UpdateReplyIs(s: Org, t: TenantId, r: Request)
    requires Inv(s) && r.UpdateDepartment?
    ensures Handle(s, t, r).1
         == if Holds(s, t, r, Unknown) then Rejected(NotFound)
            else if Holds(s, t, r, Taken) then Rejected(AlreadyExists)
            else if Holds(s, t, r, ParentUnknown) then Rejected(NotFound)
            else if Holds(s, t, r, ParentInactive) then Rejected(NotPermitted)
            else if Holds(s, t, r, Cyclic) then Rejected(CircularReference)
            else Accepted
  {
    if HasDept(s, t, r.dept) && AskedParent(s, r).Some? {
      ParentErrorIs(s, t, r, AskedParent(s, r).value);
    }
  }

  lemma ParentErrorIs(s: Org, t: TenantId, r: Request, p: DeptId)
    requires Inv(s) && r.UpdateDepartment? && HasDept(s, t, r.dept) && AskedParent(s, r) == Some(p)
    ensures ParentError(s, t, r.dept, p)
         == if Holds(s, t, r, ParentUnknown) then Some(NotFound)
            else if Holds(s, t, r, ParentInactive) then Some(NotPermitted)
            else if Holds(s, t, r, Cyclic) then Some(CircularReference)
            else None
  {
    CyclicIff(s, t, r.dept, p);
  }

  lemma ManagerAnswers(s: Org, t: TenantId, r: Request)
    requires r.AssignManager? || r.RemoveManager?
    ensures AnswersFirst(s, t, r, Objections(r), Handle(s, t, r).1)
  {
    var os := Objections(r);
    if r.AssignManager? {
      assert os[0] == ManagerUnfit && os[1] == Unknown && os[2] == Inactive;
    } else {
      assert os[0] == Unknown;
    }
  }

  lemma DeactivateAnswers(s: Org, t: TenantId, r: Request)
    requires Inv(s) && r.DeactivateDepartment?
    ensures AnswersFirst(s, t, r, Objections(r), Handle(s, t, r).1)
  {
    var os := Objections(r);
    assert os[0] == Unknown && os[1] == Inactive && os[2] == ChildrenActive && os[3] == Staffed;
    DeactivateReplyIs(s, t, r);
  }

  lemma DeactivateReplyIs(s: Org, t: TenantId, r: Request)
    requires Inv(s) && r.DeactivateDepartment?
    ensures Handle(s, t, r).1
         == if Holds(s, t, r, Unknown) then Rejected(NotFound)
            else if Holds(s, t, r, Inactive) then Rejected(NotPermitted)
            else if Holds(s, t, r, ChildrenActive) then Rejected(HasActiveChildren(|ActiveChildren(s.depts, t, r.dept)|))
            else if Holds(s, t, r, Staffed) then Rejected(HasActiveEmployees(|Staff(s.emps, t, r.dept)|))
            else Accepted
  {
    if HasDept(s, t, r.dept) {
      ChildrenActiveIff(s, t, r.dept);
    }
  }

  lemma ReactivateAnswers(s: Org, t: TenantId, r: Request)
    requires Inv(s) && r.ReactivateDepartment?
    ensures AnswersFirst(s, t, r, Objections(r), Handle(s, t, r).1)
  {
    var os := Objections(r);
    assert os[0] == Unknown && os[1] == AlreadyActive && os[2] == AboveInactive;
    if HasDept(s, t, r.dept) {
      ParentActiveIff(s, t, r.dept);
    }
  }

  lemma EmployeeAnswers(s: Org, t: TenantId, r: Request)
    requires r.CreateEmployee? || r.UpdateEmployee?
    ensures AnswersFirst(s, t, r, Objections(r), Handle(s, t, r).1)
  {
    var os := Objections(r);
    if r.CreateEmployee? {
      assert os[0] == Taken && os[1] == Employed && os[2] == DepartmentUnusable && os[3] == BadTimezone;
    } else {
      assert os[0] == Unknown && os[1] == Gone && os[2] == BadTimezone && os[3] == DepartmentUnusable;
    }
  }

  lemma StatusAnswers(s: Org, t: TenantId, r: Request)
    requires r.ChangeStatus?
    ensures AnswersFirst(s, t, r, Objections(r), Handle(s, t, r).1)
  {
    var os := Objections(r);
    assert os[0] == Unknown && os[1] == BadTransition;
    if HasEmployee(s, t, r.employee) {
      TransitionsAre(s.emps[r.employee].status, r.status);
    }
  }

  /** Every request is granted exactly if no objection to it holds, and otherwise answered with the first
    * that does; the local checks on parents and children decide about the whole forest. */
  lemma RequestIsAnswered(s: Org, t: TenantId, r: Request)
    requires Inv(s)
    ensures AnswersFirst(s, t, r, Objections(r), Handle(s, t, r).1)
  {
    match r
    case CreateDepartment(_, _, _, _) => CreateDepartmentAnswers(s, t, r);
    case UpdateDepartment(_, _, _, _) => UpdateDepartmentAnswers(s, t, r);
    case AssignManager(_, _) => ManagerAnswers(s, t, r);
    case RemoveManager(_) => ManagerAnswers(s, t, r);
    case DeactivateDepartment(_) => DeactivateAnswers(s, t, r);
    case ReactivateDepartment(_) => ReactivateAnswers(s, t, r);
    case ChangeStatus(_, _, _, _) => StatusAnswers(s, t, r);
    case _ => EmployeeAnswers(s, t, r);
  }

  /** The request was answered as it should be, and `s'` is what it leaves behind. */
  ghost predicate Served(s: Org, t: TenantId, r: Request, s': Org, reply: Reply) {
    && AnswersFirst(s, t, r, Objections(r), reply)
    && if reply == Accepted then Effect(s, s', t, r) && |s'.log| == |s.log| + (if AsksForNothing(s, r) then 0 else 1)
       else s' == s
  }

  lemma RequestIsServed(s: Org, t: TenantId, r: Request)
    requires Inv(s) && FreshIds(s, r)
    ensures Served(s, t, r, Handle(s, t, r).0, Handle(s, t, r).1)
  {
    RequestIsAnswered(s, t, r);
    if Handle(s, t, r).1 == Accepted {
      GrantedRequestTakesEffect(s, t, r);
    } else {
      RefusedRequestChangesNothing(s, t, r);
    }
  }
}
