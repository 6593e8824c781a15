/** Departments and employees of all tenants, the requests that change them, and the events the
  * requests emit. A request (its checks, its writes and its event) is one step. Ids of new rows
  * are fresh; `nameTaken` and `numberTaken` are what the ILIKE lookups answered.
  */
module Organisation {
  import opened Wrappers
  import opened DepartmentForest
  import opened DepartmentRepository

  type UserId = nat
  type Date = int

  datatype EmployeeStatus = Active | OnProbation | OnLeave | Suspended | Terminated

  datatype Employee = Employee(
    tenantId: TenantId,
    userId: UserId,
    departmentId: Option<DeptId>,
    status: EmployeeStatus,
    terminationDate: Option<Date>)

  type Employees = map<EmployeeId, Employee>

  datatype Change<T> = Change(from: T, to: T)

  datatype DepartmentChanges = DepartmentChanges(
    name: Option<Change<string>>,
    parentId: Option<Change<Option<DeptId>>>,
    managerEmployeeId: Option<Change<Option<EmployeeId>>>,
    isActive: Option<Change<bool>>)

  datatype Event =
    | DepartmentCreated(tenantId: TenantId, dept: DeptId, name: string, parentId: Option<DeptId>)
    | DepartmentUpdated(tenantId: TenantId, dept: DeptId, changes: DepartmentChanges)
    | DepartmentDeactivated(tenantId: TenantId, dept: DeptId, name: string)
    | EmployeeCreated(tenantId: TenantId, employee: EmployeeId, userId: UserId, departmentId: Option<DeptId>)
    | EmployeeUpdated(tenantId: TenantId, employee: EmployeeId, department: Option<Change<Option<DeptId>>>)
    | EmployeeStatusChanged(tenantId: TenantId, employee: EmployeeId, previousStatus: EmployeeStatus,
                            newStatus: EmployeeStatus, terminationDate: Option<Date>)

  datatype Org = Org(depts: Departments, emps: Employees, log: seq<Event>)

  /** A field of an update: left out of the request, or given a value. */
  datatype Patch<T> = Keep | Set(value: T)

  datatype Request =
    | CreateDepartment(dept: DeptId, name: string, nameTaken: bool, parentId: Option<DeptId>)
    | UpdateDepartment(dept: DeptId, newName: Patch<string>, nameTaken: bool, newParent: Patch<Option<DeptId>>)
    | AssignManager(dept: DeptId, manager: EmployeeId)
    | RemoveManager(dept: DeptId)
    | DeactivateDepartment(dept: DeptId)
    | ReactivateDepartment(dept: DeptId)
    | CreateEmployee(employee: EmployeeId, userId: UserId, numberTaken: bool, departmentId: Option<DeptId>, timezoneOk: bool)
    | UpdateEmployee(employee: EmployeeId, profileChanges: bool, timezoneOk: bool, newDepartment: Patch<Option<DeptId>>)
    | ChangeStatus(employee: EmployeeId, status: EmployeeStatus, date: Option<Date>, today: Date)

  datatype Error =
    | NotFound
    | AlreadyExists
    | NotPermitted
    | CircularReference
    | HasActiveChildren(count: nat)
    | HasActiveEmployees(count: nat)
    | EmployeeNotActive
    | EmployeeTerminated
    | InvalidTransition
    | NumberTaken
    | UserAlreadyEmployed

  datatype Reply = Accepted | Rejected(error: Error)

  function Init(): Org {
    Org(map[], map[], [])
  }

  // ----- reading the tables -----------------------------------------------------

  predicate HasDept(s: Org, t: TenantId, id: DeptId) {
    id in s.depts && s.depts[id].tenantId == t
  }

  predicate HasEmployee(s: Org, t: TenantId, id: EmployeeId) {
    id in s.emps && s.emps[id].tenantId == t
  }

  predicate DepartmentValid(s: Org, t: TenantId, id: DeptId) {
    HasDept(s, t, id) && s.depts[id].isActive
  }

  predicate MayManage(status: EmployeeStatus) {
    status != Terminated && status != Suspended
  }

  predicate EmployeeActive(s: Org, t: TenantId, id: EmployeeId) {
    HasEmployee(s, t, id) && MayManage(s.emps[id].status)
  }

  function Staff(emps: Employees, t: TenantId, id: DeptId): set<EmployeeId> {
    set e | e in emps && emps[e].tenantId == t && emps[e].departmentId == Some(id) && emps[e].status != Terminated
  }

  predicate UserEmployed(s: Org, t: TenantId, u: UserId) {
    exists e :: e in s.emps && s.emps[e].tenantId == t && s.emps[e].userId == u
  }

  function ValidTransitions(status: EmployeeStatus): set<EmployeeStatus> {
    match status
    case Active => {OnProbation, OnLeave, Suspended, Terminated}
    case OnProbation => {Active, Terminated}
    case OnLeave => {Active, Terminated}
    case Suspended => {Active, Terminated}
    case Terminated => {}
  }

  // ----- the requests --------------------------------------------------------------

  const NO_CHANGES := DepartmentChanges(None, None, None, None)

  function Refuse(s: Org, e: Error): (Org, Reply) {
    (s, Rejected(e))
  }

  function Store(s: Org, id: DeptId, row: Department, e: Event): (Org, Reply) {
    (s.(depts := s.depts[id := row], log := s.log + [e]), Accepted)
  }

  function HandleCreateDepartment(s: Org, t: TenantId, id: DeptId, name: string, nameTaken: bool,
                                  parentId: Option<DeptId>): (Org, Reply) {
    if nameTaken then Refuse(s, AlreadyExists)
    else if parentId.Some? && !HasDept(s, t, parentId.value) then Refuse(s, NotFound)
    else if parentId.Some? && !s.depts[parentId.value].isActive then Refuse(s, NotPermitted)
    else Store(s, id, Department(t, name, parentId, None, true), DepartmentCreated(t, id, name, parentId))
  }

  /** Why the parent of `id` may not become `p`, if there is a reason. */
  ghost function ParentError(s: Org, t: TenantId, id: DeptId, p: DeptId): Option<Error> {
    if !HasDept(s, t, p) then Some(NotFound)
    else if !s.depts[p].isActive then Some(NotPermitted)
    else if Descendant(OfTenant(s.depts, t), id, p) then Some(CircularReference)
    else None
  }

  ghost function HandleUpdateDepartment(s: Org, t: TenantId, id: DeptId, newName: Patch<string>, nameTaken: bool,
                                        newParent: Patch<Option<DeptId>>): (Org, Reply) {
    if !HasDept(s, t, id) then Refuse(s, NotFound)
    else
      var dept := s.depts[id];
      var renames := newName.Set? && newName.value != dept.name;
      var moves := newParent.Set? && newParent.value != dept.parentId;
      if renames && nameTaken then Refuse(s, AlreadyExists)
      else if moves && newParent.value.Some? && ParentError(s, t, id, newParent.value.value).Some? then
        Refuse(s, ParentError(s, t, id, newParent.value.value).value)
      else if !renames && !moves then (s, Accepted)
      else
        Store(s, id,
              dept.(name := if renames then newName.value else dept.name,
                    parentId := if moves then newParent.value else dept.parentId),
              DepartmentUpdated(t, id, NO_CHANGES.(
                name := if renames then Some(Change(dept.name, newName.value)) else None,
                parentId := if moves then Some(Change(dept.parentId, newParent.value)) else None)))
  }

  /** The service stores the reference; that the employee is active is the controller's check. */
  function StoreManager(s: Org, t: TenantId, id: DeptId, manager: EmployeeId): (Org, Reply) {
    if !HasDept(s, t, id) then Refuse(s, NotFound)
    else if !s.depts[id].isActive then Refuse(s, NotPermitted)
    else
      Store(s, id, s.depts[id].(managerEmployeeId := Some(manager)),
            DepartmentUpdated(t, id, NO_CHANGES.(
              managerEmployeeId := Some(Change(s.depts[id].managerEmployeeId, Some(manager))))))
  }

  function HandleAssignManager(s: Org, t: TenantId, id: DeptId, manager: EmployeeId): (Org, Reply) {
    if !EmployeeActive(s, t, manager) then Refuse(s, EmployeeNotActive) else StoreManager(s, t, id, manager)
  }

  function HandleRemoveManager(s: Org, t: TenantId, id: DeptId): (Org, Reply) {
    if !HasDept(s, t, id) then Refuse(s, NotFound)
    else if s.depts[id].managerEmployeeId.None? then (s, Accepted)
    else
      Store(s, id, s.depts[id].(managerEmployeeId := None),
            DepartmentUpdated(t, id, NO_CHANGES.(
              managerEmployeeId := Some(Change(s.depts[id].managerEmployeeId, None)))))
  }

  /** The service is given the number of employees; counting them is the controller's part. */
  function DeactivateGiven(s: Org, t: TenantId, id: DeptId, employees: nat): (Org, Reply) {
    if !HasDept(s, t, id) then Refuse(s, NotFound)
    else if !s.depts[id].isActive then Refuse(s, NotPermitted)
    else if |ActiveChildren(s.depts, t, id)| > 0 then Refuse(s, HasActiveChildren(|ActiveChildren(s.depts, t, id)|))
    else if employees > 0 then Refuse(s, HasActiveEmployees(employees))
    else
      Store(s, id, s.depts[id].(isActive := false, managerEmployeeId := None),
            DepartmentDeactivated(t, id, s.depts[id].name))
  }

  function HandleDeactivate(s: Org, t: TenantId, id: DeptId): (Org, Reply) {
    DeactivateGiven(s, t, id, |Staff(s.emps, t, id)|)
  }

  function HandleReactivate(s: Org, t: TenantId, id: DeptId): (Org, Reply) {
    if !HasDept(s, t, id) then Refuse(s, NotFound)
    else if s.depts[id].isActive then Refuse(s, NotPermitted)
    else if s.depts[id].parentId.Some? && !DepartmentValid(s, t, s.depts[id].parentId.value) then Refuse(s, NotPermitted)
    else
      Store(s, id, s.depts[id].(isActive := true),
            DepartmentUpdated(t, id, NO_CHANGES.(isActive := Some(Change(false, true)))))
  }

  function HandleCreateEmployee(s: Org, t: TenantId, id: EmployeeId, userId: UserId, numberTaken: bool,
                                departmentId: Option<DeptId>, timezoneOk: bool): (Org, Reply) {
    if numberTaken then Refuse(s, NumberTaken)
    else if UserEmployed(s, t, userId) then Refuse(s, UserAlreadyEmployed)
    else if departmentId.Some? && !DepartmentValid(s, t, departmentId.value) then Refuse(s, NotFound)
    else if !timezoneOk then Refuse(s, NotPermitted)
    else
      (s.(emps := s.emps[id := Employee(t, userId, departmentId, Active, None)],
          log := s.log + [EmployeeCreated(t, id, userId, departmentId)]), Accepted)
  }

  function HandleUpdateEmployee(s: Org, t: TenantId, id: EmployeeId, profileChanges: bool, timezoneOk: bool,
                                newDepartment: Patch<Option<DeptId>>): (Org, Reply) {
    if !HasEmployee(s, t, id) then Refuse(s, NotFound)
    else if s.emps[id].status == Terminated then Refuse(s, EmployeeTerminated)
    else if !timezoneOk then Refuse(s, NotPermitted)
    else
      var old' := s.emps[id].departmentId;
      var moves := newDepartment.Set? && newDepartment.value != old';
      if moves && newDepartment.value.Some? && !DepartmentValid(s, t, newDepartment.value.value) then Refuse(s, NotFound)
      else if !moves && !profileChanges then (s, Accepted)
      else
        (s.(emps := s.emps[id := s.emps[id].(departmentId := if moves then newDepartment.value else old')],
            log := s.log + [EmployeeUpdated(t, id, if moves then Some(Change(old', newDepartment.value)) else None)]), Accepted)
  }

  /** Suspension and termination silently take the employee off every department managed. */
  function HandleChangeStatus(s: Org, t: TenantId, id: EmployeeId, status: EmployeeStatus, date: Option<Date>,
                              today: Date): (Org, Reply) {
    if !HasEmployee(s, t, id) then Refuse(s, NotFound)
    else if status !in ValidTransitions(s.emps[id].status) then Refuse(s, InvalidTransition)
    else
      var e := s.emps[id];
      var ends := if status == Terminated then Some(if date.Some? then date.value else today) else None;
      (Org(if MayManage(status) then s.depts else WithoutManager(s.depts, t, id),
           s.emps[id := e.(status := status, terminationDate := if ends.Some? then ends else e.terminationDate)],
           s.log + [EmployeeStatusChanged(t, id, e.status, status, ends)]), Accepted)
  }

  ghost function Handle(s: Org, t: TenantId, r: Request): (Org, Reply) {
    match r
    case CreateDepartment(id, name, taken, parentId) => HandleCreateDepartment(s, t, id, name, taken, parentId)
    case UpdateDepartment(id, name, taken, parentId) => HandleUpdateDepartment(s, t, id, name, taken, parentId)
    case AssignManager(id, m) => HandleAssignManager(s, t, id, m)
    case RemoveManager(id) => HandleRemoveManager(s, t, id)
    case DeactivateDepartment(id) => HandleDeactivate(s, t, id)
    case ReactivateDepartment(id) => HandleReactivate(s, t, id)
    case CreateEmployee(id, u, taken, dept, tz) => HandleCreateEmployee(s, t, id, u, taken, dept, tz)
    case UpdateEmployee(id, p, tz, dept) => HandleUpdateEmployee(s, t, id, p, tz, dept)
    case ChangeStatus(id, status, date, today) => HandleChangeStatus(s, t, id, status, date, today)
  }

  /** Ids of new rows have not been used. */
  predicate FreshIds(s: Org, r: Request) {
    && (r.CreateDepartment? ==> r.dept !in s.depts)
    && (r.CreateEmployee? ==> r.employee !in s.emps)
  }

  // ----- runs ------------------------------------------------------------------------

  datatype Call = Call(tenant: TenantId, request: Request)

  ghost predicate Legal(run: seq<Call>)
    decreases |run|, 0
  {
    run == [] || (Legal(run[..|run| - 1]) && FreshIds(After(run[..|run| - 1]), run[|run| - 1].request))
  }

  ghost function After(run: seq<Call>): Org
    requires Legal(run)
    decreases |run|, 1
  {
    if run == [] then Init()
    else Handle(After(run[..|run| - 1]), run[|run| - 1].tenant, run[|run| - 1].request).0
  }
}
