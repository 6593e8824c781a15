/** The department and employee services, as objects over the two tables and the event bus. */
module OrganisationServices {
  import opened Wrappers
  import opened Sequences
  import opened DepartmentForest
  import opened DepartmentRepository
  import opened DepartmentTree
  import opened Organisation
  import opened OrganisationInvariants
  import opened OrganisationEffects

  class EventBus {
    var events: seq<Event>

    constructor ()
      ensures events == []
    {
      events := [];
    }

    method EmitAsync(e: Event)
      modifies this
      ensures events == old(events) + [e]
    {
      events := events + [e];
    }
  }

  class EmployeeRepo {
    var employees: Employees

    constructor ()
      ensures employees == map[]
    {
      employees := map[];
    }

    method Create(id: EmployeeId, row: Employee)
      requires id !in employees
      modifies this
      ensures employees == old(employees)[id := row]
    {
      employees := employees[id := row];
    }

    method FindById(id: EmployeeId, tenantId: TenantId) returns (row: Option<Employee>)
      ensures row == if id in employees && employees[id].tenantId == tenantId then Some(employees[id]) else None
    {
      if id in employees && employees[id].tenantId == tenantId {
        return Some(employees[id]);
      }
      row := None;
    }

    method FindByUserId(userId: UserId, tenantId: TenantId) returns (found: bool)
      ensures found <==> exists e :: e in employees && employees[e].tenantId == tenantId && employees[e].userId == userId
    {
      found := exists e :: e in employees && employees[e].tenantId == tenantId && employees[e].userId == userId;
    }

    method CountActiveByDepartment(departmentId: DeptId, tenantId: TenantId) returns (n: nat)
      ensures n == |Staff(employees, tenantId, departmentId)|
    {
      var rows := set e | e in employees && employees[e].tenantId == tenantId
                        && employees[e].departmentId == Some(departmentId) && employees[e].status != Terminated;
      assert rows == Staff(employees, tenantId, departmentId);
      n := |rows|;
    }

    /** The row is addressed by id and tenant; `None` when there is no such row. */
    method Update(id: EmployeeId, tenantId: TenantId, row: Employee) returns (updated: Option<Employee>)
      requires row.tenantId == tenantId
      modifies this
      ensures updated.Some? <==> id in old(employees) && old(employees)[id].tenantId == tenantId
      ensures updated.Some? ==> updated.value == row && employees == old(employees)[id := row]
      ensures updated.None? ==> employees == old(employees)
    {
      if id in employees && employees[id].tenantId == tenantId {
        employees := employees[id := row];
        return Some(row);
      }
      updated := None;
    }
  }

  ghost function StateOf(d: DepartmentRepo, e: EmployeeRepo, bus: EventBus): Org
    reads d, e, bus
  {
    Org(d.departments, e.employees, bus.events)
  }

  /** What the employee module lets others ask about employees. */
  class EmployeeFacade {
    const employeeRepo: EmployeeRepo

    constructor (employeeRepo: EmployeeRepo)
      ensures this.employeeRepo == employeeRepo
    {
      this.employeeRepo := employeeRepo;
    }

    method IsEmployeeActive(id: EmployeeId, t: TenantId) returns (active: bool)
      ensures active <==> id in employeeRepo.employees && employeeRepo.employees[id].tenantId == t
                          && MayManage(employeeRepo.employees[id].status)
    {
      var employee := employeeRepo.FindById(id, t);
      if employee.None? {
        return false;
      }
      active := employee.value.status != Terminated && employee.value.status != Suspended;
    }

    method CountActiveInDepartment(departmentId: DeptId, t: TenantId) returns (n: nat)
      ensures n == |Staff(employeeRepo.employees, t, departmentId)|
    {
      n := employeeRepo.CountActiveByDepartment(departmentId, t);
    }
  }

  /** What the department module lets others ask and do. */
  class DepartmentFacade {
    const departmentRepo: DepartmentRepo

    constructor (departmentRepo: DepartmentRepo)
      ensures this.departmentRepo == departmentRepo
    {
      this.departmentRepo := departmentRepo;
    }

    method IsDepartmentValid(id: DeptId, t: TenantId) returns (valid: bool)
      ensures valid <==> id in departmentRepo.departments && departmentRepo.departments[id].tenantId == t
                         && departmentRepo.departments[id].isActive
    {
      var dept := departmentRepo.FindById(id, t);
      valid := dept.Some? && dept.value.isActive;
    }

    method ClearEmployeeAsManager(id: EmployeeId, t: TenantId)
      modifies departmentRepo
      ensures departmentRepo.departments == WithoutManager(old(departmentRepo.departments), t, id)
    {
      departmentRepo.ClearManager(id, t);
    }

    /** On every table the requests can lead to, see InvGivesParents. For an id the tenant does
      * not have the answer is that id alone. */
    method GetDepartmentSubtreeIds(id: DeptId, t: TenantId) returns (ids: seq<DeptId>)
      requires Acyclic(departmentRepo.departments) && ParentsExist(departmentRepo.departments)
      ensures id in OfTenant(departmentRepo.departments, t) ==>
                Distinct(ids) && forall x :: x in ids <==> Descendant(departmentRepo.departments, id, x)
      ensures id !in OfTenant(departmentRepo.departments, t) ==> ids == [id]
    {
      TenantAcyclic(departmentRepo.departments, t);
      ids := departmentRepo.FindSubtreeIds(id, t);
      if id in OfTenant(departmentRepo.departments, t) {
        forall x
          ensures x in ids <==> Descendant(departmentRepo.departments, id, x)
        {
          TenantSubtree(departmentRepo.departments, t, id, x);
        }
      } else {
        ForeignSubtree(departmentRepo.departments, t, id, ids);
      }
    }
  }

  lemma ForeignSubtree(d: Departments, t: TenantId, id: DeptId, ids: seq<DeptId>)
    requires ParentsExist(d) && id !in OfTenant(d, t) && Distinct(ids)
    requires forall x :: x in ids <==> Descendant(OfTenant(d, t), id, x)
    ensures ids == [id]
  {
    forall x
      ensures Descendant(OfTenant(d, t), id, x) <==> x == id
    {
      NothingBelowForeign(d, t, id, x);
    }
    assert id in ids;
    DistinctLength(ids, {id});
  }

  lemma NothingBelowForeign(d: Departments, t: TenantId, id: DeptId, x: DeptId)
    requires ParentsExist(d) && id !in OfTenant(d, t)
    ensures Descendant(OfTenant(d, t), id, x) <==> x == id
  {
    DescendantOfChild(OfTenant(d, t), id, x);
    if Descendant(OfTenant(d, t), id, x) && x != id {
      var n: nat :| Up(OfTenant(d, t), x, n) == Some(id);
      StaysInTenant(d, t, x, n);
    }
  }

  lemma {:induction false} StaysInTenant(d: Departments, t: TenantId, x: DeptId, n: nat)
    requires ParentsExist(d)
    ensures var up := Up(OfTenant(d, t), x, n); up.Some? && up != Some(x) ==> up.value in OfTenant(d, t)
    decreases n
  {
    if n > 0 && x in OfTenant(d, t) && d[x].parentId.Some? {
      StaysInTenant(d, t, d[x].parentId.value, n - 1);
    }
  }

  /** `staff` is named in contracts only: the service never looks at employees. */
  class DepartmentService {
    const departmentRepo: DepartmentRepo
    const eventBus: EventBus
    ghost const staff: EmployeeRepo

    constructor (departmentRepo: DepartmentRepo, eventBus: EventBus, ghost staff: EmployeeRepo)
      ensures this.departmentRepo == departmentRepo && this.eventBus == eventBus && this.staff == staff
    {
      this.departmentRepo := departmentRepo;
      this.eventBus := eventBus;
      this.staff := staff;
    }

    ghost function State(): Org
      reads departmentRepo, eventBus, staff
    {
      StateOf(departmentRepo, staff, eventBus)
    }

    method ValidateParentDepartment(parentId: DeptId, t: TenantId) returns (error: Option<Error>)
      ensures error ==
        if !HasDept(State(), t, parentId) then Some(NotFound)
        else if !departmentRepo.departments[parentId].isActive then Some(NotPermitted)
        else None
    {
      var parent := departmentRepo.FindById(parentId, t);
      if parent.None? {
        return Some(NotFound);
      }
      if !parent.value.isActive {
        return Some(NotPermitted);
      }
      error := None;
    }

    method CreateDepartment(t: TenantId, id: DeptId, name: string, nameTaken: bool,
                            parentId: Option<DeptId>) returns (reply: Reply)
      requires Inv(State()) && id !in departmentRepo.departments
      modifies departmentRepo, eventBus
      ensures (State(), reply) == HandleCreateDepartment(old(State()), t, id, name, nameTaken, parentId)
      ensures Served(old(State()), t, Request.CreateDepartment(id, name, nameTaken, parentId), State(), reply)
      ensures Inv(State())
    {
      CreateDepartmentKeepsInv(State(), t, id, name, nameTaken, parentId);
      RequestIsServed(State(), t, Request.CreateDepartment(id, name, nameTaken, parentId));
      if nameTaken {
        return Rejected(AlreadyExists);
      }
      if parentId.Some? {
        var error := ValidateParentDepartment(parentId.value, t);
        if error.Some? {
          return Rejected(error.value);
        }
      }
      departmentRepo.Create(id, Department(t, name, parentId, None, true));
      eventBus.EmitAsync(DepartmentCreated(t, id, name, parentId));
      reply := Accepted;
    }

    /** The part of the update that looks at the new parent. */
    method ValidateNewParent(id: DeptId, newParentId: DeptId, t: TenantId) returns (error: Option<Error>)
      requires Inv(State())
      ensures error == ParentError(State(), t, id, newParentId)
    {
      InvGivesParents(State());
      TenantAcyclic(departmentRepo.departments, t);
      error := ValidateParentDepartment(newParentId, t);
      if error.Some? {
        return;
      }
      DescendantOfChild(OfTenant(departmentRepo.departments, t), id, id);
      if newParentId == id {
        return Some(CircularReference);
      }
      var subtreeIds := departmentRepo.FindSubtreeIds(id, t);
      if newParentId in subtreeIds {
        return Some(CircularReference);
      }
    }

    method UpdateDepartment(t: TenantId, id: DeptId, newName: Patch<string>, nameTaken: bool,
                            newParent: Patch<Option<DeptId>>) returns (reply: Reply)
      requires Inv(State())
      modifies departmentRepo, eventBus
      ensures (State(), reply) == HandleUpdateDepartment(old(State()), t, id, newName, nameTaken, newParent)
      ensures Served(old(State()), t, Request.UpdateDepartment(id, newName, nameTaken, newParent), State(), reply)
      ensures Inv(State())
    {
      UpdateDepartmentKeepsInv(State(), t, id, newName, nameTaken, newParent);
      RequestIsServed(State(), t, Request.UpdateDepartment(id, newName, nameTaken, newParent));
      var found := departmentRepo.FindById(id, t);
      if found.None? {
        return Rejected(NotFound);
      }
      var dept := found.value;
      var updateData := dept;
      var changes := NO_CHANGES;

      if newName.Set? && newName.value != dept.name {
        if nameTaken {
          return Rejected(AlreadyExists);
        }
        updateData := updateData.(name := newName.value);
        changes := changes.(name := Some(Change(dept.name, newName.value)));
      }

      if newParent.Set? && newParent.value != dept.parentId {
        if newParent.value.Some? {
          var error := ValidateNewParent(id, newParent.value.value, t);
          if error.Some? {
            return Rejected(error.value);
          }
        }
        updateData := updateData.(parentId := newParent.value);
        changes := changes.(parentId := Some(Change(dept.parentId, newParent.value)));
      }

      if changes == NO_CHANGES {
        return Accepted;
      }
      var updated := departmentRepo.Update(id, t, updateData);
      eventBus.EmitAsync(DepartmentUpdated(t, id, changes));
      reply := Accepted;
    }

    method AssignManager(t: TenantId, id: DeptId, manager: EmployeeId) returns (reply: Reply)
      modifies departmentRepo, eventBus
      ensures (State(), reply) == StoreManager(old(State()), t, id, manager)
    {
      var dept := departmentRepo.FindById(id, t);
      if dept.None? {
        return Rejected(NotFound);
      }
      if !dept.value.isActive {
        return Rejected(NotPermitted);
      }
      var updated := departmentRepo.Update(id, t, dept.value.(managerEmployeeId := Some(manager)));
      eventBus.EmitAsync(DepartmentUpdated(t, id,
        NO_CHANGES.(managerEmployeeId := Some(Change(dept.value.managerEmployeeId, Some(manager))))));
      reply := Accepted;
    }

    method RemoveManager(t: TenantId, id: DeptId) returns (reply: Reply)
      requires Inv(State())
      modifies departmentRepo, eventBus
      ensures (State(), reply) == HandleRemoveManager(old(State()), t, id)
      ensures Served(old(State()), t, Request.RemoveManager(id), State(), reply)
      ensures Inv(State())
    {
      ManagerRequestsKeepInv(State(), t, id, 0);
      RequestIsServed(State(), t, Request.RemoveManager(id));
      var dept := departmentRepo.FindById(id, t);
      if dept.None? {
        return Rejected(NotFound);
      }
      if dept.value.managerEmployeeId.None? {
        return Accepted;
      }
      var updated := departmentRepo.Update(id, t, dept.value.(managerEmployeeId := None));
      eventBus.EmitAsync(DepartmentUpdated(t, id,
        NO_CHANGES.(managerEmployeeId := Some(Change(dept.value.managerEmployeeId, None)))));
      reply := Accepted;
    }

    method DeactivateDepartment(t: TenantId, id: DeptId, activeEmployeeCount: nat) returns (reply: Reply)
      modifies departmentRepo, eventBus
      ensures (State(), reply) == DeactivateGiven(old(State()), t, id, activeEmployeeCount)
    {
      var dept := departmentRepo.FindById(id, t);
      if dept.None? {
        return Rejected(NotFound);
      }
      if !dept.value.isActive {
        return Rejected(NotPermitted);
      }
      var activeChildCount := departmentRepo.CountActiveChildren(id, t);
      if activeChildCount > 0 {
        return Rejected(HasActiveChildren(activeChildCount));
      }
      if activeEmployeeCount > 0 {
        return Rejected(HasActiveEmployees(activeEmployeeCount));
      }
      var updated := departmentRepo.Update(id, t, dept.value.(isActive := false, managerEmployeeId := None));
      eventBus.EmitAsync(DepartmentDeactivated(t, id, dept.value.name));
      reply := Accepted;
    }

    method ReactivateDepartment(t: TenantId, id: DeptId) returns (reply: Reply)
      requires Inv(State())
      modifies departmentRepo, eventBus
      ensures (State(), reply) == HandleReactivate(old(State()), t, id)
      ensures Served(old(State()), t, Request.ReactivateDepartment(id), State(), reply)
      ensures Inv(State())
    {
      ActivationRequestsKeepInv(State(), t, id);
      RequestIsServed(State(), t, Request.ReactivateDepartment(id));
      var dept := departmentRepo.FindById(id, t);
      if dept.None? {
        return Rejected(NotFound);
      }
      if dept.value.isActive {
        return Rejected(NotPermitted);
      }
      if dept.value.parentId.Some? {
        var parent := departmentRepo.FindById(dept.value.parentId.value, t);
        if parent.None? || !parent.value.isActive {
          return Rejected(NotPermitted);
        }
      }
      var updated := departmentRepo.Update(id, t, dept.value.(isActive := true));
      eventBus.EmitAsync(DepartmentUpdated(t, id, NO_CHANGES.(isActive := Some(Change(false, true)))));
      reply := Accepted;
    }

    /** The tree endpoint shows every department of the tenant exactly once, each under its own
      * parent, in the order of the list it was built from. */
    method GetDepartmentTree(t: TenantId) returns (tree: seq<Node>, all: seq<Listed>)
      requires Inv(State())
      ensures Lists(all, OfTenant(departmentRepo.departments, t))
      ensures Mirrors(tree, all, None)
      ensures multiset(Flatten(tree)) == multiset(Ids(all))
    {
      InvGivesParents(State());
      TenantAcyclic(departmentRepo.departments, t);
      all := departmentRepo.FindAllForTenant(t);
      ListsTable(all, OfTenant(departmentRepo.departments, t));
      tree := BuildTree(all, None);
      BuildTreeIsTheMirror(all, None, tree);
      TreeIsPermutation(all);
    }
  }

  lemma ListsTable(all: seq<Listed>, d: Departments)
    requires Lists(all, d)
    ensures Table(all) == d
  {
    forall id | id in d
      ensures id in Table(all)
    {
      var k :| 0 <= k < |all| && all[k].id == id;
      assert all[k] in all;
    }
  }

  class DepartmentController {
    const departmentService: DepartmentService
    const employeeFacade: EmployeeFacade

    constructor (departmentService: DepartmentService, employeeFacade: EmployeeFacade)
      requires departmentService.staff == employeeFacade.employeeRepo
      ensures this.departmentService == departmentService && this.employeeFacade == employeeFacade
    {
      this.departmentService := departmentService;
      this.employeeFacade := employeeFacade;
    }

    method AssignManager(t: TenantId, id: DeptId, manager: EmployeeId) returns (reply: Reply)
      requires departmentService.staff == employeeFacade.employeeRepo && Inv(departmentService.State())
      modifies departmentService.departmentRepo, departmentService.eventBus
      ensures (departmentService.State(), reply) == HandleAssignManager(old(departmentService.State()), t, id, manager)
      ensures Served(old(departmentService.State()), t, Request.AssignManager(id, manager), departmentService.State(), reply)
      ensures Inv(departmentService.State())
    {
      ManagerRequestsKeepInv(departmentService.State(), t, id, manager);
      RequestIsServed(departmentService.State(), t, Request.AssignManager(id, manager));
      var isActive := employeeFacade.IsEmployeeActive(manager, t);
      if !isActive {
        return Rejected(EmployeeNotActive);
      }
      reply := departmentService.AssignManager(t, id, manager);
    }

    method DeactivateDepartment(t: TenantId, id: DeptId) returns (reply: Reply)
      requires departmentService.staff == employeeFacade.employeeRepo && Inv(departmentService.State())
      modifies departmentService.departmentRepo, departmentService.eventBus
      ensures (departmentService.State(), reply) == HandleDeactivate(old(departmentService.State()), t, id)
      ensures Served(old(departmentService.State()), t, Request.DeactivateDepartment(id), departmentService.State(), reply)
      ensures Inv(departmentService.State())
    {
      ActivationRequestsKeepInv(departmentService.State(), t, id);
      RequestIsServed(departmentService.State(), t, Request.DeactivateDepartment(id));
      var activeEmployeeCount := employeeFacade.CountActiveInDepartment(id, t);
      reply := departmentService.DeactivateDepartment(t, id, activeEmployeeCount);
    }
  }

  class EmployeeService {
    const employeeRepo: EmployeeRepo
    const departmentFacade: DepartmentFacade
    const eventBus: EventBus

    constructor (employeeRepo: EmployeeRepo, departmentFacade: DepartmentFacade, eventBus: EventBus)
      ensures this.employeeRepo == employeeRepo && this.departmentFacade == departmentFacade && this.eventBus == eventBus
    {
      this.employeeRepo := employeeRepo;
      this.departmentFacade := departmentFacade;
      this.eventBus := eventBus;
    }

    ghost function State(): Org
      reads departmentFacade.departmentRepo, eventBus, employeeRepo
    {
      StateOf(departmentFacade.departmentRepo, employeeRepo, eventBus)
    }

    method CreateEmployee(t: TenantId, id: EmployeeId, userId: UserId, numberTaken: bool,
                          departmentId: Option<DeptId>, timezoneOk: bool) returns (reply: Reply)
      requires Inv(State()) && id !in employeeRepo.employees
      modifies employeeRepo, eventBus
      ensures (State(), reply) == HandleCreateEmployee(old(State()), t, id, userId, numberTaken, departmentId, timezoneOk)
      ensures Served(old(State()), t, Request.CreateEmployee(id, userId, numberTaken, departmentId, timezoneOk), State(), reply)
      ensures Inv(State())
    {
      CreateEmployeeKeepsInv(State(), t, id, userId, numberTaken, departmentId, timezoneOk);
      RequestIsServed(State(), t, Request.CreateEmployee(id, userId, numberTaken, departmentId, timezoneOk));
      if numberTaken {
        return Rejected(NumberTaken);
      }
      var existingProfile := employeeRepo.FindByUserId(userId, t);
      if existingProfile {
        return Rejected(UserAlreadyEmployed);
      }
      if departmentId.Some? {
        var deptValid := departmentFacade.IsDepartmentValid(departmentId.value, t);
        if !deptValid {
          return Rejected(NotFound);
        }
      }
      if !timezoneOk {
        return Rejected(NotPermitted);
      }
      employeeRepo.Create(id, Employee(t, userId, departmentId, Active, None));
      eventBus.EmitAsync(EmployeeCreated(t, id, userId, departmentId));
      reply := Accepted;
    }

    method UpdateEmployee(t: TenantId, id: EmployeeId, profileChanges: bool, timezoneOk: bool,
                          newDepartment: Patch<Option<DeptId>>) returns (reply: Reply)
      requires Inv(State())
      modifies employeeRepo, eventBus
      ensures (State(), reply) == HandleUpdateEmployee(old(State()), t, id, profileChanges, timezoneOk, newDepartment)
      ensures Served(old(State()), t, Request.UpdateEmployee(id, profileChanges, timezoneOk, newDepartment), State(), reply)
      ensures Inv(State())
    {
      UpdateEmployeeKeepsInv(State(), t, id, profileChanges, timezoneOk, newDepartment);
      RequestIsServed(State(), t, Request.UpdateEmployee(id, profileChanges, timezoneOk, newDepartment));
      var found := employeeRepo.FindById(id, t);
      if found.None? {
        return Rejected(NotFound);
      }
      var employee := found.value;
      if employee.status == Terminated {
        return Rejected(EmployeeTerminated);
      }
      if !timezoneOk {
        return Rejected(NotPermitted);
      }
      var updateData := employee;
      var change: Option<Change<Option<DeptId>>> := None;
      if newDepartment.Set? && newDepartment.value != employee.departmentId {
        if newDepartment.value.Some? {
          var valid := departmentFacade.IsDepartmentValid(newDepartment.value.value, t);
          if !valid {
            return Rejected(NotFound);
          }
        }
        updateData := updateData.(departmentId := newDepartment.value);
        change := Some(Change(employee.departmentId, newDepartment.value));
      }
      if change.None? && !profileChanges {
        return Accepted;
      }
      var updated := employeeRepo.Update(id, t, updateData);
      eventBus.EmitAsync(EmployeeUpdated(t, id, change));
      reply := Accepted;
    }

    method ChangeStatus(t: TenantId, id: EmployeeId, newStatus: EmployeeStatus, date: Option<Date>,
                        today: Date) returns (reply: Reply)
      requires Inv(State())
      modifies employeeRepo, departmentFacade.departmentRepo, eventBus
      ensures (State(), reply) == HandleChangeStatus(old(State()), t, id, newStatus, date, today)
      ensures Served(old(State()), t, Request.ChangeStatus(id, newStatus, date, today), State(), reply)
      ensures Inv(State())
    {
      ChangeStatusKeepsInv(State(), t, id, newStatus, date, today);
      RequestIsServed(State(), t, Request.ChangeStatus(id, newStatus, date, today));
      var found := employeeRepo.FindById(id, t);
      if found.None? {
        return Rejected(NotFound);
      }
      var employee := found.value;
      if newStatus !in ValidTransitions(employee.status) {
        return Rejected(InvalidTransition);
      }
      var updateData := employee.(status := newStatus);
      var terminationDate: Option<Date> := None;
      if newStatus == Terminated {
        terminationDate := Some(if date.Some? then date.value else today);
      }
      if terminationDate.Some? {
        updateData := updateData.(terminationDate := terminationDate);
      }
      var updated := employeeRepo.Update(id, t, updateData);
      if newStatus == Terminated || newStatus == Suspended {
        departmentFacade.ClearEmployeeAsManager(id, t);
      }
      eventBus.EmitAsync(EmployeeStatusChanged(t, id, employee.status, newStatus, terminationDate));
      reply := Accepted;
    }
  }
}
