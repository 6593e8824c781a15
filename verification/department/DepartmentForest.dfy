/** The department table and the parent relation it stores. Nothing but application code keeps
  * the relation free of cycles, so no lemma here assumes more than it names.
  */
module DepartmentForest {
  import opened Wrappers
  import opened Sequences

  type DeptId = nat
  type TenantId = nat
  type EmployeeId = nat

  datatype Department = Department(
    tenantId: TenantId,
    name: string,
    parentId: Option<DeptId>,
    managerEmployeeId: Option<EmployeeId>,
    isActive: bool)

  type Departments = map<DeptId, Department>

  function Parent(d: Departments, x: DeptId): Option<DeptId> {
    if x in d then d[x].parentId else None
  }

  /** The `n`-th ancestor of `x`, itself for n == 0. */
  function Up(d: Departments, x: DeptId, n: nat): Option<DeptId>
    decreases n
  {
    if n == 0 then Some(x)
    else match Parent(d, x)
      case None => None
      case Some(p) => Up(d, p, n - 1)
  }

  /** `x` is `root` or lies below it. */
  ghost predicate Descendant(d: Departments, root: DeptId, x: DeptId) {
    exists n: nat :: Up(d, x, n) == Some(root)
  }

  ghost predicate OnCycle(d: Departments, x: DeptId) {
    exists n: nat :: n > 0 && Up(d, x, n) == Some(x)
  }

  ghost predicate Acyclic(d: Departments) {
    forall x :: !OnCycle(d, x)
  }

  /** Every parent reference leads to a row of the same tenant. */
  ghost predicate ParentsExist(d: Departments) {
    forall x :: x in d && d[x].parentId.Some? ==>
      d[x].parentId.value in d && d[d[x].parentId.value].tenantId == d[x].tenantId
  }

  // ----- walking up -----------------------------------------------------------

  lemma {:induction false} UpAdd(d: Departments, x: DeptId, m: nat, n: nat)
    ensures Up(d, x, m).Some? ==> Up(d, x, m + n) == Up(d, Up(d, x, m).value, n)
    ensures Up(d, x, m).None? ==> Up(d, x, m + n).None?
    decreases m
  {
    if m > 0 && Parent(d, x).Some? {
      UpAdd(d, Parent(d, x).value, m - 1, n);
    }
  }

  lemma DescendantOfChild(d: Departments, root: DeptId, x: DeptId)
    ensures Descendant(d, root, x) <==>
      x == root || (Parent(d, x).Some? && Descendant(d, root, Parent(d, x).value))
  {
    if Descendant(d, root, x) && x != root {
      var n: nat :| Up(d, x, n) == Some(root);
      assert Up(d, Parent(d, x).value, n - 1) == Some(root);
    }
    if x == root {
      assert Up(d, x, 0) == Some(root);
    }
    if Parent(d, x).Some? && Descendant(d, root, Parent(d, x).value) {
      var n: nat :| Up(d, Parent(d, x).value, n) == Some(root);
      assert Up(d, x, n + 1) == Some(root);
    }
  }

  lemma DescendantTransitive(d: Departments, x: DeptId, y: DeptId, z: DeptId)
    requires Descendant(d, x, y) && Descendant(d, y, z)
    ensures Descendant(d, x, z)
  {
    var m: nat :| Up(d, y, m) == Some(x);
    var n: nat :| Up(d, z, n) == Some(y);
    UpAdd(d, z, n, m);
  }

  /** Only on a cycle does a parent lie below its own child. */
  lemma ParentBelowMeansCycle(d: Departments, x: DeptId)
    requires Parent(d, x).Some? && Descendant(d, x, Parent(d, x).value)
    ensures OnCycle(d, x) && OnCycle(d, Parent(d, x).value)
  {
    var p := Parent(d, x).value;
    var n: nat :| Up(d, p, n) == Some(x);
    assert Up(d, x, n + 1) == Some(x);
    UpAdd(d, p, n, 1);
    assert Up(d, x, 1) == Some(p);
    assert Up(d, p, n + 1) == Some(p);
  }

  lemma ComesBack(d: Departments, x: DeptId, n: nat)
    ensures n > 0 && Up(d, x, n) == Some(x) ==> OnCycle(d, x)
  {
  }

  lemma SelfParentIsCycle(d: Departments, x: DeptId)
    ensures Parent(d, x) == Some(x) ==> OnCycle(d, x)
  {
    if Parent(d, x) == Some(x) {
      assert Up(d, x, 1) == Some(x);
    }
  }

  /** On a cycle one can climb for ever. */
  lemma {:induction false} CycleNeverEnds(d: Departments, x: DeptId, n: nat)
    requires OnCycle(d, x)
    ensures Up(d, x, n).Some? && OnCycle(d, Up(d, x, n).value)
    decreases n
  {
    if n > 0 {
      CycleNeverEnds(d, x, n - 1);
      UpAdd(d, x, n - 1, 1);
      ParentOnCycle(d, Up(d, x, n - 1).value);
      assert Up(d, Up(d, x, n - 1).value, 1) == Parent(d, Up(d, x, n - 1).value);
    }
  }

  lemma ParentOnCycle(d: Departments, x: DeptId)
    requires OnCycle(d, x)
    ensures Parent(d, x).Some? && OnCycle(d, Parent(d, x).value)
  {
    var n: nat :| n > 0 && Up(d, x, n) == Some(x);
    var p := Parent(d, x).value;
    UpAdd(d, p, n - 1, 1);
    assert Up(d, x, 1) == Some(p);
    assert Up(d, p, n) == Some(p);
  }

  /** Every department on a cycle has a child on it. */
  lemma CycleHasChild(d: Departments, x: DeptId) returns (c: DeptId)
    requires OnCycle(d, x)
    ensures c in d && d[c].parentId == Some(x) && OnCycle(d, c)
  {
    var n: nat :| n > 0 && Up(d, x, n) == Some(x);
    CycleNeverEnds(d, x, n - 1);
    c := Up(d, x, n - 1).value;
    UpAdd(d, x, n - 1, 1);
    assert Up(d, c, 1) == Some(x);
  }

  /** So there is a department any number of levels below it. */
  lemma {:induction false} CycleDescends(d: Departments, x: DeptId, n: nat) returns (c: DeptId)
    requires OnCycle(d, x)
    ensures Up(d, c, n) == Some(x) && OnCycle(d, c)
    decreases n
  {
    c := x;
    if n > 0 {
      var p := CycleDescends(d, x, n - 1);
      c := CycleHasChild(d, p);
    }
  }

  /** The walk of `n` steps up from `c`, without its end. */
  function Path(d: Departments, c: DeptId, n: nat): (path: seq<DeptId>)
    requires Up(d, c, n).Some?
    ensures |path| == n
    decreases n
  {
    if n == 0 then [] else [c] + Path(d, Parent(d, c).value, n - 1)
  }

  lemma {:induction false} PathAt(d: Departments, c: DeptId, n: nat, i: nat)
    requires Up(d, c, n).Some? && i < n
    ensures Up(d, c, i) == Some(Path(d, c, n)[i]) && Path(d, c, n)[i] in d
    decreases n
  {
    if i > 0 {
      PathAt(d, Parent(d, c).value, n - 1, i - 1);
    }
  }

  /** A walk that is longer than the table has rows ends on a cycle. */
  lemma LongWalkEndsOnCycle(d: Departments, c: DeptId, n: nat)
    requires Up(d, c, n).Some? && n > |d.Keys|
    ensures OnCycle(d, Up(d, c, n).value)
  {
    var path := Path(d, c, n);
    forall x | x in Elements(path)
      ensures x in d.Keys
    {
      var i: nat :| i < n && path[i] == x;
      PathAt(d, c, n, i);
    }
    if Distinct(path) {
      DistinctLength(path, d.Keys);
      assert false;
    }
    var i: nat, j: nat :| i < j < n && path[i] == path[j];
    PathAt(d, c, n, i);
    PathAt(d, c, n, j);
    UpAdd(d, c, i, j - i);
    UpAdd(d, c, i, n - i);
    ComesBack(d, path[i], j - i);
    CycleNeverEnds(d, path[i], n - i);
  }

  /** Some department lies `n` levels below `x`. */
  ghost predicate HasLevel(d: Departments, x: DeptId, n: nat) {
    exists c :: Up(d, c, n) == Some(x)
  }

  /** Following children down from `x` never ends if and only if `x` is on a cycle. */
  lemma DescentNeverEndsIff(d: Departments, x: DeptId)
    ensures (forall n: nat :: HasLevel(d, x, n)) <==> OnCycle(d, x)
  {
    if OnCycle(d, x) {
      forall n: nat
        ensures HasLevel(d, x, n)
      {
        var c := CycleDescends(d, x, n);
      }
    } else {
      if HasLevel(d, x, |d.Keys| + 1) {
        var c :| Up(d, c, |d.Keys| + 1) == Some(x);
        LongWalkEndsOnCycle(d, c, |d.Keys| + 1);
        assert false;
      }
    }
  }

  lemma ChildOffCycle(d: Departments, x: DeptId)
    requires Parent(d, x).None? || !OnCycle(d, Parent(d, x).value)
    ensures !OnCycle(d, x)
  {
    if OnCycle(d, x) {
      ParentOnCycle(d, x);
    }
  }

  // ----- changing one parent ---------------------------------------------------

  function Move(d: Departments, id: DeptId, parent: Option<DeptId>): Departments
    requires id in d
  {
    d[id := d[id].(parentId := parent)]
  }

  /** A walk in the moved table follows the old one until it meets `id`. */
  lemma {:induction false} WalkAfterMove(d: Departments, id: DeptId, parent: Option<DeptId>, x: DeptId, n: nat)
    requires id in d
    ensures Up(Move(d, id, parent), x, n) == Up(d, x, n) || Meets(d, x, id, n)
    decreases n
  {
    if x == id {
      if n > 0 {
        assert Up(d, x, 0) == Some(id);
      }
    } else if n > 0 && Parent(d, x).Some? {
      var p := Parent(d, x).value;
      assert Parent(Move(d, id, parent), x) == Some(p);
      WalkAfterMove(d, id, parent, p, n - 1);
      if Meets(d, p, id, n - 1) {
        var k: nat :| k < n - 1 && Up(d, p, k) == Some(id);
        assert Up(d, x, k + 1) == Some(id);
      }
    }
  }

  /** The walk from `x` gets to `id` in fewer than `n` steps. */
  ghost predicate Meets(d: Departments, x: DeptId, id: DeptId, n: nat) {
    exists k: nat :: k < n && Up(d, x, k) == Some(id)
  }

  /** Conversely the old table's walk is followed until it meets `id`. */
  lemma {:induction false} FirstMeeting(d: Departments, id: DeptId, parent: Option<DeptId>, x: DeptId, n: nat)
    requires id in d && Up(d, x, n) == Some(id)
    ensures exists k: nat :: k <= n && Up(Move(d, id, parent), x, k) == Some(id)
    decreases n
  {
    if x == id {
      assert Up(Move(d, id, parent), x, 0) == Some(id);
    } else {
      var p := Parent(d, x).value;
      FirstMeeting(d, id, parent, p, n - 1);
      var k: nat :| k <= n - 1 && Up(Move(d, id, parent), p, k) == Some(id);
      assert Up(Move(d, id, parent), x, k + 1) == Some(id);
    }
  }

  lemma MoveKeepsAcyclic(d: Departments, id: DeptId, parent: Option<DeptId>)
    requires id in d && Acyclic(d) && (parent.None? || !Descendant(d, id, parent.value))
    ensures Acyclic(Move(d, id, parent))
  {
    var d' := Move(d, id, parent);
    forall x: DeptId
      ensures !OnCycle(d', x)
    {
      if OnCycle(d', x) {
        var n: nat :| n > 0 && Up(d', x, n) == Some(x);
        WalkAfterMove(d, id, parent, x, n);
        ComesBack(d, x, n);
        if Up(d, x, n) != Some(x) {
          MeetingMeansCycleAtId(d, id, parent, x, n);
          assert false;
        }
      }
    }
  }

  /** If a cycle of the moved table passes through `id`, the new parent was below `id`. */
  lemma MeetingMeansCycleAtId(d: Departments, id: DeptId, parent: Option<DeptId>, x: DeptId, n: nat)
    requires id in d && OnCycle(Move(d, id, parent), x)
    requires exists k: nat :: Up(d, x, k) == Some(id)
    ensures parent.Some? && Descendant(d, id, parent.value)
  {
    var d' := Move(d, id, parent);
    var k: nat :| Up(d, x, k) == Some(id);
    FirstMeeting(d, id, parent, x, k);
    var j: nat :| Up(d', x, j) == Some(id);
    CycleNeverEnds(d', x, j);
    ParentOnCycle(d', id);
    var m: nat :| m > 0 && Up(d', id, m) == Some(id);
    assert Up(d', parent.value, m - 1) == Some(id);
    WalkAfterMove(d, id, parent, parent.value, m - 1);
  }

  /** The cycle guard is exact: on a forest, giving `id` the parent `p` closes a cycle if and
    * only if `p` is in the subtree of `id`. */
  lemma MoveMakesCycleIff(d: Departments, id: DeptId, p: DeptId)
    requires id in d && Acyclic(d)
    ensures Acyclic(Move(d, id, Some(p))) <==> !Descendant(d, id, p)
  {
    var d' := Move(d, id, Some(p));
    if Descendant(d, id, p) {
      var n: nat :| Up(d, p, n) == Some(id);
      FirstMeeting(d, id, Some(p), p, n);
      var k: nat :| Up(d', p, k) == Some(id);
      assert Up(d', id, k + 1) == Some(id);
      assert OnCycle(d', id);
    } else {
      MoveKeepsAcyclic(d, id, Some(p));
    }
  }

  /** A new department has no children yet, so it closes no cycle. */
  lemma InsertKeepsAcyclic(d: Departments, id: DeptId, row: Department)
    requires id !in d && Acyclic(d) && ParentsExist(d) && row.parentId != Some(id)
    ensures Acyclic(d[id := row])
  {
    var d' := d[id := row];
    forall x: DeptId
      ensures !OnCycle(d', x)
    {
      if OnCycle(d', x) {
        var n: nat :| n > 0 && Up(d', x, n) == Some(x);
        if x == id {
          NeverReachesNew(d, id, row, row.parentId.value, n - 1);
        } else {
          WalkAvoidsNew(d, id, row, x, n);
          ComesBack(d, x, n);
        }
      }
    }
  }

  lemma {:induction false} WalkAvoidsNew(d: Departments, id: DeptId, row: Department, x: DeptId, n: nat)
    requires id !in d && ParentsExist(d) && x != id
    ensures Up(d[id := row], x, n) == Up(d, x, n)
    decreases n
  {
    if n > 0 && Parent(d, x).Some? {
      WalkAvoidsNew(d, id, row, Parent(d, x).value, n - 1);
    }
  }

  lemma {:induction false} NeverReachesNew(d: Departments, id: DeptId, row: Department, x: DeptId, n: nat)
    requires id !in d && ParentsExist(d) && x != id
    ensures Up(d[id := row], x, n) != Some(id)
    decreases n
  {
    if n > 0 && Parent(d, x).Some? {
      NeverReachesNew(d, id, row, Parent(d, x).value, n - 1);
    }
  }

  /** Only parent references matter to the shape. */
  lemma {:induction false} SameParentsSameWalk(d: Departments, d': Departments, x: DeptId, n: nat)
    requires forall y :: Parent(d', y) == Parent(d, y)
    ensures Up(d', x, n) == Up(d, x, n)
    decreases n
  {
    if n > 0 && Parent(d, x).Some? {
      SameParentsSameWalk(d, d', Parent(d, x).value, n - 1);
    }
  }

  lemma SameParentsSameShape(d: Departments, d': Departments)
    requires forall y :: Parent(d', y) == Parent(d, y)
    ensures Acyclic(d') <==> Acyclic(d)
  {
    forall x: DeptId, n: nat
      ensures Up(d', x, n) == Up(d, x, n)
    {
      SameParentsSameWalk(d, d', x, n);
    }
    assert forall x: DeptId :: OnCycle(d', x) <==> OnCycle(d, x);
  }

  // ----- one tenant's rows -----------------------------------------------------

  function OfTenant(d: Departments, t: TenantId): Departments {
    map id | id in d && d[id].tenantId == t :: d[id]
  }

  lemma {:induction false} TenantWalk(d: Departments, t: TenantId, x: DeptId, n: nat)
    requires ParentsExist(d) && x in d && d[x].tenantId == t
    ensures Up(OfTenant(d, t), x, n) == Up(d, x, n)
    ensures Up(d, x, n).Some? ==> Up(d, x, n).value in d && d[Up(d, x, n).value].tenantId == t
    decreases n
  {
    if n > 0 && Parent(d, x).Some? {
      TenantWalk(d, t, Parent(d, x).value, n - 1);
    }
  }

  /** Looking at one tenant's rows loses nothing of a subtree of that tenant. */
  lemma TenantSubtree(d: Departments, t: TenantId, root: DeptId, x: DeptId)
    requires ParentsExist(d) && root in d && d[root].tenantId == t
    ensures Descendant(OfTenant(d, t), root, x) <==> Descendant(d, root, x)
  {
    if x in d {
      if d[x].tenantId == t {
        forall n: nat
          ensures Up(OfTenant(d, t), x, n) == Up(d, x, n)
        {
          TenantWalk(d, t, x, n);
        }
      } else {
        forall n: nat
          ensures Up(d, x, n) != Some(root) && Up(OfTenant(d, t), x, n) != Some(root)
        {
          TenantWalk(d, d[x].tenantId, x, n);
        }
      }
    }
  }

  lemma TenantAcyclic(d: Departments, t: TenantId)
    requires Acyclic(d) && ParentsExist(d)
    ensures Acyclic(OfTenant(d, t))
  {
    forall x: DeptId
      ensures !OnCycle(OfTenant(d, t), x)
    {
      if OnCycle(OfTenant(d, t), x) {
        var n: nat :| n > 0 && Up(OfTenant(d, t), x, n) == Some(x);
        assert x in OfTenant(d, t);
        TenantWalk(d, t, x, n);
        assert OnCycle(d, x);
      }
    }
  }
}
