/** DepartmentRepository: the statements on the departments table, and the subtree search that
  * keeps no visited set.
  */
module DepartmentRepository {
  import opened Wrappers
  import opened Sequences
  import opened DepartmentForest

  datatype Listed = Listed(id: DeptId, row: Department)

  predicate DistinctIds(all: seq<Listed>) {
    forall i, j :: 0 <= i < j < |all| ==> all[i].id != all[j].id
  }

  /** `all` is the table `d`, each row once, in some order. */
  ghost predicate Lists(all: seq<Listed>, d: Departments) {
    && DistinctIds(all)
    && (forall k :: 0 <= k < |all| ==> all[k].id in d && d[all[k].id] == all[k].row)
    && (forall id :: id in d ==> exists k :: 0 <= k < |all| && all[k].id == id)
  }

  /** The ids of the rows whose parent is `p`, in the order of the list. */
  function ChildIds(all: seq<Listed>, p: DeptId): seq<DeptId> {
    if all == [] then []
    else
      var last := all[|all| - 1];
      ChildIds(all[..|all| - 1], p) + (if last.row.parentId == Some(p) then [last.id] else [])
  }

  lemma {:induction false} ChildIdsAre(all: seq<Listed>, p: DeptId)
    requires DistinctIds(all)
    ensures forall c :: c in ChildIds(all, p) <==>
      exists k :: 0 <= k < |all| && all[k].id == c && all[k].row.parentId == Some(p)
    ensures Distinct(ChildIds(all, p))
    decreases |all|
  {
    if all != [] {
      var shorter := all[..|all| - 1];
      var last := all[|all| - 1];
      ChildIdsAre(shorter, p);
      forall c | c in ChildIds(shorter, p)
        ensures c != last.id && exists k :: 0 <= k < |all| && all[k].id == c && all[k].row.parentId == Some(p)
      {
        var k :| 0 <= k < |shorter| && shorter[k].id == c && shorter[k].row.parentId == Some(p);
        assert all[k] == shorter[k];
      }
      forall k | 0 <= k < |all| && all[k].row.parentId == Some(p)
        ensures all[k].id in ChildIds(all, p)
      {
        if k < |all| - 1 {
          assert shorter[k] == all[k];
        }
      }
      var ids := ChildIds(shorter, p);
      if last.row.parentId == Some(p) {
        assert ChildIds(all, p) == ids + [last.id];
        assert forall i :: 0 <= i < |ids| ==> ids[i] in ids;
      } else {
        assert ChildIds(all, p) == ids;
      }
    }
  }

  lemma ChildIdsOf(all: seq<Listed>, d: Departments, p: DeptId)
    requires Lists(all, d)
    ensures forall c :: c in ChildIds(all, p) <==> c in d && d[c].parentId == Some(p)
    ensures Distinct(ChildIds(all, p))
  {
    ChildIdsAre(all, p);
  }

  // ----- the subtree search ----------------------------------------------------

  function Found(children: map<DeptId, seq<DeptId>>, p: DeptId): seq<DeptId> {
    if p in children then children[p] else []
  }

  /** The state of the search: `seen` is what has been returned followed by what is queued. */
  ghost predicate Searching(d: Departments, root: DeptId, result: seq<DeptId>, queue: seq<DeptId>) {
    var seen := result + queue;
    && Distinct(seen)
    && root in seen
    && (forall x :: x in seen ==> Descendant(d, root, x))
    && (forall x :: x in seen && x != root ==> Parent(d, x).Some? && Parent(d, x).value in result)
    && (forall x, c :: x in result && c in d && d[c].parentId == Some(x) ==> c in seen)
  }

  /** A child reached for the first time was not seen before: this is where a cycle would show. */
  lemma ChildIsNew(d: Departments, root: DeptId, result: seq<DeptId>, queue: seq<DeptId>, c: DeptId)
    requires !OnCycle(d, root) && Searching(d, root, result, queue) && queue != []
    requires Parent(d, c) == Some(queue[0])
    ensures c !in result + queue && Descendant(d, root, c)
  {
    var seen := result + queue;
    assert seen[|result|] == queue[0] && queue[0] in seen;
    DescendantOfChild(d, root, c);
    if c == root {
      ParentBelowMeansCycle(d, root);
    }
    HeadNotReturned(result, queue);
  }

  lemma HeadNotReturned(result: seq<DeptId>, queue: seq<DeptId>)
    requires Distinct(result + queue) && queue != []
    ensures queue[0] !in result
  {
    var seen := result + queue;
    assert forall k :: 0 <= k < |result| ==> seen[k] == result[k] && seen[k] != seen[|result|];
  }

  lemma Advance(d: Departments, root: DeptId, result: seq<DeptId>, queue: seq<DeptId>, kids: seq<DeptId>)
    requires !OnCycle(d, root) && Searching(d, root, result, queue) && queue != []
    requires Distinct(kids) && forall c :: c in kids <==> c in d && d[c].parentId == Some(queue[0])
    ensures Searching(d, root, result + [queue[0]], queue[1..] + kids)
  {
    var seen := result + queue;
    forall c | c in kids
      ensures c !in seen && Descendant(d, root, c)
    {
      ChildIsNew(d, root, result, queue, c);
    }
    var seen' := (result + [queue[0]]) + (queue[1..] + kids);
    assert seen' == seen + kids;
    assert forall k :: 0 <= k < |kids| ==> kids[k] in kids;
    assert forall k :: 0 <= k < |seen| ==> seen[k] in seen;
  }

  lemma SearchIsBounded(d: Departments, root: DeptId, result: seq<DeptId>, queue: seq<DeptId>)
    requires Searching(d, root, result, queue) && queue != []
    ensures |result| < |d.Keys + {root}|
  {
    var seen := result + queue;
    forall x | x in Elements(seen)
      ensures x in d.Keys + {root}
    {
      DescendantOfChild(d, root, x);
    }
    DistinctLength(seen, d.Keys + {root});
  }

  lemma {:induction false} SearchIsComplete(d: Departments, root: DeptId, result: seq<DeptId>, x: DeptId, n: nat)
    requires Searching(d, root, result, []) && Up(d, x, n) == Some(root)
    ensures x in result
    decreases n
  {
    assert result + [] == result;
    if n > 0 {
      SearchIsComplete(d, root, result, Parent(d, x).value, n - 1);
    }
  }

  datatype Search = Search(result: seq<DeptId>, queue: seq<DeptId>)

  /** The search from `root` after `n` rounds, or when it ended if that was earlier. */
  function SearchAfter(all: seq<Listed>, root: DeptId, n: nat): Search {
    if n == 0 then Search([], [root])
    else
      var s := SearchAfter(all, root, n - 1);
      if s.queue == [] then s
      else Search(s.result + [s.queue[0]], s.queue[1..] + ChildIds(all, s.queue[0]))
  }

  lemma OneRound(d: Departments, queue: seq<DeptId>, kids: seq<DeptId>)
    requires exists x :: x in queue && OnCycle(d, x)
    requires forall c :: c in kids <==> c in d && d[c].parentId == Some(queue[0])
    ensures exists x :: x in queue[1..] + kids && OnCycle(d, x)
  {
    var x :| x in queue && OnCycle(d, x);
    if x == queue[0] {
      var c := CycleHasChild(d, x);
      assert c in kids;
      assert c in queue[1..] + kids && OnCycle(d, c);
    } else {
      assert x in queue[1..];
      assert x in queue[1..] + kids && OnCycle(d, x);
    }
  }

  /** Begun on a cycle, the search has an id of a cycle in its queue after any number of rounds. */
  lemma {:induction false} SearchGoesOn(all: seq<Listed>, d: Departments, root: DeptId, n: nat)
    requires Lists(all, d) && OnCycle(d, root)
    ensures exists x :: x in SearchAfter(all, root, n).queue && OnCycle(d, x)
    decreases n
  {
    if n == 0 {
      assert root in SearchAfter(all, root, n).queue;
    } else {
      var s := SearchAfter(all, root, n - 1);
      SearchGoesOn(all, d, root, n - 1);
      ChildIdsOf(all, d, s.queue[0]);
      OneRound(d, s.queue, ChildIds(all, s.queue[0]));
    }
  }

  lemma BeginsSearching(d: Departments, root: DeptId)
    ensures Searching(d, root, [], [root])
  {
    assert [] + [root] == [root];
    assert Up(d, root, 0) == Some(root);
  }

  lemma {:induction false} SearchKeepsSearching(all: seq<Listed>, d: Departments, root: DeptId, n: nat)
    requires Lists(all, d) && !OnCycle(d, root)
    ensures var s := SearchAfter(all, root, n);
      Searching(d, root, s.result, s.queue) && (s.queue != [] ==> |s.result| == n)
    decreases n
  {
    if n == 0 {
      BeginsSearching(d, root);
    } else {
      SearchKeepsSearching(all, d, root, n - 1);
      var s := SearchAfter(all, root, n - 1);
      if s.queue != [] {
        ChildIdsOf(all, d, s.queue[0]);
        Advance(d, root, s.result, s.queue, ChildIds(all, s.queue[0]));
      }
    }
  }

  lemma NextRound(all: seq<Listed>, d: Departments, root: DeptId, result: seq<DeptId>, queue: seq<DeptId>)
    requires Lists(all, d) && !OnCycle(d, root)
    requires Search(result, queue) == SearchAfter(all, root, |result|) && queue != []
    ensures |result| < |d.Keys + {root}|
    ensures SearchAfter(all, root, |result + [queue[0]]|)
         == Search(result + [queue[0]], queue[1..] + ChildIds(all, queue[0]))
  {
    SearchKeepsSearching(all, d, root, |result|);
    SearchIsBounded(d, root, result, queue);
  }

  /** Ended, it has returned every department of the subtree exactly once. */
  lemma SearchReturnsSubtree(all: seq<Listed>, d: Departments, root: DeptId, n: nat)
    requires Lists(all, d) && !OnCycle(d, root) && SearchAfter(all, root, n).queue == []
    ensures Distinct(SearchAfter(all, root, n).result)
    ensures forall x :: x in SearchAfter(all, root, n).result <==> Descendant(d, root, x)
  {
    SearchKeepsSearching(all, d, root, n);
    var result := SearchAfter(all, root, n).result;
    assert result + [] == result;
    forall x | Descendant(d, root, x)
      ensures x in result
    {
      var k: nat :| Up(d, x, k) == Some(root);
      SearchIsComplete(d, root, result, x, k);
    }
  }

  /** The search from `root` ends if and only if `root` is not on a cycle. */
  lemma SearchEndsIff(all: seq<Listed>, d: Departments, root: DeptId)
    requires Lists(all, d)
    ensures (exists n: nat :: SearchAfter(all, root, n).queue == []) <==> !OnCycle(d, root)
  {
    if OnCycle(d, root) {
      forall n: nat
        ensures SearchAfter(all, root, n).queue != []
      {
        SearchGoesOn(all, d, root, n);
      }
    } else {
      var n := |d.Keys + {root}|;
      SearchKeepsSearching(all, d, root, n);
      var s := SearchAfter(all, root, n);
      if s.queue != [] {
        SearchIsBounded(d, root, s.result, s.queue);
        assert false;
      }
    }
  }

  function ActiveChildren(d: Departments, t: TenantId, id: DeptId): set<DeptId> {
    set c | c in d && d[c].tenantId == t && d[c].parentId == Some(id) && d[c].isActive
  }

  class DepartmentRepo {
    var departments: Departments

    constructor ()
      ensures departments == map[]
    {
      departments := map[];
    }

    method Create(id: DeptId, row: Department)
      requires id !in departments
      modifies this
      ensures departments == old(departments)[id := row]
    {
      departments := departments[id := row];
    }

    method FindById(id: DeptId, tenantId: TenantId) returns (row: Option<Department>)
      ensures row == if id in OfTenant(departments, tenantId) then Some(departments[id]) else None
    {
      if id in departments && departments[id].tenantId == tenantId {
        return Some(departments[id]);
      }
      row := None;
    }

    /** The order is that of the name column's collation, which the model leaves open. */
    method FindAllForTenant(tenantId: TenantId) returns (all: seq<Listed>)
      ensures Lists(all, OfTenant(departments, tenantId))
    {
      all := [];
      var d := OfTenant(departments, tenantId);
      var rest := d.Keys;
      while rest != {}
        invariant rest <= d.Keys
        invariant DistinctIds(all)
        invariant forall k :: 0 <= k < |all| ==> all[k].id in d && all[k].id !in rest && d[all[k].id] == all[k].row
        invariant forall id :: id in d && id !in rest ==> exists k :: 0 <= k < |all| && all[k].id == id
        decreases |rest|
      {
        var id :| id in rest;
        ghost var before := all;
        all := all + [Listed(id, d[id])];
        rest := rest - {id};
        forall x | x in d && x !in rest
          ensures exists k :: 0 <= k < |all| && all[k].id == x
        {
          if x == id {
            assert all[|before|].id == id;
          } else {
            var k :| 0 <= k < |before| && before[k].id == x;
            assert all[k].id == x;
          }
        }
      }
    }

    method CountActiveChildren(parentId: DeptId, tenantId: TenantId) returns (n: nat)
      ensures n == |ActiveChildren(departments, tenantId, parentId)|
    {
      var rows := set id | id in departments && departments[id].tenantId == tenantId
                         && departments[id].parentId == Some(parentId) && departments[id].isActive;
      assert rows == ActiveChildren(departments, tenantId, parentId);
      n := |rows|;
    }

    /** The first loop of FindSubtreeIds: parent to [child, ...]. */
    method BuildChildrenMap(all: seq<Listed>) returns (childrenMap: map<DeptId, seq<DeptId>>)
      ensures forall p :: Found(childrenMap, p) == ChildIds(all, p)
    {
      childrenMap := map[];
      for i := 0 to |all|
        invariant forall p :: Found(childrenMap, p) == ChildIds(all[..i], p)
      {
        assert all[..i + 1][..i] == all[..i];
        var dept := all[i];
        if dept.row.parentId.Some? {
          var siblings := Found(childrenMap, dept.row.parentId.value);
          siblings := siblings + [dept.id];
          childrenMap := childrenMap[dept.row.parentId.value := siblings];
        }
      }
      assert all[..|all|] == all;
    }

    /** Terminates and returns each id of the subtree exactly once, because the root is not on a
      * cycle; otherwise no number of rounds would be enough (SearchEndsIff). */
    method FindSubtreeIds(rootId: DeptId, tenantId: TenantId) returns (result: seq<DeptId>)
      requires !OnCycle(OfTenant(departments, tenantId), rootId)
      ensures Distinct(result)
      ensures forall x :: x in result <==> Descendant(OfTenant(departments, tenantId), rootId, x)
    {
      ghost var d := OfTenant(departments, tenantId);
      var all := FindAllForTenant(tenantId);
      var childrenMap := BuildChildrenMap(all);

      result := [];
      var queue := [rootId];
      while |queue| > 0
        invariant Search(result, queue) == SearchAfter(all, rootId, |result|)
        decreases |d.Keys + {rootId}| - |result|
      {
        NextRound(all, d, rootId, result, queue);
        var current := queue[0];
        queue := queue[1..];
        result := result + [current];
        var children := Found(childrenMap, current);
        queue := queue + children;
      }
      SearchReturnsSubtree(all, d, rootId, |result|);
    }

    /** The row is addressed by id and tenant; `None` when there is no such row. */
    method Update(id: DeptId, tenantId: TenantId, row: Department) returns (updated: Option<Department>)
      requires row.tenantId == tenantId
      modifies this
      ensures id in OfTenant(old(departments), tenantId) ==>
        departments == old(departments)[id := row] && updated == Some(row)
      ensures id !in OfTenant(old(departments), tenantId) ==> departments == old(departments) && updated == None
    {
      if id in departments && departments[id].tenantId == tenantId {
        departments := departments[id := row];
        return Some(row);
      }
      updated := None;
    }

    method ClearManager(managerEmployeeId: EmployeeId, tenantId: TenantId)
      modifies this
      ensures departments == WithoutManager(old(departments), tenantId, managerEmployeeId)
    {
      var managed := set id | id in departments && departments[id].tenantId == tenantId
                            && departments[id].managerEmployeeId == Some(managerEmployeeId);
      departments := departments + map id | id in managed :: departments[id].(managerEmployeeId := None);
    }
  }

  /** The table after every department of tenant `t` managed by `e` has lost its manager. */
  function WithoutManager(d: Departments, t: TenantId, e: EmployeeId): Departments {
    map id | id in d ::
      if d[id].tenantId == t && d[id].managerEmployeeId == Some(e) then d[id].(managerEmployeeId := None) else d[id]
  }
}
