/** buildTree: the nested hierarchy, built from a flat list by recursion without any bound. */
module DepartmentTree {
  import opened Wrappers
  import opened Sequences
  import opened DepartmentForest
  import opened DepartmentRepository

  datatype Node = Node(id: DeptId, row: Department, children: seq<Node>)

  /** The rows whose parent is `parentId`, in the order of the list. */
  function ChildrenOf(all: seq<Listed>, parentId: Option<DeptId>): seq<Listed> {
    if all == [] then []
    else (if all[0].row.parentId == parentId then [all[0]] else []) + ChildrenOf(all[1..], parentId)
  }

  function Table(all: seq<Listed>): Departments
    requires DistinctIds(all)
  {
    map l | l in all :: l.id := l.row
  }

  /** What is strictly below `parentId`; for the top level, everything. */
  ghost function Below(d: Departments, parentId: Option<DeptId>): set<DeptId> {
    match parentId
    case None => d.Keys
    case Some(x) => set y | y in d && y != x && Descendant(d, x, y)
  }

  ghost predicate Climbable(d: Departments, parentId: Option<DeptId>) {
    parentId.Some? ==> !OnCycle(d, parentId.value)
  }

  lemma ChildShrinks(d: Departments, parentId: Option<DeptId>, c: DeptId)
    requires Climbable(d, parentId) && c in d && d[c].parentId == parentId
    ensures !OnCycle(d, c)
    ensures Below(d, Some(c)) < Below(d, parentId)
    ensures |Below(d, Some(c))| < |Below(d, parentId)|
  {
    ChildOffCycle(d, c);
    DescendantOfChild(d, c, c);
    if parentId.Some? {
      var x := parentId.value;
      DescendantOfChild(d, x, c);
      DescendantOfChild(d, x, x);
      SelfParentIsCycle(d, c);
      forall y | y in Below(d, Some(c))
        ensures y in Below(d, parentId)
      {
        DescendantTransitive(d, x, c, y);
        if y == x {
          ParentBelowMeansCycle(d, c);
        }
      }
    }
    assert c in Below(d, parentId) && c !in Below(d, Some(c));
    SmallerSet(Below(d, Some(c)), Below(d, parentId));
  }

  lemma SmallerSet(a: set<DeptId>, b: set<DeptId>)
    requires a < b
    ensures |a| < |b|
  {
    var x :| x in b && x !in a;
    assert b == a + (b - a) && x in b - a;
  }

  lemma {:induction false} ChildrenOfAre(all: seq<Listed>, parentId: Option<DeptId>)
    ensures forall l :: l in ChildrenOf(all, parentId) <==> l in all && l.row.parentId == parentId
  {
    if all != [] {
      ChildrenOfAre(all[1..], parentId);
    }
  }

  /** From the top level this always terminates: what a cycle or a missing parent cuts off is
    * never visited. From below a department it terminates unless that one is on a cycle. */
  function BuildTree(all: seq<Listed>, parentId: Option<DeptId>): (nodes: seq<Node>)
    requires DistinctIds(all) && Climbable(Table(all), parentId)
    decreases |Below(Table(all), parentId)|
  {
    var kids := ChildrenOf(all, parentId);
    seq(|kids|, i requires 0 <= i < |kids| =>
      ChildrenOfAre(all, parentId);
      assert kids[i] in kids;
      ChildShrinks(Table(all), parentId, kids[i].id);
      Node(kids[i].id, kids[i].row, BuildTree(all, Some(kids[i].id))))
  }

  // ----- the shape ---------------------------------------------------------------

  function Labels(nodes: seq<Node>): seq<Listed> {
    seq(|nodes|, i requires 0 <= i < |nodes| => Listed(nodes[i].id, nodes[i].row))
  }

  /** Every list of siblings is exactly the rows with that parent, in the order of `all`. */
  ghost predicate Mirrors(nodes: seq<Node>, all: seq<Listed>, parentId: Option<DeptId>)
    decreases nodes
  {
    && Labels(nodes) == ChildrenOf(all, parentId)
    && forall i :: 0 <= i < |nodes| ==> Mirrors(nodes[i].children, all, Some(nodes[i].id))
  }

  lemma {:induction false} BuildTreeMirrors(all: seq<Listed>, parentId: Option<DeptId>)
    requires DistinctIds(all) && Climbable(Table(all), parentId)
    ensures Mirrors(BuildTree(all, parentId), all, parentId)
    decreases |Below(Table(all), parentId)|
  {
    var kids := ChildrenOf(all, parentId);
    ChildrenOfAre(all, parentId);
    var nodes := BuildTree(all, parentId);
    assert Labels(nodes) == kids;
    forall i | 0 <= i < |nodes|
      ensures Mirrors(nodes[i].children, all, Some(nodes[i].id))
    {
      assert kids[i] in kids;
      ChildShrinks(Table(all), parentId, kids[i].id);
      BuildTreeMirrors(all, Some(kids[i].id));
    }
  }

  lemma {:induction false} MirrorIsUnique(all: seq<Listed>, parentId: Option<DeptId>, nodes: seq<Node>)
    requires DistinctIds(all) && Climbable(Table(all), parentId)
    requires Mirrors(nodes, all, parentId)
    ensures nodes == BuildTree(all, parentId)
    decreases |Below(Table(all), parentId)|
  {
    var kids := ChildrenOf(all, parentId);
    ChildrenOfAre(all, parentId);
    assert |Labels(nodes)| == |kids|;
    forall i | 0 <= i < |kids|
      ensures nodes[i] == BuildTree(all, parentId)[i]
    {
      assert kids[i] in kids && Labels(nodes)[i] == kids[i];
      ChildShrinks(Table(all), parentId, kids[i].id);
      MirrorIsUnique(all, Some(kids[i].id), nodes[i].children);
    }
  }

  /** buildTree yields the one hierarchy in which each department stands under its own parent
    * and siblings keep their order. */
  lemma BuildTreeIsTheMirror(all: seq<Listed>, parentId: Option<DeptId>, nodes: seq<Node>)
    requires DistinctIds(all) && Climbable(Table(all), parentId)
    ensures Mirrors(nodes, all, parentId) <==> nodes == BuildTree(all, parentId)
  {
    BuildTreeMirrors(all, parentId);
    if Mirrors(nodes, all, parentId) {
      MirrorIsUnique(all, parentId, nodes);
    }
  }

  // ----- which departments it shows -----------------------------------------------

  function Flatten(nodes: seq<Node>): seq<DeptId>
    decreases nodes
  {
    if nodes == [] then []
    else [nodes[0].id] + Flatten(nodes[0].children) + Flatten(nodes[1..])
  }

  /** `y`, or an ancestor of it, is a row of the table whose parent is `parentId`. */
  ghost predicate Under(d: Departments, parentId: Option<DeptId>, y: DeptId) {
    exists c :: c in d && d[c].parentId == parentId && Descendant(d, c, y)
  }

  lemma UnderSome(d: Departments, x: DeptId, y: DeptId)
    ensures Descendant(d, x, y) <==> y == x || Under(d, Some(x), y)
  {
    if Descendant(d, x, y) && y != x {
      var n: nat :| Up(d, y, n) == Some(x);
      LastStep(d, x, y, n);
    }
    if Under(d, Some(x), y) {
      var c :| c in d && d[c].parentId == Some(x) && Descendant(d, c, y);
      DescendantOfChild(d, x, c);
      DescendantOfChild(d, x, x);
      DescendantTransitive(d, x, c, y);
    }
    DescendantOfChild(d, x, x);
  }

  lemma LastStep(d: Departments, x: DeptId, y: DeptId, n: nat)
    requires Up(d, y, n) == Some(x) && n > 0
    ensures Under(d, Some(x), y)
  {
    UpAdd(d, y, n - 1, 1);
    var c := Up(d, y, n - 1).value;
    assert Up(d, c, 1) == Some(x);
    assert c in d && d[c].parentId == Some(x) && Descendant(d, c, y);
  }

  /** Two children of one parent have no descendant in common. */
  lemma SiblingsApart(d: Departments, parentId: Option<DeptId>, a: DeptId, b: DeptId, y: DeptId)
    requires Climbable(d, parentId) && a in d && b in d && a != b
    requires d[a].parentId == parentId && d[b].parentId == parentId
    ensures !(Descendant(d, a, y) && Descendant(d, b, y))
  {
    SiblingNotAbove(d, parentId, a, b);
    if Descendant(d, a, y) && Descendant(d, b, y) {
      var m: nat :| Up(d, y, m) == Some(a);
      var n: nat :| Up(d, y, n) == Some(b);
      UpAdd(d, y, m, if m <= n then n - m else 0);
      UpAdd(d, y, n, if m <= n then 0 else m - n);
    }
  }

  lemma SiblingNotAbove(d: Departments, parentId: Option<DeptId>, a: DeptId, b: DeptId)
    requires Climbable(d, parentId) && a in d && b in d && a != b
    requires d[a].parentId == parentId && d[b].parentId == parentId
    ensures !Descendant(d, b, a) && !Descendant(d, a, b)
  {
    DescendantOfChild(d, b, a);
    DescendantOfChild(d, a, b);
    ChildOffCycle(d, a);
    ChildOffCycle(d, b);
    if parentId.Some? {
      if Descendant(d, b, parentId.value) {
        ParentBelowMeansCycle(d, b);
      }
      if Descendant(d, a, parentId.value) {
        ParentBelowMeansCycle(d, a);
      }
    }
  }

  /** The node and what is nested in it are its department's subtree, each id once. */
  ghost predicate Shows(d: Departments, n: Node) {
    && Distinct([n.id] + Flatten(n.children))
    && forall y :: y in [n.id] + Flatten(n.children) <==> Descendant(d, n.id, y)
  }

  lemma {:induction false} FlattenSiblings(d: Departments, nodes: seq<Node>)
    requires forall i :: 0 <= i < |nodes| ==> Shows(d, nodes[i])
    requires forall i, j, y :: 0 <= i < j < |nodes| ==> !(Descendant(d, nodes[i].id, y) && Descendant(d, nodes[j].id, y))
    ensures Distinct(Flatten(nodes))
    ensures forall y :: y in Flatten(nodes) <==> exists i :: 0 <= i < |nodes| && Descendant(d, nodes[i].id, y)
    decreases nodes
  {
    if nodes != [] {
      var first := [nodes[0].id] + Flatten(nodes[0].children);
      var rest := nodes[1..];
      FlattenSiblings(d, rest);
      assert Flatten(nodes) == first + Flatten(rest);
      forall y | y in Flatten(rest)
        ensures y !in first && exists i :: 0 <= i < |nodes| && Descendant(d, nodes[i].id, y)
      {
        var i :| 0 <= i < |rest| && Descendant(d, rest[i].id, y);
        assert nodes[i + 1] == rest[i];
      }
      forall i, y | 0 <= i < |nodes| && Descendant(d, nodes[i].id, y)
        ensures y in first + Flatten(rest)
      {
        if i > 0 {
          assert rest[i - 1] == nodes[i];
        }
      }
      DistinctJoin(first, Flatten(rest));
    }
  }

  lemma {:induction false} FlattenOf(all: seq<Listed>, parentId: Option<DeptId>)
    requires DistinctIds(all) && Climbable(Table(all), parentId)
    ensures Distinct(Flatten(BuildTree(all, parentId)))
    ensures forall y :: y in Flatten(BuildTree(all, parentId)) <==> Under(Table(all), parentId, y)
    decreases |Below(Table(all), parentId)|
  {
    var d := Table(all);
    var kids := ChildrenOf(all, parentId);
    var nodes := BuildTree(all, parentId);
    KidsAre(all, parentId);
    forall i | 0 <= i < |nodes|
      ensures Shows(d, nodes[i])
    {
      ChildShrinks(d, parentId, kids[i].id);
      FlattenOf(all, Some(kids[i].id));
      ShowsSubtree(all, nodes[i]);
    }
    forall i, j, y | 0 <= i < j < |nodes|
      ensures !(Descendant(d, nodes[i].id, y) && Descendant(d, nodes[j].id, y))
    {
      SiblingsApart(d, parentId, kids[i].id, kids[j].id, y);
    }
    FlattenSiblings(d, nodes);
    forall y
      ensures y in Flatten(nodes) <==> Under(d, parentId, y)
    {
      UnderKids(all, parentId, nodes, y);
    }
  }

  lemma ShowsSubtree(all: seq<Listed>, n: Node)
    requires DistinctIds(all) && !OnCycle(Table(all), n.id) && Distinct(Flatten(n.children))
    requires forall y :: y in Flatten(n.children) <==> Under(Table(all), Some(n.id), y)
    ensures Shows(Table(all), n)
  {
    NotUnderItself(Table(all), n.id);
    forall y
      ensures y in [n.id] + Flatten(n.children) <==> Descendant(Table(all), n.id, y)
    {
      UnderSome(Table(all), n.id, y);
    }
    DistinctJoin([n.id], Flatten(n.children));
  }

  lemma KidsAre(all: seq<Listed>, parentId: Option<DeptId>)
    requires DistinctIds(all)
    ensures var kids := ChildrenOf(all, parentId);
      && DistinctIds(kids)
      && forall i :: 0 <= i < |kids| ==> kids[i].id in Table(all) && Table(all)[kids[i].id].parentId == parentId
  {
    ChildrenDistinct(all, parentId);
    ChildrenOfAre(all, parentId);
    var kids := ChildrenOf(all, parentId);
    forall i | 0 <= i < |kids|
      ensures kids[i] in all && kids[i].row.parentId == parentId
    {
      assert kids[i] in kids;
    }
  }

  lemma UnderKids(all: seq<Listed>, parentId: Option<DeptId>, nodes: seq<Node>, y: DeptId)
    requires DistinctIds(all) && |nodes| == |ChildrenOf(all, parentId)|
    requires forall i :: 0 <= i < |nodes| ==> nodes[i].id == ChildrenOf(all, parentId)[i].id
    ensures Under(Table(all), parentId, y) <==> exists i :: 0 <= i < |nodes| && Descendant(Table(all), nodes[i].id, y)
  {
    var d, kids := Table(all), ChildrenOf(all, parentId);
    KidsAre(all, parentId);
    if Under(d, parentId, y) {
      var c :| c in d && d[c].parentId == parentId && Descendant(d, c, y);
      var i := KidOf(all, parentId, c);
      assert kids[i].id == c;
      assert Descendant(d, nodes[i].id, y);
    }
    forall i | 0 <= i < |nodes| && Descendant(d, nodes[i].id, y)
      ensures Under(d, parentId, y)
    {
      assert kids[i].id in d && d[kids[i].id].parentId == parentId;
    }
  }

  lemma KidOf(all: seq<Listed>, parentId: Option<DeptId>, c: DeptId) returns (i: nat)
    requires DistinctIds(all) && c in Table(all) && Table(all)[c].parentId == parentId
    ensures i < |ChildrenOf(all, parentId)| && ChildrenOf(all, parentId)[i].id == c
  {
    var kids := ChildrenOf(all, parentId);
    ChildrenOfAre(all, parentId);
    var l :| l in all && l.id == c;
    assert l in kids;
    i :| 0 <= i < |kids| && kids[i] == l;
  }

  lemma {:induction false} ChildrenDistinct(all: seq<Listed>, parentId: Option<DeptId>)
    requires DistinctIds(all)
    ensures DistinctIds(ChildrenOf(all, parentId))
  {
    if all != [] {
      ChildrenDistinct(all[1..], parentId);
      ChildrenOfAre(all[1..], parentId);
      var rest := ChildrenOf(all[1..], parentId);
      forall k | 0 <= k < |rest|
        ensures rest[k].id != all[0].id
      {
        assert rest[k] in rest;
        var j :| 0 <= j < |all[1..]| && all[1..][j] == rest[k];
        assert all[j + 1] == rest[k];
      }
    }
  }

  lemma NotUnderItself(d: Departments, c: DeptId)
    requires !OnCycle(d, c)
    ensures !Under(d, Some(c), c)
  {
    if Under(d, Some(c), c) {
      var x :| x in d && d[x].parentId == Some(c) && Descendant(d, x, c);
      ParentBelowMeansCycle(d, x);
    }
  }

  lemma DistinctJoin(a: seq<DeptId>, b: seq<DeptId>)
    requires Distinct(a) && Distinct(b) && forall y :: y in a ==> y !in b
    ensures Distinct(a + b)
  {
    var s := a + b;
    forall i, j | 0 <= i < j < |s|
      ensures s[i] != s[j]
    {
      if i < |a| {
        assert s[i] in a;
      }
      if j >= |a| {
        assert s[j] in b;
      }
    }
  }

  // ----- completeness --------------------------------------------------------------

  ghost predicate NoDanglingParent(d: Departments) {
    forall x :: x in d && d[x].parentId.Some? ==> d[x].parentId.value in d
  }

  ghost function Ancestors(d: Departments, y: DeptId): set<DeptId> {
    set z | z in d && z != y && Descendant(d, z, y)
  }

  lemma ParentHasFewerAncestors(d: Departments, y: DeptId)
    requires Acyclic(d) && y in d && d[y].parentId.Some? && d[y].parentId.value in d
    ensures |Ancestors(d, d[y].parentId.value)| < |Ancestors(d, y)|
  {
    var p := d[y].parentId.value;
    SelfParentIsCycle(d, y);
    DescendantOfChild(d, p, p);
    DescendantOfChild(d, p, y);
    forall z | z in Ancestors(d, p)
      ensures z in Ancestors(d, y)
    {
      DescendantOfChild(d, z, y);
      if z == y {
        ParentBelowMeansCycle(d, y);
      }
    }
    assert p in Ancestors(d, y) && p !in Ancestors(d, p);
    SmallerSet(Ancestors(d, p), Ancestors(d, y));
  }

  lemma {:induction false} ReachesTop(d: Departments, y: DeptId)
    requires Acyclic(d) && NoDanglingParent(d) && y in d
    ensures Under(d, None, y)
    decreases |Ancestors(d, y)|
  {
    DescendantOfChild(d, y, y);
    if d[y].parentId.Some? {
      var p := d[y].parentId.value;
      ParentHasFewerAncestors(d, y);
      ReachesTop(d, p);
      var c :| c in d && d[c].parentId == None && Descendant(d, c, p);
      DescendantOfChild(d, c, y);
    }
  }

  ghost predicate AllUnderTop(d: Departments) {
    forall y :: y in d ==> Under(d, None, y)
  }

  lemma AllUnderTopMeansAcyclic(d: Departments)
    requires AllUnderTop(d)
    ensures Acyclic(d)
  {
    forall y: DeptId
      ensures !OnCycle(d, y)
    {
      if OnCycle(d, y) {
        ParentOnCycle(d, y);
        TopNotOnCycle(d, y);
      }
    }
  }

  lemma UnderTopMeansParent(d: Departments, x: DeptId)
    requires x in d && d[x].parentId.Some? && Under(d, None, x)
    ensures d[x].parentId.value in d
  {
    var c :| c in d && d[c].parentId == None && Descendant(d, c, x);
    DescendantOfChild(d, c, x);
    DescendantOfChild(d, c, d[x].parentId.value);
  }

  lemma AllUnderTopIff(d: Departments)
    ensures AllUnderTop(d) <==> Acyclic(d) && NoDanglingParent(d)
  {
    if Acyclic(d) && NoDanglingParent(d) {
      forall y | y in d
        ensures Under(d, None, y)
      {
        ReachesTop(d, y);
      }
    } else if AllUnderTop(d) {
      AllUnderTopMeansAcyclic(d);
      forall x | x in d && d[x].parentId.Some?
        ensures d[x].parentId.value in d
      {
        UnderTopMeansParent(d, x);
      }
    }
  }

  /** The whole tree shows every department if and only if the table has neither a cycle nor a
    * parent reference that leads nowhere. */
  lemma TreeShowsAllIff(all: seq<Listed>)
    requires DistinctIds(all)
    ensures (forall y :: y in Table(all) ==> y in Flatten(BuildTree(all, None)))
      <==> (Acyclic(Table(all)) && NoDanglingParent(Table(all)))
  {
    FlattenOf(all, None);
    AllUnderTopIff(Table(all));
  }

  lemma TopNotOnCycle(d: Departments, y: DeptId)
    requires OnCycle(d, y)
    ensures !Under(d, None, y)
  {
    if Under(d, None, y) {
      var c :| c in d && d[c].parentId == None && Descendant(d, c, y);
      var n: nat :| Up(d, y, n) == Some(c);
      CycleNeverEnds(d, y, n);
      ParentOnCycle(d, c);
    }
  }

  lemma UnderTopIff(d: Departments, y: DeptId)
    requires Acyclic(d) && NoDanglingParent(d)
    ensures Under(d, None, y) <==> y in d
  {
    if y in d {
      ReachesTop(d, y);
    } else if Under(d, None, y) {
      var c :| c in d && d[c].parentId == None && Descendant(d, c, y);
      DescendantOfChild(d, c, y);
    }
  }

  /** On a forest the tree from the top is a permutation of the table. */
  lemma TreeIsPermutation(all: seq<Listed>)
    requires DistinctIds(all) && Acyclic(Table(all)) && NoDanglingParent(Table(all))
    ensures multiset(Flatten(BuildTree(all, None))) == multiset(Ids(all))
  {
    FlattenOf(all, None);
    var ids := Ids(all);
    forall y
      ensures y in ids <==> Under(Table(all), None, y)
    {
      IdsAreKeys(all, y);
      UnderTopIff(Table(all), y);
    }
    SameElementsSameMultiset(Flatten(BuildTree(all, None)), ids);
  }

  lemma IdsAreKeys(all: seq<Listed>, y: DeptId)
    requires DistinctIds(all)
    ensures y in Ids(all) <==> y in Table(all)
  {
    if y in Table(all) {
      var l :| l in all && l.id == y;
      var k :| 0 <= k < |all| && all[k] == l;
      assert Ids(all)[k] == y;
    }
    if y in Ids(all) {
      var k :| 0 <= k < |all| && Ids(all)[k] == y;
      assert all[k] in all;
    }
  }

  function Ids(all: seq<Listed>): seq<DeptId> {
    seq(|all|, i requires 0 <= i < |all| => all[i].id)
  }

  lemma SameElementsSameMultiset(a: seq<DeptId>, b: seq<DeptId>)
    requires Distinct(a) && Distinct(b) && forall y :: y in a <==> y in b
    ensures multiset(a) == multiset(b)
  {
    forall y
      ensures multiset(a)[y] == multiset(b)[y]
    {
      OnceEach(a, y);
      OnceEach(b, y);
    }
  }

  lemma {:induction false} OnceEach(s: seq<DeptId>, y: DeptId)
    requires Distinct(s)
    ensures multiset(s)[y] == if y in s then 1 else 0
    decreases |s|
  {
    if s != [] {
      var init, last := s[..|s| - 1], s[|s| - 1];
      OnceEach(init, y);
      assert s == init + [last];
    }
  }

  /** Below any node the tree shows exactly what findSubtreeIds returns besides the node. */
  lemma TreeAgreesWithSearch(all: seq<Listed>, x: DeptId, found: seq<DeptId>)
    requires DistinctIds(all) && !OnCycle(Table(all), x)
    requires forall y :: y in found <==> Descendant(Table(all), x, y)
    ensures forall y :: y in found <==> y == x || y in Flatten(BuildTree(all, Some(x)))
    ensures x !in Flatten(BuildTree(all, Some(x)))
  {
    FlattenOf(all, Some(x));
    NotUnderItself(Table(all), x);
    forall y
      ensures Descendant(Table(all), x, y) <==> y == x || Under(Table(all), Some(x), y)
    {
      UnderSome(Table(all), x, y);
    }
  }
}
