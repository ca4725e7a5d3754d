/**
 `buildFolderTree` (backend/internal/artifact/folders_postgres.go:141-167): from a
 flat list to nested folders. The list may contain cycles and dangling parents.
 */
module FolderTree {
  import opened Common
  import opened FolderForest

  datatype Row = Row(id: FolderId, folder: Folder)

  datatype Tree = Node(row: Row, children: seq<Tree>)

  predicate DistinctRows(flat: seq<Row>) {
    forall i, j :: 0 <= i < j < |flat| ==> flat[i].id != flat[j].id
  }

  function ByID(flat: seq<Row>): Folders {
    if flat == [] then map[]
    else ByID(flat[..|flat| - 1])[flat[|flat| - 1].id := flat[|flat| - 1].folder]
  }

  /** The IDs of the rows with this parent, in list order. */
  function WithParent(flat: seq<Row>, parent: Option<FolderId>): seq<FolderId> {
    if flat == [] then []
    else
      var last := flat[|flat| - 1];
      WithParent(flat[..|flat| - 1], parent) + if last.folder.parent == parent then [last.id] else []
  }

  lemma {:induction false} ByIDHoldsRows(flat: seq<Row>)
    requires DistinctRows(flat)
    ensures forall x :: x in ByID(flat) <==> exists i :: 0 <= i < |flat| && flat[i].id == x
    ensures forall i :: 0 <= i < |flat| ==> ByID(flat)[flat[i].id] == flat[i].folder
  {
    if flat != [] {
      ByIDHoldsRows(flat[..|flat| - 1]);
    }
  }

  predicate RowFor(row: Row, x: FolderId, parent: Option<FolderId>) {
    row.id == x && row.folder.parent == parent
  }

  lemma {:induction false} WithParentLists(flat: seq<Row>, parent: Option<FolderId>, x: FolderId)
    ensures x in WithParent(flat, parent) <==> exists i :: 0 <= i < |flat| && RowFor(flat[i], x, parent)
  {
    if flat != [] {
      var shorter, last := flat[..|flat| - 1], |flat| - 1;
      WithParentLists(shorter, parent, x);
      if exists i :: 0 <= i < |shorter| && RowFor(shorter[i], x, parent) {
        var i :| 0 <= i < |shorter| && RowFor(shorter[i], x, parent);
        assert RowFor(flat[i], x, parent);
      }
      if exists i :: 0 <= i < |flat| && RowFor(flat[i], x, parent) {
        var i :| 0 <= i < |flat| && RowFor(flat[i], x, parent);
        assert i < last ==> RowFor(shorter[i], x, parent);
      }
    }
  }

  lemma {:induction false} WithParentDistinct(flat: seq<Row>, parent: Option<FolderId>)
    requires DistinctRows(flat)
    ensures forall k, l :: 0 <= k < l < |WithParent(flat, parent)| ==> WithParent(flat, parent)[k] != WithParent(flat, parent)[l]
  {
    if flat != [] {
      var shorter, last := flat[..|flat| - 1], flat[|flat| - 1];
      WithParentDistinct(shorter, parent);
      WithParentLists(shorter, parent, last.id);
      assert last.id !in WithParent(shorter, parent);
    }
  }

  /** The children of a folder are the rows of the table that name it as their parent, each once. */
  lemma WithParentIsExact(flat: seq<Row>, parent: Option<FolderId>)
    requires DistinctRows(flat)
    ensures
      var ids := WithParent(flat, parent);
      && (forall k, l :: 0 <= k < l < |ids| ==> ids[k] != ids[l])
      && (forall x :: x in ids <==> x in ByID(flat) && ByID(flat)[x].parent == parent)
  {
    ByIDHoldsRows(flat);
    WithParentDistinct(flat, parent);
    forall x
      ensures x in WithParent(flat, parent) <==> x in ByID(flat) && ByID(flat)[x].parent == parent
    {
      WithParentLists(flat, parent, x);
      if x in ByID(flat) && ByID(flat)[x].parent == parent {
        var i :| 0 <= i < |flat| && flat[i].id == x;
        assert RowFor(flat[i], x, parent);
      }
    }
  }

  // ----- the recursion terminates -----

  ghost function Chain(folders: Folders, x: FolderId, n: nat): (ids: set<FolderId>)
    requires Rooted(folders, x, n)
    ensures ids <= folders.Keys && x in ids
    decreases n
  {
    if n == 0 then {x} else {x} + Chain(folders, folders[x].parent.value, n - 1)
  }

  lemma {:induction false} ChainMembersRooted(folders: Folders, x: FolderId, n: nat, y: FolderId)
    requires Rooted(folders, x, n) && y in Chain(folders, x, n)
    ensures exists k: nat :: k <= n && Rooted(folders, y, k)
    decreases n
  {
    if y == x {
      assert Rooted(folders, y, n);
    } else {
      ChainMembersRooted(folders, folders[x].parent.value, n - 1, y);
    }
  }

  lemma {:induction false} ChainSize(folders: Folders, x: FolderId, n: nat)
    requires Rooted(folders, x, n)
    ensures |Chain(folders, x, n)| == n + 1
    decreases n
  {
    if n > 0 {
      var parent := folders[x].parent.value;
      ChainSize(folders, parent, n - 1);
      if x in Chain(folders, parent, n - 1) {
        ChainMembersRooted(folders, parent, n - 1, x);
        var k: nat :| k <= n - 1 && Rooted(folders, x, k);
        DepthIsUnique(folders, x, n, k);
      }
    }
  }

  /** A chain that ends at a root is shorter than the number of folders, cycles elsewhere or not. */
  lemma DepthIsBounded(folders: Folders, x: FolderId, n: nat)
    requires Rooted(folders, x, n)
    ensures n < |folders|
  {
    ChainSize(folders, x, n);
    SubsetSize(Chain(folders, x, n), folders.Keys);
  }

  /** Every listed folder sits at this depth below a root. */
  ghost predicate AllAt(folders: Folders, ids: seq<FolderId>, depth: nat) {
    forall k :: 0 <= k < |ids| ==> Rooted(folders, ids[k], depth)
  }

  lemma ChildrenAreDeeper(flat: seq<Row>, id: FolderId, depth: nat)
    requires DistinctRows(flat) && Rooted(ByID(flat), id, depth)
    ensures AllAt(ByID(flat), WithParent(flat, Some(id)), depth + 1) && depth < |ByID(flat)|
  {
    WithParentIsExact(flat, Some(id));
    DepthIsBounded(ByID(flat), id, depth);
    forall k | 0 <= k < |WithParent(flat, Some(id))|
      ensures Rooted(ByID(flat), WithParent(flat, Some(id))[k], depth + 1)
    {
      assert WithParent(flat, Some(id))[k] in WithParent(flat, Some(id));
    }
  }

  /** The recursive closure `build`. */
  function Build(flat: seq<Row>, id: FolderId, ghost depth: nat): Tree
    requires DistinctRows(flat) && Rooted(ByID(flat), id, depth)
    decreases |ByID(flat)| - depth, 0
  {
    ChildrenAreDeeper(flat, id, depth);
    Node(Row(id, ByID(flat)[id]), BuildAll(flat, WithParent(flat, Some(id)), depth + 1))
  }

  function BuildAll(flat: seq<Row>, ids: seq<FolderId>, ghost depth: nat): (trees: seq<Tree>)
    requires DistinctRows(flat) && AllAt(ByID(flat), ids, depth)
    ensures |trees| == |ids| && forall k :: 0 <= k < |ids| ==> trees[k].row.id == ids[k]
    decreases |ByID(flat)| - depth, 1 + |ids|
  {
    if ids == [] then []
    else
      assert Rooted(ByID(flat), ids[0], depth);
      [Build(flat, ids[0], depth)] + BuildAll(flat, ids[1..], depth)
  }

  lemma RootsAreRooted(flat: seq<Row>)
    requires DistinctRows(flat)
    ensures AllAt(ByID(flat), WithParent(flat, None), 0)
  {
    WithParentIsExact(flat, None);
    forall k | 0 <= k < |WithParent(flat, None)|
      ensures Rooted(ByID(flat), WithParent(flat, None)[k], 0)
    {
      assert WithParent(flat, None)[k] in WithParent(flat, None);
    }
  }

  function Forest(flat: seq<Row>): seq<Tree>
    requires DistinctRows(flat)
  {
    RootsAreRooted(flat);
    BuildAll(flat, WithParent(flat, None), 0)
  }

  // ----- what the tree contains -----

  /** The folders of a tree in preorder. */
  function Ids(tree: Tree): seq<FolderId> {
    [tree.row.id] + IdsAll(tree.children)
  }

  function IdsAll(trees: seq<Tree>): seq<FolderId> {
    if trees == [] then [] else Ids(trees[0]) + IdsAll(trees[1..])
  }

  /** The folders whose chain passes through one of these. */
  ghost function Below(folders: Folders, ids: seq<FolderId>): set<FolderId> {
    set x | x in folders && exists k :: 0 <= k < |ids| && InSubtree(folders, x, ids[k])
  }

  lemma {:induction false} SameDistanceSameAncestor(folders: Folders, x: FolderId, y: FolderId, z: FolderId, n: nat)
    requires Reaches(folders, x, y, n) && Reaches(folders, x, z, n)
    ensures y == z
    decreases n
  {
    if n > 0 {
      SameDistanceSameAncestor(folders, folders[x].parent.value, y, z, n - 1);
    }
  }

  /** Two different folders at the same depth have nothing below them in common. */
  lemma SubtreesDisjoint(folders: Folders, x: FolderId, y: FolderId, z: FolderId, depth: nat)
    requires InSubtree(folders, x, y) && InSubtree(folders, x, z)
    requires Rooted(folders, y, depth) && Rooted(folders, z, depth)
    ensures y == z
  {
    var n: nat :| Reaches(folders, x, y, n);
    var m: nat :| Reaches(folders, x, z, m);
    ReachingAddsDepth(folders, x, y, n, depth);
    ReachingAddsDepth(folders, x, z, m, depth);
    DepthIsUnique(folders, x, n + depth, m + depth);
    SameDistanceSameAncestor(folders, x, y, z, n);
  }

  lemma SubtreeMemberIsBelow(flat: seq<Row>, id: FolderId, x: FolderId)
    requires DistinctRows(flat) && InSubtree(ByID(flat), x, id) && x != id
    ensures x in Below(ByID(flat), WithParent(flat, Some(id)))
  {
    var folders, children := ByID(flat), WithParent(flat, Some(id));
    WithParentIsExact(flat, Some(id));
    var n: nat :| Reaches(folders, x, id, n);
    var child := LastBefore(folders, x, id, n);
    var k :| 0 <= k < |children| && children[k] == child;
    assert InSubtree(folders, x, children[k]);
  }

  lemma BelowIsSubtreeMember(flat: seq<Row>, id: FolderId, depth: nat, x: FolderId)
    requires DistinctRows(flat) && Rooted(ByID(flat), id, depth)
    requires x in Below(ByID(flat), WithParent(flat, Some(id)))
    ensures InSubtree(ByID(flat), x, id) && x != id
  {
    hide ByID, WithParent, DistinctRows;
    var folders, children := ByID(flat), WithParent(flat, Some(id));
    ChildrenAreDeeper(flat, id, depth);
    var k :| 0 <= k < |children| && InSubtree(folders, x, children[k]);
    var child := children[k];
    assert child in folders && folders[child].parent == Some(id) by {
      WithParentIsExact(flat, Some(id));
      assert child in children;
    }
    var n: nat :| Reaches(folders, x, child, n);
    OneMore(folders, x, child, id, n);
    ReachingAddsDepth(folders, x, child, n, depth + 1);
    if x == id {
      DepthIsUnique(folders, id, depth, n + depth + 1);
    }
  }

  lemma SubtreeIsSelfAndBelow(flat: seq<Row>, id: FolderId, depth: nat)
    requires DistinctRows(flat) && Rooted(ByID(flat), id, depth)
    ensures Subtree(ByID(flat), id) == {id} + Below(ByID(flat), WithParent(flat, Some(id)))
    ensures id !in Below(ByID(flat), WithParent(flat, Some(id)))
  {
    var folders, children := ByID(flat), WithParent(flat, Some(id));
    assert Reaches(folders, id, id, 0);
    forall x | x in folders
      ensures x in Subtree(folders, id) <==> x == id || x in Below(folders, children)
      ensures x in Below(folders, children) ==> x != id
    {
      if x in Subtree(folders, id) && x != id {
        SubtreeMemberIsBelow(flat, id, x);
      }
      if x in Below(folders, children) {
        BelowIsSubtreeMember(flat, id, depth, x);
      }
    }
  }

  lemma {:induction false} OneMore(folders: Folders, x: FolderId, child: FolderId, parent: FolderId, n: nat)
    requires Reaches(folders, x, child, n) && child in folders
    requires folders[child].parent == Some(parent) && parent in folders
    ensures Reaches(folders, x, parent, n + 1)
    decreases n
  {
    if n > 0 {
      OneMore(folders, folders[x].parent.value, child, parent, n - 1);
    } else {
      assert Reaches(folders, parent, parent, 0);
    }
  }

  lemma {:induction false} LastBefore(folders: Folders, x: FolderId, top: FolderId, n: nat) returns (child: FolderId)
    requires Reaches(folders, x, top, n) && n > 0
    ensures child in folders && folders[child].parent == Some(top) && Reaches(folders, x, child, n - 1)
    decreases n
  {
    if n == 1 {
      child := x;
    } else {
      child := LastBefore(folders, folders[x].parent.value, top, n - 1);
    }
  }

  lemma DisjointUnion<T>(left: set<T>, right: set<T>)
    requires left !! right
    ensures multiset(left + right) == multiset(left) + multiset(right)
  {
  }

  lemma {:induction false} BuildListsSubtree(flat: seq<Row>, id: FolderId, depth: nat)
    requires DistinctRows(flat) && Rooted(ByID(flat), id, depth)
    ensures multiset(Ids(Build(flat, id, depth))) == multiset(Subtree(ByID(flat), id))
    decreases |ByID(flat)| - depth, 0
  {
    hide ByID, WithParent, DistinctRows, Subtree, Below, BuildAll;
    var children := WithParent(flat, Some(id));
    ChildrenAreDeeper(flat, id, depth);
    WithParentIsExact(flat, Some(id));
    BuildAllListsBelow(flat, children, depth + 1);
    SubtreeIsSelfAndBelow(flat, id, depth);
    DisjointUnion({id}, Below(ByID(flat), children));
    assert Ids(Build(flat, id, depth)) == [id] + IdsAll(BuildAll(flat, children, depth + 1));
  }

  lemma {:induction false} BuildAllListsBelow(flat: seq<Row>, ids: seq<FolderId>, depth: nat)
    requires DistinctRows(flat) && AllAt(ByID(flat), ids, depth)
    requires forall k, l :: 0 <= k < l < |ids| ==> ids[k] != ids[l]
    ensures multiset(IdsAll(BuildAll(flat, ids, depth))) == multiset(Below(ByID(flat), ids))
    decreases |ByID(flat)| - depth, 1 + |ids|
  {
    var folders := ByID(flat);
    if ids == [] {
      assert Below(folders, ids) == {};
    } else {
      assert Rooted(folders, ids[0], depth);
      BuildListsSubtree(flat, ids[0], depth);
      BuildAllListsBelow(flat, ids[1..], depth);
      BelowSplits(folders, ids, depth);
      DisjointUnion(Subtree(folders, ids[0]), Below(folders, ids[1..]));
      var trees := BuildAll(flat, ids, depth);
      assert trees[0] == Build(flat, ids[0], depth) && trees[1..] == BuildAll(flat, ids[1..], depth);
    }
  }

  lemma BelowSplits(folders: Folders, ids: seq<FolderId>, depth: nat)
    requires ids != [] && AllAt(folders, ids, depth)
    requires forall k, l :: 0 <= k < l < |ids| ==> ids[k] != ids[l]
    ensures Below(folders, ids) == Subtree(folders, ids[0]) + Below(folders, ids[1..])
    ensures Subtree(folders, ids[0]) !! Below(folders, ids[1..])
  {
    forall x | x in Below(folders, ids[1..])
      ensures x in Below(folders, ids) && x !in Subtree(folders, ids[0])
    {
      var k :| 0 <= k < |ids[1..]| && InSubtree(folders, x, ids[1..][k]);
      assert ids[1..][k] == ids[k + 1];
      if InSubtree(folders, x, ids[0]) {
        SubtreesDisjoint(folders, x, ids[0], ids[k + 1], depth);
      }
    }
    forall x | x in Below(folders, ids)
      ensures x in Subtree(folders, ids[0]) + Below(folders, ids[1..])
    {
      var k :| 0 <= k < |ids| && InSubtree(folders, x, ids[k]);
      if k > 0 {
        assert ids[1..][k - 1] == ids[k];
      }
    }
  }

  lemma {:induction false} RootAbove(folders: Folders, x: FolderId, n: nat) returns (root: FolderId)
    requires Rooted(folders, x, n)
    ensures root in folders && folders[root].parent.None? && Reaches(folders, x, root, n)
    decreases n
  {
    if n == 0 {
      root := x;
    } else {
      root := RootAbove(folders, folders[x].parent.value, n - 1);
    }
  }

  /**
   For any flat list with distinct IDs, cycles and dangling parents included: the
   tree contains each folder whose parent chain reaches a root exactly once, and
   no other folder.
   */
  lemma TreeHoldsRootedFoldersOnce(flat: seq<Row>)
    requires DistinctRows(flat)
    ensures multiset(IdsAll(Forest(flat))) == multiset(set x | x in ByID(flat) && HasRoot(ByID(flat), x))
  {
    hide ByID, WithParent, DistinctRows, BuildAll, IdsAll;
    var folders, roots := ByID(flat), WithParent(flat, None);
    WithParentIsExact(flat, None);
    RootsAreRooted(flat);
    BuildAllListsBelow(flat, roots, 0);
    forall x | x in folders
      ensures x in Below(folders, roots) <==> HasRoot(folders, x)
    {
      if HasRoot(folders, x) {
        var n: nat :| Rooted(folders, x, n);
        var root := RootAbove(folders, x, n);
        var k :| 0 <= k < |roots| && roots[k] == root;
        assert InSubtree(folders, x, roots[k]);
      }
      if x in Below(folders, roots) {
        var k :| 0 <= k < |roots| && InSubtree(folders, x, roots[k]);
        var n: nat :| Reaches(folders, x, roots[k], n);
        ReachingAddsDepth(folders, x, roots[k], n, 0);
      }
    }
    assert Below(folders, roots) == set x | x in folders && HasRoot(folders, x);
  }

  function Tops(trees: seq<Tree>): (ids: seq<FolderId>)
    ensures |ids| == |trees| && forall k :: 0 <= k < |trees| ==> ids[k] == trees[k].row.id
  {
    if trees == [] then [] else [trees[0].row.id] + Tops(trees[1..])
  }

  /** Every node carries its own row, and its children are its rows of the list, in list order. */
  ghost predicate Shaped(flat: seq<Row>, tree: Tree) {
    && tree.row in flat
    && Tops(tree.children) == WithParent(flat, Some(tree.row.id))
    && forall k :: 0 <= k < |tree.children| ==> Shaped(flat, tree.children[k])
  }

  lemma {:induction false} BuildIsShaped(flat: seq<Row>, id: FolderId, depth: nat)
    requires DistinctRows(flat) && Rooted(ByID(flat), id, depth)
    ensures Shaped(flat, Build(flat, id, depth))
    decreases |ByID(flat)| - depth, 0
  {
    ChildrenAreDeeper(flat, id, depth);
    ByIDHoldsRows(flat);
    BuildAllIsShaped(flat, WithParent(flat, Some(id)), depth + 1);
  }

  lemma {:induction false} BuildAllIsShaped(flat: seq<Row>, ids: seq<FolderId>, depth: nat)
    requires DistinctRows(flat) && AllAt(ByID(flat), ids, depth)
    ensures Tops(BuildAll(flat, ids, depth)) == ids
    ensures forall k :: 0 <= k < |ids| ==> Shaped(flat, BuildAll(flat, ids, depth)[k])
    decreases |ByID(flat)| - depth, 1 + |ids|
  {
    hide ByID, WithParent, Rooted, DistinctRows, Build, Shaped;
    if ids != [] {
      assert Rooted(ByID(flat), ids[0], depth);
      BuildIsShaped(flat, ids[0], depth);
      BuildAllIsShaped(flat, ids[1..], depth);
    }
  }

  /** The roots and all siblings appear in list order, under their own parent. */
  lemma SiblingsKeepListOrder(flat: seq<Row>)
    requires DistinctRows(flat)
    ensures Tops(Forest(flat)) == WithParent(flat, None)
    ensures forall k :: 0 <= k < |Forest(flat)| ==> Shaped(flat, Forest(flat)[k])
  {
    RootsAreRooted(flat);
    BuildAllIsShaped(flat, WithParent(flat, None), 0);
  }

  // ----- the procedure -----

  /** The second map of the source; a folder without children has no entry. */
  ghost predicate ChildTable(flat: seq<Row>, children: map<FolderId, seq<FolderId>>) {
    forall id :: WithParent(flat, Some(id)) == if id in children then children[id] else []
  }

  lemma TableGrows(flat: seq<Row>, n: nat)
    requires n < |flat|
    ensures ByID(flat[..n + 1]) == ByID(flat[..n])[flat[n].id := flat[n].folder]
    ensures forall parent ::
      WithParent(flat[..n + 1], parent)
      == WithParent(flat[..n], parent) + if flat[n].folder.parent == parent then [flat[n].id] else []
  {
    assert flat[..n + 1][..n] == flat[..n];
  }

  /** The child lists after one more row. */
  function WithRow(children: map<FolderId, seq<FolderId>>, row: Row): map<FolderId, seq<FolderId>> {
    if row.folder.parent.None? then children
    else
      var parent := row.folder.parent.value;
      children[parent := (if parent in children then children[parent] else []) + [row.id]]
  }

  lemma ChildTableGrows(flat: seq<Row>, n: nat, children: map<FolderId, seq<FolderId>>)
    requires n < |flat| && ChildTable(flat[..n], children)
    ensures ChildTable(flat[..n + 1], WithRow(children, flat[n]))
  {
    TableGrows(flat, n);
    hide WithParent;
  }

  lemma NoTable()
    ensures ByID([]) == map[] && WithParent([], None) == [] && ChildTable([], map[])
  {
  }

  /** The loop that fills the two maps and collects the roots. */
  method FillTables(flat: seq<Row>)
    returns (byID: map<FolderId, Folder>, children: map<FolderId, seq<FolderId>>, roots: seq<FolderId>)
    ensures byID == ByID(flat) && roots == WithParent(flat, None) && ChildTable(flat, children)
  {
    hide ByID, WithParent, ChildTable;
    byID, children, roots := map[], map[], [];
    NoTable();
    assert flat[..0] == [];
    var i := 0;
    while i < |flat|
      invariant 0 <= i <= |flat|
      invariant byID == ByID(flat[..i]) && roots == WithParent(flat[..i], None)
      invariant ChildTable(flat[..i], children)
    {
      var row := flat[i];
      TableGrows(flat, i);
      ChildTableGrows(flat, i, children);
      byID := byID[row.id := row.folder];
      if row.folder.parent.None? {
        roots := roots + [row.id];
      } else {
        var parent := row.folder.parent.value;
        var known := if parent in children then children[parent] else [];
        children := children[parent := known + [row.id]];
      }
      i := i + 1;
    }
    assert flat[..i] == flat;
  }

  method BuildFolderTree(flat: seq<Row>) returns (items: seq<Tree>)
    requires DistinctRows(flat)
    ensures items == Forest(flat)
  {
    hide ByID, WithParent, DistinctRows, ChildTable, BuildAll;
    var byID, children, roots := FillTables(flat);
    RootsAreRooted(flat);
    items := BuildNodes(roots, byID, children, flat, 0);
  }

  /** The loops over roots and over the children of one folder. */
  method BuildNodes(ids: seq<FolderId>, byID: map<FolderId, Folder>, children: map<FolderId, seq<FolderId>>,
                    ghost flat: seq<Row>, ghost depth: nat) returns (trees: seq<Tree>)
    requires DistinctRows(flat) && byID == ByID(flat) && ChildTable(flat, children)
    requires AllAt(byID, ids, depth)
    ensures trees == BuildAll(flat, ids, depth)
    decreases |byID| - depth, 1, |ids|
  {
    hide ByID, WithParent, Rooted, DistinctRows, ChildTable, Build;
    trees := [];
    var i := 0;
    while i < |ids|
      invariant 0 <= i <= |ids|
      invariant trees + BuildAll(flat, ids[i..], depth) == BuildAll(flat, ids, depth)
    {
      assert Rooted(byID, ids[i], depth);
      var tree := BuildNode(ids[i], byID, children, flat, depth);
      assert ids[i..][1..] == ids[i + 1..];
      trees := trees + [tree];
      i := i + 1;
    }
  }

  lemma ChildTableEntry(flat: seq<Row>, children: map<FolderId, seq<FolderId>>, id: FolderId)
    requires ChildTable(flat, children)
    ensures WithParent(flat, Some(id)) == if id in children then children[id] else []
  {
  }

  lemma RootedIsKnown(folders: Folders, id: FolderId, depth: nat)
    requires Rooted(folders, id, depth)
    ensures id in folders
  {
  }

  lemma BuildUnfolds(flat: seq<Row>, id: FolderId, depth: nat)
    requires DistinctRows(flat) && Rooted(ByID(flat), id, depth)
    requires id in ByID(flat) && AllAt(ByID(flat), WithParent(flat, Some(id)), depth + 1)
    ensures Build(flat, id, depth)
         == Node(Row(id, ByID(flat)[id]), BuildAll(flat, WithParent(flat, Some(id)), depth + 1))
  {
    hide ByID, WithParent, Rooted, DistinctRows, BuildAll;
  }

  method BuildNode(id: FolderId, byID: map<FolderId, Folder>, children: map<FolderId, seq<FolderId>>,
                   ghost flat: seq<Row>, ghost depth: nat) returns (tree: Tree)
    requires DistinctRows(flat) && byID == ByID(flat) && ChildTable(flat, children)
    requires Rooted(byID, id, depth)
    ensures tree == Build(flat, id, depth)
    decreases |byID| - depth, 0
  {
    hide *;
    ChildrenAreDeeper(flat, id, depth);
    ChildTableEntry(flat, children, id);
    RootedIsKnown(byID, id, depth);
    BuildUnfolds(flat, id, depth);
    var below := if id in children then children[id] else [];
    var trees := BuildNodes(below, byID, children, flat, depth + 1);
    tree := Node(Row(id, byID[id]), trees);
  }
}
