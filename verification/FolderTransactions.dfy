/** Every folder transaction as a function on the project's folders and artifacts, and what all runs of them keep. */
module FolderTransactions {
  import opened Common
  import opened FolderForest

  datatype Project = Project(folders: Folders, artifacts: map<ArtifactId, Artifact>)

  datatype Error = NotFound | Cycle | HasChildren | NameConflict | Invalid

  datatype Result = Accepted(project: Project) | Rejected(error: Error)

  predicate ValidName(name: string) {
    1 <= |name| <= 255 && '\r' !in name && '\n' !in name
  }

  predicate Present(folders: Folders, parent: Option<FolderId>) {
    parent.Some? ==> parent.value in folders
  }

  predicate HasChild(folders: Folders, id: FolderId) {
    exists x :: x in folders && folders[x].parent == Some(id)
  }

  function Positions(folders: Folders, parent: Option<FolderId>): set<nat> {
    set x | x in folders && folders[x].parent == parent :: folders[x].position
  }

  /** `MAX(position) + 1`, or 0 when there is none. */
  ghost function AfterLast(positions: set<nat>): (next: nat)
    ensures forall p :: p in positions ==> p < next
    ensures next > 0 ==> next - 1 in positions
  {
    if positions == {} then 0
    else
      var p: nat :| p in positions;
      var rest := AfterLast(positions - {p});
      assert positions == positions - {p} + {p};
      Max(p + 1, rest)
  }

  ghost function NewFolder(folders: Folders, parent: Option<FolderId>, name: string): Folder {
    Folder(parent, name, AfterLast(Positions(folders, parent)))
  }

  ghost function PutFolder(project: Project, id: FolderId, folder: Folder): Project {
    project.(folders := project.folders[id := folder])
  }

  ghost function Create(project: Project, id: FolderId, parent: Option<FolderId>, name: string, lower: string -> string): Result {
    if !ValidName(name) then Rejected(Invalid)
    else if id in project.folders || !NameFree(project.folders, id, parent, name, lower) then Rejected(NameConflict)
    else if !Present(project.folders, parent) then Rejected(NotFound)
    else Accepted(PutFolder(project, id, NewFolder(project.folders, parent, name)))
  }

  ghost function Rename(project: Project, id: FolderId, name: string, lower: string -> string): Result {
    if id !in project.folders then Rejected(NotFound)
    else if !ValidName(name) then Rejected(Invalid)
    else if !NameFree(project.folders, id, project.folders[id].parent, name, lower) then Rejected(NameConflict)
    else Accepted(PutFolder(project, id, project.folders[id].(name := name)))
  }

  ghost function Move(project: Project, id: FolderId, parent: Option<FolderId>, position: Option<nat>, lower: string -> string): Result {
    var folders := project.folders;
    if id !in folders then Rejected(NotFound)
    else if parent == Some(id) then Rejected(Cycle)
    else if !Present(folders, parent) then Rejected(NotFound)
    else if parent.Some? && InSubtree(folders, parent.value, id) then Rejected(Cycle)
    else if !NameFree(folders, id, parent, folders[id].name, lower) then Rejected(NameConflict)
    else
      var position' := if position.Some? then position.value else folders[id].position;
      Accepted(PutFolder(project, id, folders[id].(parent := parent, position := position')))
  }

  /** Every artifact filed in one of the folders moves to the root. */
  function Unfile(artifacts: map<ArtifactId, Artifact>, ids: set<FolderId>): map<ArtifactId, Artifact> {
    map a | a in artifacts ::
      if artifacts[a].folder.Some? && artifacts[a].folder.value in ids then artifacts[a].(folder := None)
      else artifacts[a]
  }

  /**
   A recursive deletion as its three statements run: the artifacts of the subtree
   go to the root, the folders of the subtree become roots, and then the subtree
   is computed again and deleted.
   */
  ghost function DeleteRecursively(project: Project, id: FolderId, lower: string -> string): Result {
    var subtree := Subtree(project.folders, id);
    var detached := Detach(project.folders, subtree);
    if !NamesUnique(detached, lower) then Rejected(NameConflict)
    else Accepted(Project(detached - Subtree(detached, id), Unfile(project.artifacts, subtree)))
  }

  ghost function Delete(project: Project, id: FolderId, recursive: bool, lower: string -> string): Result {
    if id !in project.folders then Rejected(NotFound)
    else if recursive then DeleteRecursively(project, id, lower)
    else if HasChild(project.folders, id) then Rejected(HasChildren)
    else Accepted(Project(project.folders - {id}, Unfile(project.artifacts, {id})))
  }

  ghost function MoveArtifact(project: Project, artifact: ArtifactId, folder: Option<FolderId>): Result {
    if artifact !in project.artifacts || project.artifacts[artifact].trashed then Rejected(NotFound)
    else if !Present(project.folders, folder) then Rejected(NotFound)
    else Accepted(project.(artifacts := project.artifacts[artifact := project.artifacts[artifact].(folder := folder)]))
  }

  // ----- paths -----

  /** One path segment with the ID generated for it. */
  datatype Segment = Segment(name: string, id: FolderId)

  ghost predicate Exists(folders: Folders, parent: Option<FolderId>, name: string, lower: string -> string) {
    exists x :: Named(folders, x, parent, name, lower)
  }

  ghost function Find(folders: Folders, parent: Option<FolderId>, name: string, lower: string -> string): FolderId
    requires Exists(folders, parent, name, lower)
  {
    var x :| Named(folders, x, parent, name, lower);
    x
  }

  datatype PathResult = Resolved(project: Project, leaf: Option<FolderId>) | PathRejected(error: Error)

  /** The loop of `EnsureFolderPath`: create the segment unless that conflicts, then resolve it by name. */
  ghost function EnsurePath(project: Project, parent: Option<FolderId>, path: seq<Segment>, lower: string -> string): PathResult
    decreases |path|
  {
    if path == [] then Resolved(project, parent)
    else
      var segment := path[0];
      if !ValidName(segment.name) then PathRejected(Invalid)
      else if segment.id !in project.folders && NameFree(project.folders, segment.id, parent, segment.name, lower) then
        EnsurePath(PutFolder(project, segment.id, NewFolder(project.folders, parent, segment.name)),
                   Some(segment.id), path[1..], lower)
      else if Exists(project.folders, parent, segment.name, lower) then
        EnsurePath(project, Some(Find(project.folders, parent, segment.name, lower)), path[1..], lower)
      else PathRejected(NotFound)
  }

  // ----- what every transaction keeps -----

  /** No artifact is filed in a folder that is not there. */
  ghost predicate Filed(project: Project) {
    forall a :: a in project.artifacts ==> Present(project.folders, project.artifacts[a].folder)
  }

  ghost predicate Sound(project: Project, lower: string -> string) {
    Forest(project.folders) && NamesUnique(project.folders, lower) && Filed(project)
  }

  lemma CreateKeepsSound(project: Project, id: FolderId, parent: Option<FolderId>, name: string, lower: string -> string)
    requires Sound(project, lower) && id !in project.folders && Present(project.folders, parent)
    requires NameFree(project.folders, id, parent, name, lower)
    ensures Sound(PutFolder(project, id, NewFolder(project.folders, parent, name)), lower)
  {
    var folder := NewFolder(project.folders, parent, name);
    CreateKeepsForest(project.folders, id, folder);
    PutKeepsNames(project.folders, id, folder, lower);
  }

  lemma MoveKeepsSound(project: Project, id: FolderId, parent: Option<FolderId>, position: Option<nat>, lower: string -> string)
    requires Sound(project, lower) && Move(project, id, parent, position, lower).Accepted?
    ensures Sound(Move(project, id, parent, position, lower).project, lower)
  {
    var moved := Move(project, id, parent, position, lower).project.folders[id];
    MoveKeepsForest(project.folders, id, moved);
    PutKeepsNames(project.folders, id, moved, lower);
  }

  lemma RenameKeepsSound(project: Project, id: FolderId, name: string, lower: string -> string)
    requires Sound(project, lower) && Rename(project, id, name, lower).Accepted?
    ensures Sound(Rename(project, id, name, lower).project, lower)
  {
    var renamed := project.folders[id].(name := name);
    var parent := project.folders[id].parent;
    if parent.Some? {
      ParentsPresent(project.folders, id);
      NotBelowItself(project.folders, id);
    }
    MoveKeepsForest(project.folders, id, renamed);
    PutKeepsNames(project.folders, id, renamed, lower);
  }

  /** In a forest no folder's parent lies in the folder's own subtree. */
  lemma NotBelowItself(folders: Folders, id: FolderId)
    requires Forest(folders) && id in folders && folders[id].parent.Some?
    ensures !InSubtree(folders, folders[id].parent.value, id)
  {
    if InSubtree(folders, folders[id].parent.value, id) {
      var n: nat :| Reaches(folders, folders[id].parent.value, id, n);
      assert Reaches(folders, id, id, n + 1) && Reaches(folders, id, id, 0);
      DistanceIsUnique(folders, id, id, n + 1, 0);
    }
  }

  /**
   The names of the subtree, all of which become names of roots: no two of them are the same
   up to case, and no other root carries one of them.
   */
  ghost predicate SubtreeNamesFree(folders: Folders, id: FolderId, lower: string -> string) {
    && (forall x, y :: x in Subtree(folders, id) && y in Subtree(folders, id) && x != y ==>
          lower(folders[x].name) != lower(folders[y].name))
    && forall x, y :: x in Subtree(folders, id) && y in folders && y !in Subtree(folders, id) && folders[y].parent.None? ==>
         lower(folders[x].name) != lower(folders[y].name)
  }

  lemma DetachedName(folders: Folders, id: FolderId, x: FolderId)
    requires x in folders
    ensures
      var detached := Detach(folders, Subtree(folders, id));
      && x in detached && detached[x].name == folders[x].name
      && detached[x].parent == if x in Subtree(folders, id) then None else folders[x].parent
  {
  }

  lemma NamesCollide(folders: Folders, x: FolderId, y: FolderId, lower: string -> string)
    requires x in folders && y in folders && x != y && folders[x].parent == folders[y].parent
    requires lower(folders[x].name) == lower(folders[y].name)
    ensures !NamesUnique(folders, lower)
  {
  }

  lemma DetachedNamesUnique(folders: Folders, id: FolderId, lower: string -> string)
    requires NamesUnique(folders, lower)
    ensures NamesUnique(Detach(folders, Subtree(folders, id)), lower) <==> SubtreeNamesFree(folders, id, lower)
  {
    var subtree := Subtree(folders, id);
    var detached := Detach(folders, subtree);
    forall x | x in folders
      ensures x in detached && detached[x].name == folders[x].name
      ensures detached[x].parent == if x in subtree then None else folders[x].parent
    {
      DetachedName(folders, id, x);
    }
    hide Detach, Subtree;
    if SubtreeNamesFree(folders, id, lower) {
      forall x, y | x in folders && y in folders && x != y && detached[x].parent == detached[y].parent
        ensures lower(folders[x].name) != lower(folders[y].name)
      {
      }
    } else if x, y :| x in subtree && y in folders && x != y && (y in subtree || folders[y].parent.None?)
                      && lower(folders[x].name) == lower(folders[y].name) {
      NamesCollide(detached, x, y, lower);
    }
  }

  /**
   A recursive deletion is accepted exactly when the names that become names of roots are
   free there. Then the selected folder goes, every folder below it becomes a root with its
   name and position, everything else stays, and the artifacts of the subtree are unfiled.
   */
  lemma RecursiveDeletionEffect(project: Project, id: FolderId, lower: string -> string)
    requires Sound(project, lower) && id in project.folders
    ensures
      var result := Delete(project, id, true, lower);
      var subtree := Subtree(project.folders, id);
      if SubtreeNamesFree(project.folders, id, lower) then
        && result == Accepted(Project(Detach(project.folders, subtree) - {id}, Unfile(project.artifacts, subtree)))
        && Sound(result.project, lower)
      else result == Rejected(NameConflict)
  {
    var subtree := Subtree(project.folders, id);
    var detached := Detach(project.folders, subtree);
    DetachedNamesUnique(project.folders, id, lower);
    DetachKeepsForest(project.folders, id);
    DetachedSubtreeIsAlone(project.folders, id);
    RemoveKeepsForest(detached, id);
    assert Reaches(project.folders, id, id, 0);
    hide SubtreeNamesFree;
  }

  lemma SubtreeIsSelfIffLeaf(folders: Folders, id: FolderId)
    requires Forest(folders) && id in folders
    ensures Subtree(folders, id) == {id} <==> !HasChild(folders, id)
  {
    assert Reaches(folders, id, id, 0);
    if HasChild(folders, id) {
      var x :| x in folders && folders[x].parent == Some(id);
      assert Reaches(folders, x, id, 1);
      if x == id {
        NotBelowItself(folders, id);
      }
      assert x in Subtree(folders, id);
    } else {
      forall x | x in Subtree(folders, id)
        ensures x == id
      {
        if x != id {
          OnePredecessor(folders, x, id);
        }
      }
    }
  }

  lemma LeafNameFree(folders: Folders, id: FolderId, lower: string -> string)
    requires id in folders && Subtree(folders, id) == {id}
    ensures SubtreeNamesFree(folders, id, lower) <==> NameFree(folders, id, None, folders[id].name, lower)
  {
    hide Subtree;
    if !NameFree(folders, id, None, folders[id].name, lower) {
      var x :| x in folders && x != id && Named(folders, x, None, folders[id].name, lower);
      assert lower(folders[id].name) == lower(folders[x].name);
    }
    if NameFree(folders, id, None, folders[id].name, lower) {
      forall y | y in folders && y != id && folders[y].parent.None?
        ensures lower(folders[id].name) != lower(folders[y].name)
      {
        assert !Named(folders, y, None, folders[id].name, lower);
      }
    }
  }

  /** The deletion goes through and takes the selected subtree, and nothing else. */
  ghost predicate RemovesSubtree(project: Project, id: FolderId, lower: string -> string) {
    var result := Delete(project, id, true, lower);
    && result.Accepted?
    && result.project.folders.Keys == project.folders.Keys - Subtree(project.folders, id)
  }

  /**
   The comment in the source intends a recursive deletion to remove the selected subtree.
   For any project and folder it does so exactly when the folder has no children and no
   other root carries its name up to case.
   */
  lemma RecursiveDeletionRemovesSubtreeIff(project: Project, id: FolderId, lower: string -> string)
    requires Sound(project, lower) && id in project.folders
    ensures RemovesSubtree(project, id, lower)
      <==> !HasChild(project.folders, id) && NameFree(project.folders, id, None, project.folders[id].name, lower)
  {
    var folders, result := project.folders, Delete(project, id, true, lower);
    RecursiveDeletionEffect(project, id, lower);
    SubtreeIsSelfIffLeaf(folders, id);
    assert Reaches(folders, id, id, 0);
    if Subtree(folders, id) == {id} {
      LeafNameFree(folders, id, lower);
    }
    if result.Accepted? {
      assert result.project.folders.Keys == folders.Keys - {id};
    }
    hide SubtreeNamesFree, Subtree, DeleteRecursively;
  }

  const PARENT_WITH_CHILD: Folders := map["p" := Folder(None, "x", 0), "c" := Folder(Some("p"), "y", 0)]

  lemma ParentWithChildIsSound(lower: string -> string)
    ensures Sound(Project(PARENT_WITH_CHILD, map[]), lower)
    ensures Subtree(PARENT_WITH_CHILD, "p") == {"p", "c"}
  {
    var folders := PARENT_WITH_CHILD;
    assert Rooted(folders, "p", 0) && Rooted(folders, "c", 1);
    assert Reaches(folders, "p", "p", 0) && Reaches(folders, "c", "p", 1);
  }

  lemma ParentWithChildNames(lower: string -> string)
    requires lower("x") != lower("y") && Subtree(PARENT_WITH_CHILD, "p") == {"p", "c"}
    ensures SubtreeNamesFree(PARENT_WITH_CHILD, "p", lower) && HasChild(PARENT_WITH_CHILD, "p")
  {
    assert PARENT_WITH_CHILD["c"].parent == Some("p");
    hide Subtree;
  }

  lemma ParentWithChildDetached()
    ensures Detach(PARENT_WITH_CHILD, {"p", "c"}) - {"p"} == map["c" := Folder(None, "y", 0)]
    ensures Unfile(map[], {"p", "c"}) == map[]
  {
    var rest := Detach(PARENT_WITH_CHILD, {"p", "c"}) - {"p"};
    assert rest.Keys == {"c"} && rest["c"] == Folder(None, "y", 0);
  }

  /** Failing input: a parent with one child. The child survives its parent's recursive deletion as a root. */
  lemma ParentWithChildWitness(lower: string -> string)
    requires lower("x") != lower("y")
    ensures
      var project := Project(PARENT_WITH_CHILD, map[]);
      && Sound(project, lower)
      && !RemovesSubtree(project, "p", lower)
      && Delete(project, "p", true, lower) == Accepted(Project(map["c" := Folder(None, "y", 0)], map[]))
  {
    var project := Project(PARENT_WITH_CHILD, map[]);
    assert "p" in PARENT_WITH_CHILD;
    hide *;
    ParentWithChildIsSound(lower);
    ParentWithChildNames(lower);
    ParentWithChildDetached();
    RecursiveDeletionRemovesSubtreeIff(project, "p", lower);
    RecursiveDeletionEffect(project, "p", lower);
  }

  const COLLIDING_LEAF: Folders :=
    map["a" := Folder(None, "x", 0), "b" := Folder(None, "y", 1), "c" := Folder(Some("b"), "x", 0)]

  lemma CollidingLeafIsSound(lower: string -> string)
    requires lower("x") != lower("y")
    ensures Sound(Project(COLLIDING_LEAF, map[]), lower)
    ensures !HasChild(COLLIDING_LEAF, "c")
    ensures !NameFree(COLLIDING_LEAF, "c", None, "x", lower)
  {
    var folders := COLLIDING_LEAF;
    assert Rooted(folders, "a", 0) && Rooted(folders, "b", 0) && Rooted(folders, "c", 1);
    assert Named(folders, "a", None, "x", lower);
  }

  /**
   Failing input: a leaf that carries the name of a root. The recursive deletion is refused
   and removes nothing, although the plain deletion of the same folder is accepted.
   */
  lemma CollidingLeafWitness(lower: string -> string)
    requires lower("x") != lower("y")
    ensures
      var project := Project(COLLIDING_LEAF, map[]);
      && Sound(project, lower)
      && !HasChild(COLLIDING_LEAF, "c") && !RemovesSubtree(project, "c", lower)
      && Delete(project, "c", true, lower) == Rejected(NameConflict)
      && Delete(project, "c", false, lower) == Accepted(Project(COLLIDING_LEAF - {"c"}, map[]))
  {
    var project := Project(COLLIDING_LEAF, map[]);
    assert COLLIDING_LEAF["c"].name == "x" && "c" in COLLIDING_LEAF;
    CollidingLeafIsSound(lower);
    assert Delete(project, "c", false, lower) == Accepted(Project(COLLIDING_LEAF - {"c"}, map[])) by {
      assert Unfile(map[], {"c"}) == map[];
      hide Sound, NameFree, DeleteRecursively;
    }
    hide *;
    SubtreeIsSelfIffLeaf(COLLIDING_LEAF, "c");
    LeafNameFree(COLLIDING_LEAF, "c", lower);
    RecursiveDeletionEffect(project, "c", lower);
    RecursiveDeletionRemovesSubtreeIff(project, "c", lower);
  }

  lemma DeleteKeepsSound(project: Project, id: FolderId, recursive: bool, lower: string -> string)
    requires Sound(project, lower) && Delete(project, id, recursive, lower).Accepted?
    ensures Sound(Delete(project, id, recursive, lower).project, lower)
  {
    if recursive {
      RecursiveDeletionEffect(project, id, lower);
    } else {
      RemoveKeepsForest(project.folders, id);
    }
  }

  // ----- paths: what they spell, and that they are stable -----

  /** From `parent` down, the names along the way to `leaf` are the given ones up to case. */
  ghost predicate Spells(folders: Folders, parent: Option<FolderId>, path: seq<Segment>, leaf: Option<FolderId>, lower: string -> string)
    decreases |path|
  {
    if path == [] then parent == leaf
    else exists x :: Named(folders, x, parent, path[0].name, lower) && Spells(folders, Some(x), path[1..], leaf, lower)
  }

  ghost predicate Extends(before: Folders, after: Folders) {
    forall x :: x in before ==> x in after && after[x] == before[x]
  }

  ghost predicate PathEnsured(project: Project, parent: Option<FolderId>, path: seq<Segment>, result: PathResult, lower: string -> string) {
    && result.Resolved?
    && Sound(result.project, lower)
    && Present(result.project.folders, result.leaf)
    && result.project.artifacts == project.artifacts
    && Extends(project.folders, result.project.folders)
    && Spells(result.project.folders, parent, path, result.leaf, lower)
    && forall k :: 0 <= k < |path| ==> ValidName(path[k].name)
  }

  /** One segment resolved to `x`, then the rest of the path below it. */
  lemma PathExtends(project: Project, next: Project, parent: Option<FolderId>, path: seq<Segment>, x: FolderId,
                    result: PathResult, lower: string -> string)
    requires path != [] && ValidName(path[0].name) && Named(next.folders, x, parent, path[0].name, lower)
    requires PathEnsured(next, Some(x), path[1..], result, lower)
    requires next.artifacts == project.artifacts && Extends(project.folders, next.folders)
    ensures PathEnsured(project, parent, path, result, lower)
  {
    assert Named(result.project.folders, x, parent, path[0].name, lower);
    hide Sound;
  }

  lemma {:induction false} EnsurePathEffect(project: Project, parent: Option<FolderId>, path: seq<Segment>, lower: string -> string)
    requires Sound(project, lower) && Present(project.folders, parent)
    requires EnsurePath(project, parent, path, lower).Resolved?
    ensures PathEnsured(project, parent, path, EnsurePath(project, parent, path, lower), lower)
    decreases |path|
  {
    if path != [] {
      hide Sound, PathEnsured, NameFree;
      var segment := path[0];
      var result := EnsurePath(project, parent, path, lower);
      if segment.id !in project.folders && NameFree(project.folders, segment.id, parent, segment.name, lower) {
        CreateKeepsSound(project, segment.id, parent, segment.name, lower);
        var created := PutFolder(project, segment.id, NewFolder(project.folders, parent, segment.name));
        EnsurePathEffect(created, Some(segment.id), path[1..], lower);
        PathExtends(project, created, parent, path, segment.id, result, lower);
      } else {
        var x := Find(project.folders, parent, segment.name, lower);
        EnsurePathEffect(project, Some(x), path[1..], lower);
        PathExtends(project, project, parent, path, x, result, lower);
      }
    }
  }

  /** A path that is already there is found again, whatever IDs were generated for it. */
  lemma {:induction false} ExistingPathIsFound(project: Project, parent: Option<FolderId>, path: seq<Segment>,
                                               again: seq<Segment>, leaf: Option<FolderId>, lower: string -> string)
    requires NamesUnique(project.folders, lower) && Spells(project.folders, parent, path, leaf, lower)
    requires |again| == |path| && forall k :: 0 <= k < |path| ==> again[k].name == path[k].name && ValidName(path[k].name)
    ensures EnsurePath(project, parent, again, lower) == Resolved(project, leaf)
    decreases |path|
  {
    if path != [] {
      var x :| Named(project.folders, x, parent, path[0].name, lower)
               && Spells(project.folders, Some(x), path[1..], leaf, lower);
      assert Exists(project.folders, parent, again[0].name, lower);
      var found := Find(project.folders, parent, again[0].name, lower);
      assert found == x;
      ExistingPathIsFound(project, Some(x), path[1..], again[1..], leaf, lower);
    }
  }

  /**
   `EnsureFolderPath` returns a folder whose ancestor names spell the path up to
   case, keeps every folder that was there, never makes two siblings that differ
   only in case, and when called again returns the same folder and adds none.
   */
  lemma EnsurePathIsIdempotent(project: Project, path: seq<Segment>, again: seq<Segment>, lower: string -> string)
    requires Sound(project, lower) && EnsurePath(project, None, path, lower).Resolved?
    requires |again| == |path| && forall k :: 0 <= k < |path| ==> again[k].name == path[k].name
    ensures
      var first := EnsurePath(project, None, path, lower);
      && Spells(first.project.folders, None, path, first.leaf, lower)
      && NamesUnique(first.project.folders, lower)
      && Extends(project.folders, first.project.folders)
      && EnsurePath(first.project, None, again, lower) == first
  {
    var first := EnsurePath(project, None, path, lower);
    EnsurePathEffect(project, None, path, lower);
    ExistingPathIsFound(first.project, None, path, again, first.leaf, lower);
  }

  // ----- every run -----

  datatype Operation =
    | CreateFolder(id: FolderId, parent: Option<FolderId>, name: string)
    | EnsureFolderPath(path: seq<Segment>)
    | RenameFolder(id: FolderId, name: string)
    | MoveFolder(id: FolderId, parent: Option<FolderId>, position: Option<nat>)
    | DeleteFolder(id: FolderId, recursive: bool)
    | FileArtifact(artifact: ArtifactId, folder: Option<FolderId>)

  ghost function Outcome(project: Project, operation: Operation, lower: string -> string): Result {
    match operation
    case CreateFolder(id, parent, name) => Create(project, id, parent, name, lower)
    case EnsureFolderPath(path) =>
      (match EnsurePath(project, None, path, lower)
       case Resolved(after, _) => Accepted(after)
       case PathRejected(error) => Rejected(error))
    case RenameFolder(id, name) => Rename(project, id, name, lower)
    case MoveFolder(id, parent, position) => Move(project, id, parent, position, lower)
    case DeleteFolder(id, recursive) => Delete(project, id, recursive, lower)
    case FileArtifact(artifact, folder) => MoveArtifact(project, artifact, folder)
  }

  ghost function Perform(project: Project, operations: seq<Operation>, lower: string -> string): Project
    decreases |operations|
  {
    if operations == [] then project
    else
      var outcome := Outcome(project, operations[0], lower);
      Perform(if outcome.Accepted? then outcome.project else project, operations[1..], lower)
  }

  lemma OperationKeepsSound(project: Project, operation: Operation, lower: string -> string)
    requires Sound(project, lower) && Outcome(project, operation, lower).Accepted?
    ensures Sound(Outcome(project, operation, lower).project, lower)
    ensures Outcome(project, operation, lower).project.artifacts.Keys == project.artifacts.Keys
  {
    match operation
    case CreateFolder(id, parent, name) => CreateKeepsSound(project, id, parent, name, lower);
    case EnsureFolderPath(path) => EnsurePathEffect(project, None, path, lower);
    case RenameFolder(id, name) => RenameKeepsSound(project, id, name, lower);
    case MoveFolder(id, parent, position) => MoveKeepsSound(project, id, parent, position, lower);
    case DeleteFolder(id, recursive) => DeleteKeepsSound(project, id, recursive, lower);
    case FileArtifact(artifact, folder) =>
  }

  /**
   Any sequence of folder transactions keeps the parent graph a forest with every
   parent present, keeps sibling names unique up to case, loses no artifact, and
   leaves no artifact in a folder that is not there.
   */
  lemma {:induction false} EveryRunKeepsForest(project: Project, operations: seq<Operation>, lower: string -> string)
    requires Sound(project, lower)
    ensures Sound(Perform(project, operations, lower), lower)
    ensures Perform(project, operations, lower).artifacts.Keys == project.artifacts.Keys
    decreases |operations|
  {
    if operations != [] {
      var outcome := Outcome(project, operations[0], lower);
      if outcome.Accepted? {
        OperationKeepsSound(project, operations[0], lower);
        EveryRunKeepsForest(outcome.project, operations[1..], lower);
      } else {
        EveryRunKeepsForest(project, operations[1..], lower);
      }
    }
  }
}
