/** Folders and the files in them (apps/api/src/files.ts). */
module Folders {
  import opened Base
  import opened Closure

  datatype Folder = Folder(owner: nat, parent: Option<nat>, deleted: bool)

  /** `available` is the file's and its object's state, `expired` compares its expiry with the clock. */
  datatype Entry = Entry(owner: nat, folder: Option<nat>, available: bool, expired: bool)

  datatype Tree = Tree(folders: seq<Folder>, files: seq<Entry>)

  // Queries.

  /** From a folder to the folders directly inside it. */
  function Down(folders: seq<Folder>): Relation {
    (x: nat, y: nat) => y < |folders| && folders[y].parent == Some(x)
  }

  /** From a folder to the folder it is in. */
  function Up(folders: seq<Folder>): Relation {
    (x: nat, y: nat) => x < |folders| && folders[x].parent == Some(y)
  }

  function Ancestors(folders: seq<Folder>, f: nat): set<nat> {
    Reach(|folders|, Up(folders), {f})
  }

  function Descendants(folders: seq<Folder>, f: nat): set<nat> {
    Reach(|folders|, Down(folders), {f})
  }

  predicate Removed(folders: seq<Folder>, f: nat) {
    f < |folders| && folders[f].deleted
  }

  /** `active` tells which accounts are active. `None` is the 404. */
  predicate AccessibleFile(tree: Tree, active: nat -> bool, f: nat) {
    && f < |tree.files|
    && tree.files[f].available && active(tree.files[f].owner) && !tree.files[f].expired
    && (tree.files[f].folder.Some? ==>
          forall a :: a in Ancestors(tree.folders, tree.files[f].folder.value) ==> !Removed(tree.folders, a))
  }

  // Requests.

  /** ensureFolder: the place exists, belongs to the account and is not in the trash. */
  predicate EnsureFolder(folders: seq<Folder>, place: Option<nat>, owner: nat) {
    place.Some? ==>
      place.value < |folders| && folders[place.value].owner == owner && !folders[place.value].deleted
  }

  function CreateFolder(tree: Tree, owner: nat, parent: Option<nat>): Option<Tree> {
    if !EnsureFolder(tree.folders, parent, owner) then None
    else Some(tree.(folders := tree.folders + [Folder(owner, parent, false)]))
  }

  /** `move` is the new parent, if one was sent; `trash` the new deletion mark, if one was sent. */
  function UpdateFolder(tree: Tree, owner: nat, f: nat, move: Option<Option<nat>>, trash: Option<bool>): Option<Tree> {
    if f >= |tree.folders| || tree.folders[f].owner != owner then None
    else if move.Some? && !EnsureFolder(tree.folders, move.value, owner) then None
    else if move.Some? && move.value.Some? && move.value.value in Descendants(tree.folders, f) then None
    else
      var row := tree.folders[f];
      Some(tree.(folders := tree.folders[f := row.(
        parent := if move.Some? then move.value else row.parent,
        deleted := if trash.Some? then trash.value else row.deleted)]))
  }

  function PlaceFile(tree: Tree, owner: nat, place: Option<nat>, available: bool, expired: bool): Option<Tree> {
    if !EnsureFolder(tree.folders, place, owner) then None
    else Some(tree.(files := tree.files + [Entry(owner, place, available, expired)]))
  }

  function MoveFile(tree: Tree, owner: nat, f: nat, place: Option<nat>): Option<Tree> {
    if f >= |tree.files| || tree.files[f].owner != owner || !EnsureFolder(tree.folders, place, owner) then None
    else Some(tree.(files := tree.files[f := tree.files[f].(folder := place)]))
  }

  /** Without a destination the copy stays beside its original, even in a folder that is in the trash. */
  function CopyFile(tree: Tree, owner: nat, f: nat, place: Option<nat>): Option<Tree> {
    if f >= |tree.files| || tree.files[f].owner != owner || !EnsureFolder(tree.folders, place, owner) then None
    else
      var folder := if place.Some? then place else tree.files[f].folder;
      Some(tree.(files := tree.files + [tree.files[f].(folder := folder)]))
  }

  /** The moderator's edit: a new owner takes the file out of its folder, a new folder must be the owner's. */
  function AdminFile(tree: Tree, f: nat, newOwner: Option<nat>, move: Option<Option<nat>>): Option<Tree> {
    if f >= |tree.files| then None
    else
      var row := tree.files[f];
      var owner := if newOwner.Some? then newOwner.value else row.owner;
      if move.Some? && !EnsureFolder(tree.folders, move.value, owner) then None
      else
        Some(tree.(files := tree.files[f := row.(
          owner := owner,
          folder := if newOwner.Some? then None else if move.Some? then move.value else row.folder)]))
  }

  /** Anything else that changes a file: its state, its object's state, its expiry, the clock. */
  function Mark(tree: Tree, f: nat, available: bool, expired: bool): Option<Tree> {
    if f >= |tree.files| then None
    else Some(tree.(files := tree.files[f := tree.files[f].(available := available, expired := expired)]))
  }

  /** The folder and file rows the handlers change. */
  class FolderTables {
    var folders: seq<Folder>
    var files: seq<Entry>

    function State(): Tree
      reads this
    {
      Tree(folders, files)
    }

    constructor ()
      ensures State() == Tree([], [])
    {
      folders, files := [], [];
    }

    method PostFolder(owner: nat, parent: Option<nat>) returns (ok: bool)
      modifies this
      ensures var r := CreateFolder(old(State()), owner, parent);
        ok == r.Some? && State() == if ok then r.value else old(State())
    {
      if !EnsureFolder(folders, parent, owner) { return false; }
      folders := folders + [Folder(owner, parent, false)];
      ok := true;
    }

    method PatchFolder(owner: nat, f: nat, move: Option<Option<nat>>, trash: Option<bool>) returns (ok: bool)
      modifies this
      ensures var r := UpdateFolder(old(State()), owner, f, move, trash);
        ok == r.Some? && State() == if ok then r.value else old(State())
    {
      if f >= |folders| || folders[f].owner != owner { return false; }
      if move.Some? {
        if !EnsureFolder(folders, move.value, owner) { return false; }
        if move.value.Some? {
          var children := Descendants(folders, f);
          if move.value.value in children { return false; }
        }
      }
      var row := folders[f];
      if move.Some? {
        row := row.(parent := move.value);
      }
      if trash.Some? {
        row := row.(deleted := trash.value);
      }
      folders := folders[f := row];
      ok := true;
    }

    method AdminPatch(f: nat, newOwner: Option<nat>, move: Option<Option<nat>>) returns (ok: bool)
      modifies this
      ensures var r := AdminFile(old(State()), f, newOwner, move);
        ok == r.Some? && State() == if ok then r.value else old(State())
    {
      if f >= |files| { return false; }
      var row := files[f];
      if move.Some? && !EnsureFolder(folders, move.value, if newOwner.Some? then newOwner.value else row.owner) {
        return false;
      }
      if newOwner.Some? {
        row := row.(owner := newOwner.value, folder := None);
      } else if move.Some? {
        row := row.(folder := move.value);
      }
      files := files[f := row];
      ok := true;
    }

    /** The bulk move: one file that is not the account's rolls the whole request back. */
    method MoveFiles(owner: nat, ids: seq<nat>, place: Option<nat>) returns (ok: bool)
      modifies this
      ensures var r := MoveAll(old(State()), owner, ids, place);
        ok == r.Some? && State() == if ok then r.value else old(State())
    {
      var saved := files;
      assert ids[..0] == [];
      if !EnsureFolder(folders, place, owner) {
        MoveFails(State(), owner, ids, place, 0);
        return false;
      }
      for i := 0 to |ids|
        invariant folders == old(folders)
        invariant MoveAll(old(State()), owner, ids[..i], place) == Some(State())
      {
        assert ids[..i + 1][..i] == ids[..i];
        if ids[i] >= |files| || files[ids[i]].owner != owner {
          files := saved;
          MoveFails(old(State()), owner, ids, place, i + 1);
          return false;
        }
        files := files[ids[i] := files[ids[i]].(folder := place)];
      }
      assert ids[..|ids|] == ids;
      ok := true;
    }
  }

  function MoveAll(tree: Tree, owner: nat, ids: seq<nat>, place: Option<nat>): Option<Tree> {
    if |ids| == 0 then if EnsureFolder(tree.folders, place, owner) then Some(tree) else None
    else
      match MoveAll(tree, owner, ids[..|ids| - 1], place)
      case None => None
      case Some(before) => MoveFile(before, owner, ids[|ids| - 1], place)
  }

  lemma {:induction false} MoveFails(tree: Tree, owner: nat, ids: seq<nat>, place: Option<nat>, k: nat)
    requires k <= |ids| && MoveAll(tree, owner, ids[..k], place).None?
    ensures MoveAll(tree, owner, ids, place).None?
    decreases |ids|
  {
    if k == |ids| {
      assert ids[..k] == ids;
    } else {
      assert ids[..|ids| - 1][..k] == ids[..k];
      MoveFails(tree, owner, ids[..|ids| - 1], place, k);
    }
  }

  // The forest.

  predicate SameOwner(folders: seq<Folder>, f: nat)
    requires f < |folders|
  {
    folders[f].parent.Some? ==>
      folders[f].parent.value < |folders| && folders[folders[f].parent.value].owner == folders[f].owner
  }

  predicate OneOwnerPerTree(folders: seq<Folder>) {
    forall f {:trigger folders[f]} :: 0 <= f < |folders| ==> SameOwner(folders, f)
  }

  predicate FilesWithOwners(tree: Tree) {
    forall f {:trigger tree.files[f]} :: 0 <= f < |tree.files| && tree.files[f].folder.Some? ==>
      var g := tree.files[f].folder.value;
      g < |tree.folders| && tree.folders[g].owner == tree.files[f].owner
  }

  /** Each folder ranks above the folder it is in, so no chain of parents can come back. */
  predicate Ranked(folders: seq<Folder>, rank: seq<nat>) {
    && |rank| == |folders|
    && forall f {:trigger folders[f]} :: 0 <= f < |folders| && folders[f].parent.Some? ==>
         folders[f].parent.value < |folders| && rank[folders[f].parent.value] < rank[f]
  }

  ghost predicate Acyclic(folders: seq<Folder>) {
    exists rank :: Ranked(folders, rank)
  }

  ghost predicate Forest(tree: Tree) {
    OneOwnerPerTree(tree.folders) && Acyclic(tree.folders) && FilesWithOwners(tree)
  }

  lemma {:induction false} RankGrowsAlong(folders: seq<Folder>, rank: seq<nat>, p: seq<nat>)
    requires Ranked(folders, rank) && Path(|folders|, Down(folders), p)
    ensures |p| > 1 ==> rank[p[0]] < rank[p[|p| - 1]]
    decreases |p|
  {
    if |p| > 1 {
      assert Down(folders)(p[0], p[1]);
      assert folders[p[1]].parent == Some(p[0]);
      RankGrowsAlong(folders, rank, p[1..]);
    }
  }

  /** What acyclic means: no folder is inside itself, however deep. */
  lemma NoFolderInsideItself(folders: seq<Folder>, f: nat, child: nat)
    requires Acyclic(folders) && child < |folders| && folders[child].parent == Some(f)
    ensures f !in Descendants(folders, child)
  {
    var rank :| Ranked(folders, rank);
    assert rank[f] < rank[child];
    if f in Descendants(folders, child) {
      ReachExact(|folders|, Down(folders), {child}, f);
      var p :| Path(|folders|, Down(folders), p) && p[0] == child && p[|p| - 1] == f;
      RankGrowsAlong(folders, rank, p);
    }
  }

  function Moved(folders: seq<Folder>, f: nat, parent: Option<nat>): seq<Folder>
    requires f < |folders|
  {
    folders[f := folders[f].(parent := parent)]
  }

  function Lift(rank: seq<nat>, inside: set<nat>, lift: nat): (r: seq<nat>)
    ensures |r| == |rank|
  {
    seq(|rank|, x requires 0 <= x < |rank| => if x in inside then rank[x] + lift else rank[x])
  }

  /** Moving a folder out of its own subtree keeps the order: the subtree is lifted above its new parent. */
  lemma LiftRanks(folders: seq<Folder>, rank: seq<nat>, f: nat, parent: nat)
    requires Ranked(folders, rank) && f < |folders| && parent < |folders|
    requires parent !in Descendants(folders, f)
    ensures Ranked(Moved(folders, f, Some(parent)), Lift(rank, Descendants(folders, f), rank[parent] + 1))
  {
    var n := |folders|;
    var inside := Descendants(folders, f);
    ReachClosed(n, Down(folders), {f});
    var moved, lifted := Moved(folders, f, Some(parent)), Lift(rank, inside, rank[parent] + 1);
    forall x | 0 <= x < n && moved[x].parent.Some?
      ensures moved[x].parent.value < n && lifted[moved[x].parent.value] < lifted[x]
    {
      if x != f {
        var q := folders[x].parent.value;
        assert folders[x].parent == Some(q);
        assert q in inside ==> Down(folders)(q, x);
      }
    }
  }

  /** The cycle check is exact: a move keeps the forest acyclic if and only if it is not into the subtree. */
  lemma MoveKeepsAcyclicExactly(folders: seq<Folder>, f: nat, parent: nat)
    requires Acyclic(folders) && f < |folders| && parent < |folders|
    ensures Acyclic(Moved(folders, f, Some(parent))) <==> parent !in Descendants(folders, f)
  {
    var moved := Moved(folders, f, Some(parent));
    if parent !in Descendants(folders, f) {
      var rank :| Ranked(folders, rank);
      LiftRanks(folders, rank, f, parent);
    } else {
      if Acyclic(moved) {
        var rank :| Ranked(folders, rank);
        DescendantsSurviveMove(folders, rank, f, parent);
        NoFolderInsideItself(moved, parent, f);
      }
    }
  }

  /** Inside the subtree nothing but its root has its parent changed. */
  lemma DescendantsSurviveMove(folders: seq<Folder>, rank: seq<nat>, f: nat, x: nat)
    requires Ranked(folders, rank) && f < |folders| && x in Descendants(folders, f)
    ensures forall parent :: x in Descendants(Moved(folders, f, parent), f)
  {
    forall parent
      ensures x in Descendants(Moved(folders, f, parent), f)
    {
      var n := |folders|;
      ReachExact(n, Down(folders), {f}, x);
      var p :| Path(n, Down(folders), p) && p[0] == f && p[|p| - 1] == x;
      var moved := Moved(folders, f, parent);
      forall i | 0 <= i < |p| - 1
        ensures Down(moved)(p[i], p[i + 1])
      {
        assert Down(folders)(p[i], p[i + 1]);
        RankGrowsAlong(folders, rank, p[..i + 2]);
      }
      assert Path(n, Down(moved), p);
      assert Connected(n, Down(moved), f, x);
      ReachComplete(n, Down(moved), {f}, f, x);
    }
  }

  // Every request keeps the forest.

  datatype Request =
    | NewFolder(owner: nat, parent: Option<nat>)
    | EditFolder(owner: nat, f: nat, move: Option<Option<nat>>, trash: Option<bool>)
    | NewFile(owner: nat, place: Option<nat>, available: bool, expired: bool)
    | MoveTo(owner: nat, f: nat, place: Option<nat>)
    | CopyTo(owner: nat, f: nat, place: Option<nat>)
    | AdminEdit(f: nat, newOwner: Option<nat>, move: Option<Option<nat>>)
    | Change(f: nat, available: bool, expired: bool)

  function Serve(tree: Tree, r: Request): Tree {
    var served := match r
      case NewFolder(owner, parent) => CreateFolder(tree, owner, parent)
      case EditFolder(owner, f, move, trash) => UpdateFolder(tree, owner, f, move, trash)
      case NewFile(owner, place, available, expired) => PlaceFile(tree, owner, place, available, expired)
      case MoveTo(owner, f, place) => MoveFile(tree, owner, f, place)
      case CopyTo(owner, f, place) => CopyFile(tree, owner, f, place)
      case AdminEdit(f, newOwner, move) => AdminFile(tree, f, newOwner, move)
      case Change(f, available, expired) => Mark(tree, f, available, expired);
    if served.Some? then served.value else tree
  }

  function ServeAll(tree: Tree, rs: seq<Request>): Tree {
    if |rs| == 0 then tree else Serve(ServeAll(tree, rs[..|rs| - 1]), rs[|rs| - 1])
  }

  lemma NewFolderKeeps(tree: Tree, owner: nat, parent: Option<nat>)
    requires Forest(tree) && CreateFolder(tree, owner, parent).Some?
    ensures Forest(CreateFolder(tree, owner, parent).value)
  {
    var rank :| Ranked(tree.folders, rank);
    var after := CreateFolder(tree, owner, parent).value;
    assert Ranked(after.folders, rank + [if parent.Some? then rank[parent.value] + 1 else 0]);
    forall f | 0 <= f < |after.folders|
      ensures SameOwner(after.folders, f)
    {
      assert f < |tree.folders| ==> SameOwner(tree.folders, f);
    }
  }

  lemma EditFolderKeeps(tree: Tree, owner: nat, f: nat, move: Option<Option<nat>>, trash: Option<bool>)
    requires Forest(tree) && UpdateFolder(tree, owner, f, move, trash).Some?
    ensures Forest(UpdateFolder(tree, owner, f, move, trash).value)
  {
    var after := UpdateFolder(tree, owner, f, move, trash).value;
    var parent := after.folders[f].parent;
    forall x | 0 <= x < |after.folders|
      ensures SameOwner(after.folders, x)
    {
      assert SameOwner(tree.folders, x);
    }
    if move.Some? && move.value.Some? {
      MoveKeepsAcyclicExactly(tree.folders, f, parent.value);
      var rank :| Ranked(Moved(tree.folders, f, parent), rank);
      assert forall x :: 0 <= x < |after.folders| ==>
        after.folders[x].parent == Moved(tree.folders, f, parent)[x].parent;
      assert Ranked(after.folders, rank);
    } else {
      var rank :| Ranked(tree.folders, rank);
      assert forall x :: 0 <= x < |after.folders| && after.folders[x].parent.Some? ==>
        after.folders[x].parent == tree.folders[x].parent;
      assert Ranked(after.folders, rank);
    }
  }

  /** Whatever the requests: parents never form a cycle, and a tree and the files in it have one owner. */
  lemma {:induction false} RequestsKeepForest(tree: Tree, rs: seq<Request>)
    requires Forest(tree)
    ensures Forest(ServeAll(tree, rs))
  {
    if |rs| > 0 {
      RequestsKeepForest(tree, rs[..|rs| - 1]);
      var before := ServeAll(tree, rs[..|rs| - 1]);
      match rs[|rs| - 1]
      case NewFolder(owner, parent) =>
        if CreateFolder(before, owner, parent).Some? { NewFolderKeeps(before, owner, parent); }
      case EditFolder(owner, f, move, trash) =>
        if UpdateFolder(before, owner, f, move, trash).Some? { EditFolderKeeps(before, owner, f, move, trash); }
      case _ =>
        assert ServeAll(tree, rs).folders == before.folders;
    }
  }

  lemma EmptyForest()
    ensures Forest(Tree([], []))
  {
    assert Ranked([], []);
  }

  // What each request does.

  /** The account's own folder that is not in the trash, or the top level. */
  predicate OwnPlace(folders: seq<Folder>, place: Option<nat>, owner: nat) {
    match place
    case None => true
    case Some(g) => g < |folders| && folders[g] == Folder(owner, folders[g].parent, false)
  }

  lemma NewFolderExactly(tree: Tree, owner: nat, parent: Option<nat>)
    ensures CreateFolder(tree, owner, parent) ==
      if OwnPlace(tree.folders, parent, owner)
      then Some(Tree(tree.folders + [Folder(owner, parent, false)], tree.files)) else None
  {
  }

  /** A path down from f to g: g is f or somewhere inside it. */
  ghost predicate Inside(folders: seq<Folder>, f: nat, g: nat) {
    Connected(|folders|, Down(folders), f, g)
  }

  /**
   An edit of a folder is served exactly for the owner and, with a new parent, exactly when that is an own
   place outside the folder itself. It changes what was sent and nothing else.
   */
  lemma EditFolderExactly(tree: Tree, owner: nat, f: nat, move: Option<Option<nat>>, trash: Option<bool>)
    ensures var r := UpdateFolder(tree, owner, f, move, trash);
      && (r.Some? <==>
            && f < |tree.folders| && tree.folders[f].owner == owner
            && (move.Some? ==> OwnPlace(tree.folders, move.value, owner))
            && (move.Some? && move.value.Some? ==> !Inside(tree.folders, f, move.value.value)))
      && (r.Some? ==>
            && r.value.files == tree.files && |r.value.folders| == |tree.folders|
            && (forall g :: 0 <= g < |tree.folders| && g != f ==> r.value.folders[g] == tree.folders[g])
            && r.value.folders[f].owner == owner
            && r.value.folders[f].parent == (match move case None => tree.folders[f].parent case Some(p) => p)
            && r.value.folders[f].deleted == (match trash case None => tree.folders[f].deleted case Some(d) => d))
  {
    if f < |tree.folders| && move.Some? && move.value.Some? {
      ReachExact(|tree.folders|, Down(tree.folders), {f}, move.value.value);
    }
  }

  lemma MarksKeepAncestors(a: seq<Folder>, b: seq<Folder>, g: nat)
    requires |a| == |b| && g < |a| && forall x :: 0 <= x < |a| ==> a[x].parent == b[x].parent
    ensures Ancestors(a, g) == Ancestors(b, g)
  {
    SameReach(|a|, Up(a), Up(b), {g});
  }

  /** The file lies in folder f or somewhere inside it. */
  predicate FileInside(tree: Tree, x: nat, f: nat)
    requires x < |tree.files|
  {
    tree.files[x].folder.Some? && f in Ancestors(tree.folders, tree.files[x].folder.value)
  }

  /** Putting a folder in the trash takes away exactly the files somewhere inside it. */
  lemma TrashHidesExactly(tree: Tree, active: nat -> bool, owner: nat, f: nat, x: nat)
    requires Forest(tree) && UpdateFolder(tree, owner, f, None, Some(true)).Some? && x < |tree.files|
    ensures AccessibleFile(UpdateFolder(tree, owner, f, None, Some(true)).value, active, x) <==>
      AccessibleFile(tree, active, x) && !FileInside(tree, x, f)
  {
    var after := UpdateFolder(tree, owner, f, None, Some(true)).value;
    if tree.files[x].folder.Some? {
      MarksKeepAncestors(tree.folders, after.folders, tree.files[x].folder.value);
    }
  }

  /** Taking a folder out of the trash undoes putting it there. */
  lemma RestoreUndoesTrash(tree: Tree, owner: nat, f: nat)
    requires f < |tree.folders| && !tree.folders[f].deleted && UpdateFolder(tree, owner, f, None, Some(true)).Some?
    ensures var trashed := UpdateFolder(tree, owner, f, None, Some(true)).value;
      UpdateFolder(trashed, owner, f, None, Some(false)) == Some(tree)
  {
    var trashed := UpdateFolder(tree, owner, f, None, Some(true)).value;
    assert UpdateFolder(trashed, owner, f, None, Some(false)).value.folders == tree.folders;
  }

  /** A bulk move is served exactly for own files and an own place; then the listed files, and no others, are there. */
  lemma {:induction false} MoveAllExactly(tree: Tree, owner: nat, ids: seq<nat>, place: Option<nat>)
    ensures var r := MoveAll(tree, owner, ids, place);
      && (r.Some? <==>
            && OwnPlace(tree.folders, place, owner)
            && forall x :: x in ids ==> x < |tree.files| && tree.files[x].owner == owner)
      && (r.Some? ==>
            && r.value.folders == tree.folders && |r.value.files| == |tree.files|
            && forall x :: 0 <= x < |tree.files| ==>
                 r.value.files[x] == if x in ids then tree.files[x].(folder := place) else tree.files[x])
  {
    if |ids| > 0 {
      var n := |ids| - 1;
      MoveAllExactly(tree, owner, ids[..n], place);
      assert ids == ids[..n] + [ids[n]];
      assert ids[n] in ids && forall x :: x in ids[..n] ==> x in ids;
    }
  }

  /** A copy is the same file again, in the place asked for or beside its original. */
  lemma CopyFileExactly(tree: Tree, owner: nat, f: nat, place: Option<nat>)
    ensures var r := CopyFile(tree, owner, f, place);
      && (r.Some? <==> f < |tree.files| && tree.files[f].owner == owner && OwnPlace(tree.folders, place, owner))
      && (r.Some? ==>
            && r.value.folders == tree.folders && |r.value.files| == |tree.files| + 1
            && r.value.files[..|tree.files|] == tree.files
            && var copy := r.value.files[|tree.files|];
               && copy == tree.files[f].(folder := copy.folder)
               && copy.folder == (match place case None => tree.files[f].folder case Some(g) => Some(g)))
  {
  }

  /** A moderator's edit: a new owner gets the file at the top level; a folder sent along must be that owner's. */
  lemma AdminFileExactly(tree: Tree, f: nat, newOwner: Option<nat>, move: Option<Option<nat>>)
    requires f < |tree.files|
    ensures var r, row := AdminFile(tree, f, newOwner, move), tree.files[f];
      && (r.Some? <==>
            move.Some? ==> OwnPlace(tree.folders, move.value, match newOwner case None => row.owner case Some(o) => o))
      && (r.Some? ==>
            && r.value.folders == tree.folders && |r.value.files| == |tree.files|
            && (forall g :: 0 <= g < |tree.files| && g != f ==> r.value.files[g] == tree.files[g])
            && r.value.files[f] == row.(owner := r.value.files[f].owner, folder := r.value.files[f].folder)
            && (newOwner.Some? ==> r.value.files[f].owner == newOwner.value && r.value.files[f].folder == None)
            && (newOwner.None? ==>
                  && r.value.files[f].owner == row.owner
                  && r.value.files[f].folder == match move case None => row.folder case Some(p) => p))
  {
  }

  /** A new file is put in an own place or nowhere. */
  lemma NewFileExactly(tree: Tree, owner: nat, place: Option<nat>, available: bool, expired: bool)
    ensures PlaceFile(tree, owner, place, available, expired) ==
      if OwnPlace(tree.folders, place, owner)
      then Some(Tree(tree.folders, tree.files + [Entry(owner, place, available, expired)])) else None
  {
  }

  /** The single-file rule in the words of paths: available, unexpired, an active owner, nothing above in the trash. */
  lemma AccessibleExactly(tree: Tree, active: nat -> bool, x: nat)
    requires Forest(tree) && x < |tree.files|
    ensures AccessibleFile(tree, active, x) <==>
      var file := tree.files[x];
      && file.available && !file.expired && active(file.owner)
      && (file.folder.Some? ==>
            forall a :: 0 <= a < |tree.folders| && tree.folders[a].deleted ==>
              !Inside(tree.folders, a, file.folder.value))
  {
    if tree.files[x].folder.Some? {
      var g := tree.files[x].folder.value;
      forall a: nat | a < |tree.folders|
        ensures a in Ancestors(tree.folders, g) <==> Inside(tree.folders, a, g)
      {
        ReachDual(|tree.folders|, Down(tree.folders), Up(tree.folders), {a}, g);
        ReachExact(|tree.folders|, Down(tree.folders), {a}, g);
      }
    }
  }

  function Or(r: Option<Tree>, tree: Tree): Tree {
    match r
    case Some(served) => served
    case None => tree
  }

  /** Every request of a run takes effect or leaves the tree as it was, as the laws above say for each kind. */
  lemma {:induction false} RequestsTakeEffect(tree: Tree, rs: seq<Request>, owner: nat, f: nat, place: Option<nat>,
                                              newOwner: Option<nat>, move: Option<Option<nat>>, trash: Option<bool>,
                                              available: bool, expired: bool)
    ensures var t := ServeAll(tree, rs);
      && ServeAll(tree, rs + [NewFolder(owner, place)]) == Or(CreateFolder(t, owner, place), t)
      && ServeAll(tree, rs + [EditFolder(owner, f, move, trash)]) == Or(UpdateFolder(t, owner, f, move, trash), t)
      && ServeAll(tree, rs + [NewFile(owner, place, available, expired)]) ==
           Or(PlaceFile(t, owner, place, available, expired), t)
      && ServeAll(tree, rs + [MoveTo(owner, f, place)]) == Or(MoveAll(t, owner, [f], place), t)
      && ServeAll(tree, rs + [CopyTo(owner, f, place)]) == Or(CopyFile(t, owner, f, place), t)
      && ServeAll(tree, rs + [AdminEdit(f, newOwner, move)]) == Or(AdminFile(t, f, newOwner, move), t)
      && ServeAll(tree, rs + [Change(f, available, expired)]) ==
           if f < |t.files|
           then Tree(t.folders, t.files[f := Entry(t.files[f].owner, t.files[f].folder, available, expired)]) else t
  {
    LastServed(tree, rs, NewFolder(owner, place));
    LastServed(tree, rs, EditFolder(owner, f, move, trash));
    LastServed(tree, rs, NewFile(owner, place, available, expired));
    LastServed(tree, rs, MoveTo(owner, f, place));
    LastServed(tree, rs, CopyTo(owner, f, place));
    LastServed(tree, rs, AdminEdit(f, newOwner, move));
    LastServed(tree, rs, Change(f, available, expired));
    assert [f][..0] == [];
    assert MoveAll(ServeAll(tree, rs), owner, [], place).Some? <==>
      EnsureFolder(ServeAll(tree, rs).folders, place, owner);
  }

  lemma {:induction false} LastServed(tree: Tree, rs: seq<Request>, r: Request)
    ensures ServeAll(tree, rs + [r]) == Serve(ServeAll(tree, rs), r)
  {
    assert (rs + [r])[..|rs|] == rs;
  }
}
