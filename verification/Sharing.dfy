/** Which files a share opens (apps/api/src/shares.ts), against the rule that guards every single file. */
module Sharing {
  import opened Base
  import opened Closure
  import opened Folders

  datatype Share = Share(owner: nat, files: set<nat>, folders: set<nat>)

  function OwnedDown(folders: seq<Folder>, owner: nat): Relation {
    (x: nat, y: nat) => y < |folders| && folders[y].parent == Some(x) && folders[y].owner == owner
  }

  function VisibleDown(folders: seq<Folder>, owner: nat): Relation {
    (x: nat, y: nat) =>
      y < |folders| && folders[y].parent == Some(x) && folders[y].owner == owner && !folders[y].deleted
  }

  function TrashRoots(folders: seq<Folder>, owner: nat): set<nat> {
    set f | f in Rows(|folders|) && folders[f].owner == owner && folders[f].deleted
  }

  function ShareRoots(folders: seq<Folder>, share: Share): set<nat> {
    set f | f in share.folders && f < |folders| && folders[f].owner == share.owner && !folders[f].deleted
  }

  /** Folders in the trash and everything below them. */
  function Hidden(folders: seq<Folder>, owner: nat): set<nat> {
    Reach(|folders|, OwnedDown(folders, owner), TrashRoots(folders, owner))
  }

  /** Shared folders and everything below them that is not in the trash. */
  function SharedFolders(folders: seq<Folder>, share: Share): set<nat> {
    Reach(|folders|, VisibleDown(folders, share.owner), ShareRoots(folders, share))
  }

  /** The rows of the query, before its limit of 5000. */
  predicate Listed(tree: Tree, share: Share, f: nat) {
    && f < |tree.files|
    && var row := tree.files[f];
       && row.owner == share.owner
       && (row.folder.Some? ==> row.folder.value !in Hidden(tree.folders, share.owner))
       && row.available && !row.expired
       && (f in share.files || (row.folder.Some? && row.folder.value in SharedFolders(tree.folders, share)))
  }

  /** In one account's trees a path never leaves the account. */
  lemma {:induction false} PathOwner(folders: seq<Folder>, p: seq<nat>)
    requires OneOwnerPerTree(folders) && Path(|folders|, Down(folders), p)
    ensures forall i :: 0 <= i < |p| ==> folders[p[i]].owner == folders[p[|p| - 1]].owner
    decreases |p|
  {
    if |p| > 1 {
      assert Down(folders)(p[0], p[1]);
      assert SameOwner(folders, p[1]);
      PathOwner(folders, p[1..]);
      assert forall i :: 1 <= i < |p| ==> p[i] == p[1..][i - 1];
    }
  }

  lemma OwnedPath(folders: seq<Folder>, owner: nat, x: nat, y: nat)
    requires OneOwnerPerTree(folders) && y < |folders| && folders[y].owner == owner
    ensures Connected(|folders|, OwnedDown(folders, owner), x, y) <==> Connected(|folders|, Down(folders), x, y)
    ensures Connected(|folders|, Down(folders), x, y) ==> x < |folders| && folders[x].owner == owner
  {
    var n := |folders|;
    if Connected(n, OwnedDown(folders, owner), x, y) {
      var p :| Path(n, OwnedDown(folders, owner), p) && p[0] == x && p[|p| - 1] == y;
      forall i | 0 <= i < |p| - 1
        ensures Down(folders)(p[i], p[i + 1])
      {
        assert OwnedDown(folders, owner)(p[i], p[i + 1]);
      }
      assert Path(n, Down(folders), p);
    }
    if Connected(n, Down(folders), x, y) {
      var p :| Path(n, Down(folders), p) && p[0] == x && p[|p| - 1] == y;
      PathOwner(folders, p);
      forall i | 0 <= i < |p| - 1
        ensures OwnedDown(folders, owner)(p[i], p[i + 1])
      {
        assert Down(folders)(p[i], p[i + 1]);
      }
      assert Path(n, OwnedDown(folders, owner), p);
    }
  }

  /** Walking up from g meets a exactly when walking down from a meets g. */
  lemma AncestorsAreConnected(folders: seq<Folder>, a: nat, g: nat)
    requires a < |folders| && g < |folders|
    ensures a in Ancestors(folders, g) <==> g in Descendants(folders, a)
    ensures a in Ancestors(folders, g) <==> Connected(|folders|, Down(folders), a, g)
  {
    var n := |folders|;
    ReachDual(n, Down(folders), Up(folders), {a}, g);
    ReachExact(n, Down(folders), {a}, g);
  }

  lemma {:induction false} AncestorsAreRows(folders: seq<Folder>, g: nat)
    requires g < |folders|
    ensures Ancestors(folders, g) <= Rows(|folders|)
  {
    forall a | a in Ancestors(folders, g)
      ensures a < |folders|
    {
      ReachExact(|folders|, Up(folders), {g}, a);
    }
  }

  /** The downward closure of the trash and the upward walk to the root give the same verdict. */
  lemma HiddenIsAncestorWalk(folders: seq<Folder>, owner: nat, g: nat)
    requires OneOwnerPerTree(folders) && g < |folders| && folders[g].owner == owner
    ensures g in Hidden(folders, owner) <==> exists a :: a in Ancestors(folders, g) && Removed(folders, a)
  {
    var n := |folders|;
    var roots := TrashRoots(folders, owner);
    ReachExact(n, OwnedDown(folders, owner), roots, g);
    if g in Hidden(folders, owner) {
      var a :| a in roots && Connected(n, OwnedDown(folders, owner), a, g);
      OwnedPath(folders, owner, a, g);
      AncestorsAreConnected(folders, a, g);
    }
    if a :| a in Ancestors(folders, g) && Removed(folders, a) {
      AncestorsAreConnected(folders, a, g);
      OwnedPath(folders, owner, a, g);
      assert a in roots;
      ReachComplete(n, OwnedDown(folders, owner), roots, a, g);
    }
  }

  /** For a folder out of the trash, being shared means having a shared folder on the way up. */
  lemma SharedIsAncestorWalk(folders: seq<Folder>, share: Share, g: nat)
    requires OneOwnerPerTree(folders) && g < |folders| && folders[g].owner == share.owner
    requires g !in Hidden(folders, share.owner)
    ensures g in SharedFolders(folders, share) <==> exists a :: a in Ancestors(folders, g) && a in share.folders
  {
    var n := |folders|;
    var visible := VisibleDown(folders, share.owner);
    ReachExact(n, visible, ShareRoots(folders, share), g);
    if g in SharedFolders(folders, share) {
      var a :| a in ShareRoots(folders, share) && Connected(n, visible, a, g);
      var p :| Path(n, visible, p) && p[0] == a && p[|p| - 1] == g;
      forall i | 0 <= i < |p| - 1
        ensures Down(folders)(p[i], p[i + 1])
      {
        assert visible(p[i], p[i + 1]);
      }
      assert Path(n, Down(folders), p);
      AncestorsAreConnected(folders, a, g);
    }
    if a :| a in Ancestors(folders, g) && a in share.folders {
      AncestorsAreRows(folders, g);
      AncestorsAreConnected(folders, a, g);
      VisiblePath(folders, share.owner, a, g);
      ReachComplete(n, visible, ShareRoots(folders, share), a, g);
    }
  }

  /** Above a folder that is not hidden everything is visible. */
  lemma VisiblePath(folders: seq<Folder>, owner: nat, a: nat, g: nat)
    requires OneOwnerPerTree(folders) && g < |folders| && folders[g].owner == owner
    requires g !in Hidden(folders, owner) && Connected(|folders|, Down(folders), a, g)
    ensures Connected(|folders|, VisibleDown(folders, owner), a, g)
    ensures a < |folders| && folders[a].owner == owner && !folders[a].deleted
  {
    var n := |folders|;
    var p :| Path(n, Down(folders), p) && p[0] == a && p[|p| - 1] == g;
    PathOwner(folders, p);
    forall i | 0 <= i < |p|
      ensures !folders[p[i]].deleted
    {
      var q := p[i..];
      assert Path(n, Down(folders), q);
      assert Connected(n, Down(folders), p[i], g);
      OwnedPath(folders, owner, p[i], g);
      if folders[p[i]].deleted {
        ReachComplete(n, OwnedDown(folders, owner), TrashRoots(folders, owner), p[i], g);
      }
    }
    forall i | 0 <= i < |p| - 1
      ensures VisibleDown(folders, owner)(p[i], p[i + 1])
    {
      assert Down(folders)(p[i], p[i + 1]);
    }
    assert Path(n, VisibleDown(folders, owner), p);
  }

  /** A file is selected by a share directly or through a shared folder it is somewhere inside of. */
  predicate Selected(tree: Tree, share: Share, f: nat)
    requires f < |tree.files|
  {
    || f in share.files
    || (tree.files[f].folder.Some? &&
          exists a :: a in Ancestors(tree.folders, tree.files[f].folder.value) && a in share.folders)
  }

  /**
   For an active owner a share lists exactly the owner's selected files that are accessible one by one;
   so what is listed can be downloaded.
   */
  lemma ListedIsAccessible(tree: Tree, active: nat -> bool, share: Share, f: nat)
    requires Forest(tree) && active(share.owner)
    ensures Listed(tree, share, f) <==>
      AccessibleFile(tree, active, f) && tree.files[f].owner == share.owner && Selected(tree, share, f)
  {
    if f < |tree.files| && tree.files[f].owner == share.owner && tree.files[f].folder.Some? {
      var g := tree.files[f].folder.value;
      HiddenIsAncestorWalk(tree.folders, share.owner, g);
      if g !in Hidden(tree.folders, share.owner) {
        SharedIsAncestorWalk(tree.folders, share, g);
      }
    }
  }

  /** After any requests: every file a share of an active account lists passes the check made before a download. */
  lemma {:induction false} SharesOnlyListAccessible(rs: seq<Request>, active: nat -> bool, share: Share, f: nat)
    requires active(share.owner) && Listed(ServeAll(Tree([], []), rs), share, f)
    ensures AccessibleFile(ServeAll(Tree([], []), rs), active, f)
  {
    EmptyForest();
    RequestsKeepForest(Tree([], []), rs);
    ListedIsAccessible(ServeAll(Tree([], []), rs), active, share, f);
  }

  // Downloading through a share.

  /** The columns a download looks at; `expired` compares the share's expiry with the clock. */
  datatype ShareRow = ShareRow(share: Share, enabled: bool, expired: bool, maxDownloads: Option<nat>, downloads: nat)

  predicate ActiveShare(row: ShareRow, active: nat -> bool) {
    && active(row.share.owner) && row.enabled && !row.expired
    && (row.maxDownloads.Some? ==> row.downloads < row.maxDownloads.value)
  }

  datatype Refusal = ShareGone | NotInShare | FileGone | OverAllowance

  datatype Download = Granted(row: ShareRow) | Refused(reason: Refusal)

  /** `allowance` is the verdict of the owner's grant limits. */
  function DownloadShared(tree: Tree, active: nat -> bool, row: ShareRow, f: nat, allowance: bool): Download {
    if !ActiveShare(row, active) then Refused(ShareGone)
    else if !Listed(tree, row.share, f) then Refused(NotInShare)
    else if !AccessibleFile(tree, active, f) then Refused(FileGone)
    else if !allowance then Refused(OverAllowance)
    else Granted(row.(downloads := row.downloads + 1))
  }

  /** The second look at the file never turns down what the share lists. */
  lemma {:induction false} ListedIsNeverGone(rs: seq<Request>, active: nat -> bool, row: ShareRow, f: nat,
                                             allowance: bool)
    ensures DownloadShared(ServeAll(Tree([], []), rs), active, row, f, allowance) != Refused(FileGone)
  {
    if ActiveShare(row, active) && Listed(ServeAll(Tree([], []), rs), row.share, f) {
      SharesOnlyListAccessible(rs, active, row.share, f);
    }
  }

  /**
   A download through a share is granted exactly for an active owner, an enabled and unexpired share that is
   not used up, a file of the owner's that the share selects and that is accessible by itself, and within
   the owner's grant limits. It is counted, and nothing else about the share changes.
   */
  lemma DownloadGrantedExactly(tree: Tree, active: nat -> bool, row: ShareRow, f: nat, allowance: bool)
    requires Forest(tree)
    ensures var d := DownloadShared(tree, active, row, f, allowance);
      && (d.Granted? <==>
            && active(row.share.owner) && row.enabled && !row.expired && allowance
            && (row.maxDownloads == None || row.downloads + 1 <= row.maxDownloads.value)
            && AccessibleFile(tree, active, f)
            && tree.files[f].owner == row.share.owner && Selected(tree, row.share, f))
      && (d.Granted? ==>
            d.row == ShareRow(row.share, row.enabled, row.expired, row.maxDownloads, row.downloads + 1))
  {
    if active(row.share.owner) {
      ListedIsAccessible(tree, active, row.share, f);
    }
  }

  datatype Attempt = Attempt(tree: Tree, active: nat -> bool, expired: bool, f: nat, allowance: bool)

  function AfterAttempts(row: ShareRow, attempts: seq<Attempt>): ShareRow {
    if |attempts| == 0 then row
    else
      var before, last := AfterAttempts(row, attempts[..|attempts| - 1]), attempts[|attempts| - 1];
      var d := DownloadShared(last.tree, last.active, before.(expired := last.expired), last.f, last.allowance);
      if d.Granted? then d.row else before
  }

  /** Each attempt is one download request, on whatever has become of the files by then. */
  lemma {:induction false} AttemptsGoOn(row: ShareRow, attempts: seq<Attempt>, a: Attempt)
    ensures var before := AfterAttempts(row, attempts);
      AfterAttempts(row, attempts + [a]) ==
        match DownloadShared(a.tree, a.active, before.(expired := a.expired), a.f, a.allowance)
        case Granted(after) => after
        case Refused(_) => before
  {
    assert (attempts + [a])[..|attempts|] == attempts;
  }

  /** However many people try, a share is downloaded at most as often as its owner allowed. */
  lemma {:induction false} DownloadsStayWithinLimit(row: ShareRow, attempts: seq<Attempt>)
    requires row.maxDownloads.Some? && row.downloads <= row.maxDownloads.value
    ensures AfterAttempts(row, attempts).maxDownloads == row.maxDownloads
    ensures row.downloads <= AfterAttempts(row, attempts).downloads <= row.maxDownloads.value
  {
    if |attempts| > 0 {
      DownloadsStayWithinLimit(row, attempts[..|attempts| - 1]);
    }
  }
}
