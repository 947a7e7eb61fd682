/** What a folder-scoped Drive Binding tracks, against what is really in the folder.
    (django_connectors/providers/google/drive.py _cold_walk, _changes) */
module DriveMirror {
  import opened Values
  import opened Drive

  /** Everything in Drive that is not trashed, by id. */
  type Contents = map<Id, Item>

  function TreeOf(t: Contents, root: Id): Parents {
    (map x | x in t && t[x].folder :: t[x].parent)[root := None]
  }

  /** The folders under the Binding's folder, itself included. */
  ghost function Scope(t: Contents, root: Id): set<Id> { Subtree(TreeOf(t, root), root) }

  ghost predicate InFolder(cfg: Config, t: Contents, root: Id, f: Id) {
    f in t && !t[f].folder && NameMatches(cfg, t[f].name) && t[f].parent.Some? && t[f].parent.value in Scope(t, root)
  }

  ghost predicate FoldersMirror(root: Id, t: Contents, e: Entry) {
    && e.folders.Keys == Scope(t, root)
    && (forall x :: x in e.folders ==> x in TreeOf(t, root) && e.folders[x] == TreeOf(t, root)[x])
  }

  ghost predicate FileMirrors(cfg: Config, root: Id, t: Contents, e: Entry, f: Id) {
    (f in e.files <==> InFolder(cfg, t, root, f)) && (f in e.files ==> e.files[f] == t[f].parent)
  }

  /** The entry holds exactly the folders under the root and exactly the matching files in them. */
  ghost predicate Mirrors(cfg: Config, root: Id, t: Contents, e: Entry) {
    FoldersMirror(root, t, e) && forall f :: FileMirrors(cfg, root, t, e, f)
  }

  // ---------------------------------------------------------------- how a tree changes at one folder

  /** The two trees differ at most at `x`. */
  ghost predicate SameElsewhere(tree: Parents, after: Parents, x: Id) {
    forall y :: y != x ==> (y in tree <==> y in after) && (y in tree ==> after[y] == tree[y])
  }

  lemma ParentIsUnder(tree: Parents, top: Id, y: Id)
    requires y in Subtree(tree, top) && y != top
    ensures y in tree && tree[y].Some? && tree[y].value in Subtree(tree, top)
  {
    var path :| |path| > 0 && path[0] == top && path[|path| - 1] == y && Descends(tree, path);
    var shorter := path[..|path| - 1];
    var p := shorter[|shorter| - 1];
    assert tree[y] == Some(p);
    assert Descends(tree, shorter) && Under(tree, top, p);
    if p != top {
      assert tree[p] == Some(shorter[|shorter| - 2]);
    }
  }

  /** Nothing above the root: it is under no other folder. */
  lemma RootIsUnderNothing(tree: Parents, root: Id, x: Id)
    requires root in tree && tree[root].None? && x != root
    ensures root !in Subtree(tree, x)
  {
    if root in Subtree(tree, x) { ParentIsUnder(tree, x, root); }
  }

  /** What is under the root and not under `x` does not depend on where `x` is. */
  lemma ElsewhereStays(tree: Parents, after: Parents, root: Id, x: Id)
    requires root in tree && tree[root].None? && x != root && SameElsewhere(tree, after, x)
    ensures Subtree(tree, root) - Subtree(tree, x) <= Subtree(after, root)
  {
    var both := Subtree(after, root) + Subtree(tree, x);
    SubtreeIsClosedBelow(after, root);
    SubtreeIsClosedBelow(tree, x);
    hide Subtree;
    assert ClosedBelow(tree, root, both);
    ClosedBelowHoldsSubtree(tree, root, both);
  }

  /** A folder outside the scope has nothing of the scope under it. */
  lemma OutsideHoldsNothing(tree: Parents, root: Id, x: Id)
    requires root in tree && tree[root].None? && x !in Subtree(tree, root)
    ensures Subtree(tree, root) !! Subtree(tree, x)
  {
    var rest := Subtree(tree, root) - Subtree(tree, x);
    SubtreeIsClosedBelow(tree, root);
    RootIsUnderNothing(tree, root, x);
    forall child | child in tree && tree[child].Some? && tree[child].value in rest ensures child in rest {
      if child in Subtree(tree, x) { ParentIsUnder(tree, x, child); }
    }
    ClosedBelowHoldsSubtree(tree, root, rest);
  }

  /** A folder that leaves takes with it exactly what is under it. */
  lemma ScopeWhenLeaving(tree: Parents, after: Parents, root: Id, x: Id)
    requires root in tree && tree[root].None? && x != root && SameElsewhere(tree, after, x)
    requires x in after && after[x].Some? ==> after[x].value !in Subtree(tree, root)
    ensures Subtree(after, root) == Subtree(tree, root) - Subtree(tree, x)
  {
    var rest := Subtree(tree, root) - Subtree(tree, x);
    ElsewhereStays(tree, after, root, x);
    RootIsUnderNothing(tree, root, x);
    SubtreeIsClosedBelow(tree, root);
    forall child | child in after && after[child].Some? && after[child].value in rest ensures child in rest {
      if child in Subtree(tree, x) && child != x { ParentIsUnder(tree, x, child); }
    }
    ClosedBelowHoldsSubtree(after, root, rest);
  }

  /** Moving a folder within the scope, and not under itself, changes nothing of the scope. */
  lemma ScopeWhenMoving(tree: Parents, after: Parents, root: Id, x: Id)
    requires root in tree && tree[root].None? && x != root && SameElsewhere(tree, after, x)
    requires x in Subtree(tree, root) && x in after && after[x].Some?
    requires after[x].value in Subtree(tree, root) - Subtree(tree, x)
    ensures Subtree(after, root) == Subtree(tree, root)
  {
    ElsewhereStays(tree, after, root, x);
    SubtreeIsClosedBelow(tree, root);
    SubtreeIsClosedBelow(after, root);
    assert x in Subtree(after, root);
    hide Subtree;
    assert ClosedBelow(tree, x, Subtree(after, root));
    ClosedBelowHoldsSubtree(tree, x, Subtree(after, root));
    assert ClosedBelow(after, root, Subtree(tree, root));
    ClosedBelowHoldsSubtree(after, root, Subtree(tree, root));
  }

  predicate HasChildFolder(tree: Parents, x: Id) { exists y :: y in tree && y != x && tree[y] == Some(x) }

  /** A folder that comes in adds itself, and nothing more exactly when it holds no folder. */
  lemma ScopeWhenEntering(tree: Parents, after: Parents, root: Id, x: Id)
    requires root in tree && tree[root].None? && SameElsewhere(tree, after, x)
    requires x !in Subtree(tree, root) && x in after && after[x].Some? && after[x].value in Subtree(tree, root)
    ensures Subtree(tree, root) + {x} <= Subtree(after, root)
    ensures Subtree(after, root) == Subtree(tree, root) + {x} <==> !HasChildFolder(tree, x)
  {
    TopIsUnder(tree, root);
    OutsideHoldsNothing(tree, root, x);
    ElsewhereStays(tree, after, root, x);
    SubtreeIsClosedBelow(after, root);
    SubtreeIsClosedBelow(tree, root);
    assert x in Subtree(after, root);
    hide Subtree;
    var more := Subtree(tree, root) + {x};
    if HasChildFolder(tree, x) {
      var y :| y in tree && y != x && tree[y] == Some(x);
      if y in Subtree(tree, root) && y != root { ParentIsUnder(tree, root, y); }
      assert y in Subtree(after, root) && y !in more;
    } else {
      assert ClosedBelow(after, root, more);
      ClosedBelowHoldsSubtree(after, root, more);
    }
  }

  // ---------------------------------------------------------------- one event

  /** What is in Drive after the event a change reports. */
  function Happens(t: Contents, c: Change): Contents {
    if c.gone then t - {c.item.id} else t[c.item.id := c.item]
  }

  /** An event Drive allows on this Binding's scope: the root stays a folder and is not trashed, an item keeps its kind,
      and no folder is put below itself. */
  ghost predicate Legal(t: Contents, root: Id, c: Change) {
    && (c.item.id == root ==> !c.gone && c.item.folder)
    && (c.item.id in t && !c.gone ==> t[c.item.id].folder == c.item.folder)
    && (!c.gone && c.item.id in Scope(t, root) && c.item.id != root && c.item.parent.Some? ==>
          c.item.parent.value !in Subtree(TreeOf(t, root), c.item.id))
  }

  /** A folder in scope is reported with no parent: it was moved where no parent is visible. */
  ghost predicate LosesItsParent(t: Contents, root: Id, c: Change) {
    !c.gone && c.item.id != root && c.item.id in Scope(t, root) && c.item.parent.None?
  }

  /** A folder comes into scope with folders or matching files already in it. */
  ghost predicate BringsChildren(cfg: Config, t: Contents, root: Id, c: Change) {
    && !c.gone && c.item.folder && c.item.id !in Scope(t, root)
    && c.item.parent.Some? && c.item.parent.value in Scope(t, root)
    && (HasChildFolder(TreeOf(t, root), c.item.id) || HasMatchingFile(cfg, t, c.item.id))
  }

  /** The two events the feed loop does not answer. */
  ghost predicate Unanswered(cfg: Config, t: Contents, root: Id, c: Change) {
    BringsChildren(cfg, t, root, c) || LosesItsParent(t, root, c)
  }

  predicate HasMatchingFile(cfg: Config, t: Contents, folder: Id) {
    exists f :: f in t && !t[f].folder && NameMatches(cfg, t[f].name) && t[f].parent == Some(folder)
  }

  /** The entry's own subtree of a folder is Drive's. */
  lemma SameSubtree(root: Id, t: Contents, e: Entry, x: Id)
    requires FoldersMirror(root, t, e) && x in Scope(t, root)
    ensures Subtree(e.folders, x) == Subtree(TreeOf(t, root), x)
  {
    var tree := TreeOf(t, root);
    SubtreeIsClosedBelow(tree, root);
    SubtreeIsClosedBelow(tree, x);
    SubtreeIsClosedBelow(e.folders, x);
    assert ClosedBelow(e.folders, x, Subtree(tree, x));
    ClosedBelowHoldsSubtree(e.folders, x, Subtree(tree, x));
    assert Subtree(e.folders, x) <= Scope(t, root);
    assert ClosedBelow(tree, x, Subtree(e.folders, x));
    ClosedBelowHoldsSubtree(tree, x, Subtree(e.folders, x));
  }

  lemma RootStands(t: Contents, root: Id)
    ensures root in TreeOf(t, root) && TreeOf(t, root)[root].None? && root in Scope(t, root)
  {
    TopIsUnder(TreeOf(t, root), root);
  }

  lemma TreeChangesAtOneFolder(t: Contents, root: Id, c: Change)
    ensures SameElsewhere(TreeOf(t, root), TreeOf(Happens(t, c), root), c.item.id)
    ensures c.item.id != root && !c.gone && c.item.folder ==>
              c.item.id in TreeOf(Happens(t, c), root) && TreeOf(Happens(t, c), root)[c.item.id] == c.item.parent
    ensures c.item.id != root && (c.gone || !c.item.folder) ==> c.item.id !in TreeOf(Happens(t, c), root)
  {
  }

  /** Only folders are in scope. */
  lemma ScopeIsFolders(t: Contents, root: Id, x: Id)
    requires x in Scope(t, root) && x != root
    ensures x in t && t[x].folder
  {
  }

  // ---------------------------------------------------------------- the tracker against Drive, change by change

  function FilesAfter(cfg: Config, e: Entry, c: Change): Parents {
    if !c.gone && InScope(cfg, e.folders, c.item) then e.files[c.item.id := c.item.parent] else e.files - {c.item.id}
  }

  /** What the tracker does for a file's event. */
  lemma FileAfter(cfg: Config, e: Entry, c: Change)
    requires cfg.folderId.Some? && c.item.id !in e.folders && (c.gone || !c.item.folder)
    ensures After(cfg, e, c) == e.(files := FilesAfter(cfg, e, c))
  {
  }

  /** What the tracker does for a folder's event, other than dropping it. */
  lemma FolderAfter(cfg: Config, e: Entry, c: Change)
    requires cfg.folderId.Some? && (c.gone || c.item.folder)
    ensures var parent := c.item.parent;
            && (c.item.id !in e.folders ==>
                  After(cfg, e, c) == if c.gone then e.(files := e.files - {c.item.id})
                                      else if parent.Some? && parent.value in e.folders then
                                        e.(folders := e.folders[c.item.id := parent])
                                      else e)
            && (c.item.id in e.folders && !c.gone && e.folders[c.item.id].Some? && parent.Some?
                && parent.value in e.folders ==>
                  After(cfg, e, c) == e.(folders := e.folders[c.item.id := parent]))
  {
    hide Subtree, NameMatches;
  }

  lemma SameScope(t: Contents, u: Contents, root: Id)
    requires forall x :: x in t && t[x].folder <==> x in u && u[x].folder
    requires forall x :: x in t && t[x].folder ==> t[x].parent == u[x].parent
    ensures TreeOf(u, root) == TreeOf(t, root) && Scope(u, root) == Scope(t, root)
  {
  }

  /** A file's event touches no folder. */
  lemma FileEventMirrors(cfg: Config, root: Id, t: Contents, e: Entry, c: Change)
    requires cfg.folderId == Some(root) && Mirrors(cfg, root, t, e) && Legal(t, root, c)
    requires c.item.id != root && (c.item.id in t ==> !t[c.item.id].folder) && (c.gone || !c.item.folder)
    ensures Mirrors(cfg, root, Happens(t, c), After(cfg, e, c))
  {
    var u, after := Happens(t, c), After(cfg, e, c);
    SameScope(t, u, root);
    if c.item.id in e.folders { ScopeIsFolders(t, root, c.item.id); }
    FileAfter(cfg, e, c);
    hide Subtree, Scope, TreeOf, After, EffectOf, Legal, NameMatches, Happens;
    forall f ensures FileMirrors(cfg, root, u, after, f) {
      OneFile(cfg, root, t, e, c, f);
    }
  }

  lemma OneFile(cfg: Config, root: Id, t: Contents, e: Entry, c: Change, f: Id)
    requires cfg.folderId == Some(root) && FoldersMirror(root, t, e) && FileMirrors(cfg, root, t, e, f)
    requires Scope(Happens(t, c), root) == Scope(t, root) && (c.gone || !c.item.folder)
    ensures FileMirrors(cfg, root, Happens(t, c), e.(files := FilesAfter(cfg, e, c)), f)
  {
    hide Subtree, Scope, TreeOf, NameMatches;
  }

  /** A folder that is trashed, or moved out, is dropped with everything under it. */
  lemma LeavingMirrors(cfg: Config, root: Id, t: Contents, e: Entry, c: Change)
    requires cfg.folderId == Some(root) && Mirrors(cfg, root, t, e) && Legal(t, root, c)
    requires c.item.id != root && c.item.id in Scope(t, root)
    requires c.gone || (c.item.parent.Some? && c.item.parent.value !in Scope(t, root))
    ensures Mirrors(cfg, root, Happens(t, c), After(cfg, e, c))
  {
    var x, tree, u := c.item.id, TreeOf(t, root), Happens(t, c);
    RootStands(t, root);
    ScopeIsFolders(t, root, x);
    TreeChangesAtOneFolder(t, root, c);
    ScopeWhenLeaving(tree, TreeOf(u, root), root, x);
    SameSubtree(root, t, e, x);
    ParentIsUnder(tree, root, x);
    TopIsUnder(e.folders, x);
    assert After(cfg, e, c) == Dropped(e, x);
    hide Subtree, TreeOf, After, EffectOf, Legal, NameMatches, Under;
    forall f ensures FileMirrors(cfg, root, u, Dropped(e, x), f) {
      OneFileWhenDropping(cfg, root, t, e, c, f);
    }
  }

  lemma OneFileWhenDropping(cfg: Config, root: Id, t: Contents, e: Entry, c: Change, f: Id)
    requires FoldersMirror(root, t, e) && FileMirrors(cfg, root, t, e, f)
    requires c.item.id in t && t[c.item.id].folder && (c.gone || c.item.folder)
    requires Subtree(e.folders, c.item.id) == Subtree(TreeOf(t, root), c.item.id)
    requires Scope(Happens(t, c), root) == Scope(t, root) - Subtree(TreeOf(t, root), c.item.id)
    ensures FileMirrors(cfg, root, Happens(t, c), Dropped(e, c.item.id), f)
  {
    hide Subtree, Scope, TreeOf, NameMatches;
  }

  /** A folder's event that leaves the scope as it is leaves the tracked files as they are. */
  lemma FilesStay(cfg: Config, root: Id, t: Contents, e: Entry, c: Change, after: Entry)
    requires Mirrors(cfg, root, t, e) && Scope(Happens(t, c), root) == Scope(t, root)
    requires (c.item.id in t ==> t[c.item.id].folder) && (c.gone || c.item.folder)
    requires after.files == e.files || after.files == e.files - {c.item.id}
    ensures forall f :: FileMirrors(cfg, root, Happens(t, c), after, f)
  {
    hide Subtree, Scope, TreeOf, NameMatches;
    assert FileMirrors(cfg, root, t, e, c.item.id);
    forall f ensures FileMirrors(cfg, root, Happens(t, c), after, f) {
      assert FileMirrors(cfg, root, t, e, f);
    }
  }

  lemma ScopeStays(root: Id, t: Contents, c: Change)
    requires Legal(t, root, c) && c.item.id != root && c.item.id in Scope(t, root) && !c.gone
    requires c.item.parent.Some? && c.item.parent.value in Scope(t, root)
    ensures Scope(Happens(t, c), root) == Scope(t, root)
    ensures c.item.id in t && t[c.item.id].folder && c.item.folder
  {
    RootStands(t, root);
    ScopeIsFolders(t, root, c.item.id);
    TreeChangesAtOneFolder(t, root, c);
    ScopeWhenMoving(TreeOf(t, root), TreeOf(Happens(t, c), root), root, c.item.id);
  }

  lemma FoldersFollow(root: Id, t: Contents, u: Contents, e: Entry, x: Id, parent: Option<Id>)
    requires FoldersMirror(root, t, e) && x in e.folders && Scope(u, root) == Scope(t, root)
    requires SameElsewhere(TreeOf(t, root), TreeOf(u, root), x)
    requires x in TreeOf(u, root) && TreeOf(u, root)[x] == parent
    ensures FoldersMirror(root, u, e.(folders := e.folders[x := parent]))
  {
    hide Scope, TreeOf;
    assert e.folders[x := parent].Keys == e.folders.Keys;
  }

  /** A folder moved within the scope keeps everything. */
  lemma MovingMirrors(cfg: Config, root: Id, t: Contents, e: Entry, c: Change)
    requires cfg.folderId == Some(root) && Mirrors(cfg, root, t, e) && Legal(t, root, c)
    requires c.item.id != root && c.item.id in Scope(t, root) && !c.gone
    requires c.item.parent.Some? && c.item.parent.value in Scope(t, root)
    ensures Mirrors(cfg, root, Happens(t, c), After(cfg, e, c))
  {
    ScopeStays(root, t, c);
    ParentIsUnder(TreeOf(t, root), root, c.item.id);
    TreeChangesAtOneFolder(t, root, c);
    hide Scope, Subtree, Legal, After, NameMatches, FileMirrors, TreeOf, Happens;
    FolderAfter(cfg, e, c);
    FoldersFollow(root, t, Happens(t, c), e, c.item.id, c.item.parent);
    FilesStay(cfg, root, t, e, c, After(cfg, e, c));
  }

  /** A folder whose event happens outside the scope changes nothing. */
  lemma OutsideMirrors(cfg: Config, root: Id, t: Contents, e: Entry, c: Change)
    requires cfg.folderId == Some(root) && Mirrors(cfg, root, t, e) && Legal(t, root, c)
    requires c.item.id !in Scope(t, root) && (c.item.id in t ==> t[c.item.id].folder) && (c.gone || c.item.folder)
    requires c.gone || c.item.parent.None? || c.item.parent.value !in Scope(t, root)
    ensures Mirrors(cfg, root, Happens(t, c), After(cfg, e, c))
  {
    var x, tree, u := c.item.id, TreeOf(t, root), Happens(t, c);
    RootStands(t, root);
    TreeChangesAtOneFolder(t, root, c);
    ScopeWhenLeaving(tree, TreeOf(u, root), root, x);
    OutsideHoldsNothing(tree, root, x);
    assert Scope(u, root) == Scope(t, root);
    hide Subtree, TreeOf, After, Legal, NameMatches, FileMirrors;
    FolderAfter(cfg, e, c);
    FilesStay(cfg, root, t, e, c, After(cfg, e, c));
  }

  /** A folder that comes in is tracked; what it already held is not. */
  lemma EnteringMirrorsIff(cfg: Config, root: Id, t: Contents, e: Entry, c: Change)
    requires cfg.folderId == Some(root) && Mirrors(cfg, root, t, e) && Legal(t, root, c)
    requires !c.gone && c.item.folder && c.item.id !in Scope(t, root)
    requires c.item.parent.Some? && c.item.parent.value in Scope(t, root)
    ensures Mirrors(cfg, root, Happens(t, c), After(cfg, e, c)) <==> !BringsChildren(cfg, t, root, c)
  {
    var x, tree, u := c.item.id, TreeOf(t, root), Happens(t, c);
    RootStands(t, root);
    TreeChangesAtOneFolder(t, root, c);
    ScopeWhenEntering(tree, TreeOf(u, root), root, x);
    hide Subtree, After, Legal, NameMatches;
    FolderAfter(cfg, e, c);
    if HasChildFolder(tree, x) {
      assert After(cfg, e, c).folders.Keys == Scope(t, root) + {x} != Scope(u, root);
    } else {
      hide TreeOf;
      assert FoldersMirror(root, u, After(cfg, e, c));
      FilesWhenEntering(cfg, root, t, e, c);
    }
  }

  lemma FilesWhenEntering(cfg: Config, root: Id, t: Contents, e: Entry, c: Change)
    requires Mirrors(cfg, root, t, e) && Scope(Happens(t, c), root) == Scope(t, root) + {c.item.id}
    requires !c.gone && c.item.folder && c.item.id !in Scope(t, root) && (c.item.id in t ==> t[c.item.id].folder)
    ensures var after := e.(folders := e.folders[c.item.id := c.item.parent]);
            (forall f :: FileMirrors(cfg, root, Happens(t, c), after, f)) <==> !HasMatchingFile(cfg, t, c.item.id)
  {
    hide Subtree, Scope, TreeOf, NameMatches;
    var u, after := Happens(t, c), e.(folders := e.folders[c.item.id := c.item.parent]);
    if HasMatchingFile(cfg, t, c.item.id) {
      var f :| f in t && !t[f].folder && NameMatches(cfg, t[f].name) && t[f].parent == Some(c.item.id);
      assert FileMirrors(cfg, root, t, e, f);
      assert !FileMirrors(cfg, root, u, after, f);
    } else {
      forall f ensures FileMirrors(cfg, root, u, after, f) {
        assert FileMirrors(cfg, root, t, e, f);
      }
    }
  }

  /** A folder reported with no parent has left the scope, and the tracker keeps it. */
  lemma LosingItsParentBreaks(cfg: Config, root: Id, t: Contents, e: Entry, c: Change)
    requires cfg.folderId == Some(root) && Mirrors(cfg, root, t, e) && Legal(t, root, c) && LosesItsParent(t, root, c)
    ensures !Mirrors(cfg, root, Happens(t, c), After(cfg, e, c))
  {
    var x, tree, u := c.item.id, TreeOf(t, root), Happens(t, c);
    RootStands(t, root);
    ScopeIsFolders(t, root, x);
    TreeChangesAtOneFolder(t, root, c);
    ScopeWhenLeaving(tree, TreeOf(u, root), root, x);
    TopIsUnder(tree, x);
    assert x in tree && x in Subtree(tree, x) && x !in Scope(u, root);
    assert After(cfg, e, c) == e && x in e.folders;
  }

  /** The root's own rename or starring changes nothing. */
  lemma RootEventMirrors(cfg: Config, root: Id, t: Contents, e: Entry, c: Change)
    requires cfg.folderId == Some(root) && Mirrors(cfg, root, t, e) && Legal(t, root, c) && c.item.id == root
    ensures Mirrors(cfg, root, Happens(t, c), After(cfg, e, c))
  {
    RootStands(t, root);
    var u := Happens(t, c);
    assert TreeOf(u, root) == TreeOf(t, root);
    assert After(cfg, e, c) == e;
    FilesStay(cfg, root, t, e, c, e);
    hide Subtree, TreeOf, After, EffectOf, Legal, NameMatches, FileMirrors;
  }

  /** A change applied as its event happens keeps the entry a mirror of the folder, exactly unless a folder comes into
      scope with folders or matching files already in it, or a folder in scope is reported with no parent. */
  lemma ChangeMirrorsIff(cfg: Config, root: Id, t: Contents, e: Entry, c: Change)
    requires cfg.folderId == Some(root) && Mirrors(cfg, root, t, e) && Legal(t, root, c)
    ensures Mirrors(cfg, root, Happens(t, c), After(cfg, e, c)) <==> !Unanswered(cfg, t, root, c)
  {
    var x := c.item.id;
    if x in Scope(t, root) && x != root { ScopeIsFolders(t, root, x); }
    RootStands(t, root);
    hide Mirrors, After, Happens;
    if x == root {
      RootEventMirrors(cfg, root, t, e, c);
    } else if x in Scope(t, root) {
      if !c.gone && c.item.parent.None? {
        LosingItsParentBreaks(cfg, root, t, e, c);
      } else if c.gone || c.item.parent.value !in Scope(t, root) {
        LeavingMirrors(cfg, root, t, e, c);
      } else {
        MovingMirrors(cfg, root, t, e, c);
      }
    } else if (x in t && t[x].folder) || (x !in t && !c.gone && c.item.folder) {
      if c.gone || c.item.parent.None? || c.item.parent.value !in Scope(t, root) {
        OutsideMirrors(cfg, root, t, e, c);
      } else {
        EnteringMirrorsIff(cfg, root, t, e, c);
      }
    } else {
      FileEventMirrors(cfg, root, t, e, c);
    }
  }

  // ---------------------------------------------------------------- a walk, then any feed

  function ItemsById(items: seq<Item>): (t: Contents)
    requires DistinctIds(items)
    ensures forall j :: 0 <= j < |items| ==> items[j].id in t && t[items[j].id] == items[j]
  {
    map j | 0 <= j < |items| :: items[j].id := items[j]
  }

  lemma ItemIsThere(items: seq<Item>, f: Id) returns (j: nat)
    requires DistinctIds(items) && f in ItemsById(items)
    ensures j < |items| && items[j].id == f && ItemsById(items)[f] == items[j]
  {
    j :| 0 <= j < |items| && items[j].id == f;
  }

  lemma SameTree(items: seq<Item>, root: Id)
    requires DistinctIds(items)
    ensures TreeOf(ItemsById(items), root) == Tree(items, root)
  {
    var mine, theirs := TreeOf(ItemsById(items), root), Tree(items, root);
    forall x ensures (x in mine <==> x in theirs) && (x in mine ==> mine[x] == theirs[x]) {
      if x in ItemsById(items) {
        var j := ItemIsThere(items, x);
        assert items[j].folder ==> items[j].id in theirs;
      }
    }
  }

  lemma OneWalkedFile(cfg: Config, root: Id, items: seq<Item>, e: Entry, f: Id)
    requires DistinctIds(items) && FilesAre(cfg, e.files, items, |items|, Some(Scope(ItemsById(items), root)))
    ensures FileMirrors(cfg, root, ItemsById(items), e, f)
  {
    hide Scope, NameMatches, DistinctIds, ItemsById;
    var t, scope := ItemsById(items), Scope(ItemsById(items), root);
    if f in t {
      var j := ItemIsThere(items, f);
      assert Walked(cfg, items[j], Some(scope)) <==> InFolder(cfg, t, root, f);
      if f in e.files {
        var k :| 0 <= k < |items| && Walked(cfg, items[k], Some(scope)) && items[k].id == f;
        assert t[items[k].id] == items[k];
      }
    }
  }

  /** What the cold walk leaves is a mirror of the listing it walked. */
  lemma WalkMirrors(cfg: Config, root: Id, items: seq<Item>, e: Entry)
    requires DistinctIds(items)
    requires e.folders.Keys == Subtree(Tree(items, root), root)
    requires forall x :: x in e.folders ==> x in Tree(items, root) && e.folders[x] == Tree(items, root)[x]
    requires FilesAre(cfg, e.files, items, |items|, Some(Subtree(Tree(items, root), root)))
    ensures Mirrors(cfg, root, ItemsById(items), e)
  {
    hide Subtree, FilesAre, FileMirrors, Tree, TreeOf, DistinctIds, ItemsById;
    SameTree(items, root);
    forall f ensures FileMirrors(cfg, root, ItemsById(items), e, f) {
      OneWalkedFile(cfg, root, items, e, f);
    }
  }

  /** Drive after these events. */
  function AllHappen(t: Contents, changes: seq<Change>): Contents {
    if changes == [] then t else Happens(AllHappen(t, changes[..|changes| - 1]), changes[|changes| - 1])
  }

  /** A feed that reports events one by one, as they happen. */
  ghost predicate AllLegal(t: Contents, root: Id, changes: seq<Change>) {
    forall n :: 0 <= n < |changes| ==> Legal(AllHappen(t, changes[..n]), root, changes[n])
  }

  ghost predicate MirrorsAfter(cfg: Config, root: Id, t: Contents, e: Entry, changes: seq<Change>, n: nat)
    requires n <= |changes|
  {
    Mirrors(cfg, root, AllHappen(t, changes[..n]), Replayed(cfg, e, changes[..n]))
  }

  ghost predicate UnansweredAt(cfg: Config, root: Id, t: Contents, changes: seq<Change>, n: nat)
    requires n < |changes|
  {
    Unanswered(cfg, AllHappen(t, changes[..n]), root, changes[n])
  }

  /** As long as the entry is a mirror, the next change decides whether it stays one. */
  lemma NextMirrorsIff(cfg: Config, root: Id, t: Contents, e: Entry, changes: seq<Change>, n: nat)
    requires cfg.folderId == Some(root) && AllLegal(t, root, changes) && n < |changes|
    requires MirrorsAfter(cfg, root, t, e, changes, n)
    ensures MirrorsAfter(cfg, root, t, e, changes, n + 1) <==> !UnansweredAt(cfg, root, t, changes, n)
  {
    hide Mirrors, After, Happens, Legal, Unanswered;
    assert changes[..n + 1][..n] == changes[..n] && changes[..n + 1][n] == changes[n];
    ChangeMirrorsIff(cfg, root, AllHappen(t, changes[..n]), Replayed(cfg, e, changes[..n]), changes[n]);
  }

  lemma {:induction false} MirrorsWhileAnswered(cfg: Config, root: Id, t: Contents, e: Entry, changes: seq<Change>,
                                                n: nat)
    requires cfg.folderId == Some(root) && Mirrors(cfg, root, t, e) && AllLegal(t, root, changes) && n <= |changes|
    requires forall k :: 0 <= k < n ==> !UnansweredAt(cfg, root, t, changes, k)
    ensures MirrorsAfter(cfg, root, t, e, changes, n)
  {
    hide Mirrors, UnansweredAt, AllLegal;
    if n > 0 {
      hide MirrorsAfter;
      MirrorsWhileAnswered(cfg, root, t, e, changes, n - 1);
      NextMirrorsIff(cfg, root, t, e, changes, n - 1);
    }
  }

  /** Over any feed that reports events one by one: the tracked files are at every moment exactly the matching files in
      the folder, at any depth, if and only if no filled folder comes into scope and no folder in scope is reported
      with no parent. */
  lemma FeedMirrors(cfg: Config, root: Id, t: Contents, e: Entry, changes: seq<Change>)
    requires cfg.folderId == Some(root) && Mirrors(cfg, root, t, e) && AllLegal(t, root, changes)
    ensures (forall n :: 0 <= n <= |changes| ==> MirrorsAfter(cfg, root, t, e, changes, n))
       <==> (forall n :: 0 <= n < |changes| ==> !UnansweredAt(cfg, root, t, changes, n))
  {
    hide Mirrors, MirrorsAfter, UnansweredAt, AllLegal;
    if forall n :: 0 <= n <= |changes| ==> MirrorsAfter(cfg, root, t, e, changes, n) {
      forall n | 0 <= n < |changes| ensures !UnansweredAt(cfg, root, t, changes, n) {
        NextMirrorsIff(cfg, root, t, e, changes, n);
        assert MirrorsAfter(cfg, root, t, e, changes, n + 1);
      }
    }
    if forall n :: 0 <= n < |changes| ==> !UnansweredAt(cfg, root, t, changes, n) {
      forall n | 0 <= n <= |changes| ensures MirrorsAfter(cfg, root, t, e, changes, n) {
        MirrorsWhileAnswered(cfg, root, t, e, changes, n);
      }
    }
  }

  // ---------------------------------------------------------------- feeds that break it

  /** The empty folder. */
  const NOTHING: Contents := map[]

  function Watching(root: Id): Config { Config(Some(root), None) }

  function Empty(root: Id): Entry { Entry(map[root := None], map[]) }

  function FolderIs(id: Id, parent: Option<Id>): Change { Change(Item(id, parent, true, "folder"), false) }

  function FileIs(id: Id, parent: Id): Change { Change(Item(id, Some(parent), false, "file"), false) }

  lemma ThreeChanges(cfg: Config, t: Contents, e: Entry, a: Change, b: Change, c: Change)
    ensures var all := [a, b, c];
            && AllHappen(t, all[..0]) == t
            && AllHappen(t, all[..1]) == Happens(t, a)
            && AllHappen(t, all[..2]) == Happens(Happens(t, a), b)
            && AllHappen(t, all) == Happens(Happens(Happens(t, a), b), c)
            && Replayed(cfg, e, all) == After(cfg, After(cfg, After(cfg, e, a), b), c)
  {
    hide Happens, After;
    var all := [a, b, c];
    assert all[..1] == [a] && all[..2] == [a, b] && [a, b][..1] == [a] && [a][..0] == [];
    assert AllHappen(t, [a]) == Happens(AllHappen(t, []), a);
    assert AllHappen(t, [a, b]) == Happens(AllHappen(t, [a]), b);
    assert Replayed(cfg, e, [a]) == After(cfg, Replayed(cfg, e, []), a);
    assert Replayed(cfg, e, [a, b]) == After(cfg, Replayed(cfg, e, [a]), b);
  }

  /** No folder is in the root. */
  lemma RootAlone(t: Contents, root: Id)
    requires forall x :: x in t && t[x].folder && x != root ==> t[x].parent != Some(root)
    ensures Scope(t, root) == {root}
  {
    ClosedBelowHoldsSubtree(TreeOf(t, root), root, {root});
  }

  lemma FolderInRoot(t: Contents, root: Id, folder: Id)
    requires folder in t && t[folder].folder && t[folder].parent == Some(root) && folder != root
    ensures folder in Scope(t, root)
  {
    TopIsUnder(TreeOf(t, root), root);
    ChildIsUnder(TreeOf(t, root), root, root, folder);
  }

  lemma EachOfThree(t: Contents, root: Id, a: Change, b: Change, c: Change)
    requires Legal(t, root, a) && Legal(Happens(t, a), root, b) && Legal(Happens(Happens(t, a), b), root, c)
    ensures AllLegal(t, root, [a, b, c])
  {
    ThreeChanges(Watching(root), t, Empty(root), a, b, c);
    hide Legal, Happens;
  }

  lemma LegalOutside(t: Contents, root: Id, c: Change)
    requires c.item.id != root && c.item.id !in Scope(t, root)
    requires c.item.id in t && !c.gone ==> t[c.item.id].folder == c.item.folder
    ensures Legal(t, root, c)
  {
  }

  /** What the tracker does with a file's change and with a folder's, no entry of that id about. */
  lemma TrackerAnswers(root: Id, e: Entry, c: Change)
    requires !c.gone && c.item.id !in e.folders && c.item.id !in e.files && c.item.parent.Some?
    ensures var id, parent := c.item.id, c.item.parent;
            After(Watching(root), e, c)
              == if parent.value !in e.folders then e
                 else if c.item.folder then e.(folders := e.folders[id := parent])
                 else e.(files := e.files[id := parent])
  {
    hide Subtree;
    assert e.files - {c.item.id} == e.files;
  }

  lemma FilledFolderIsInside(root: Id, folder: Id, file: Id, elsewhere: Id)
    requires root != folder && folder != file && root != file && elsewhere != root && elsewhere != folder
    ensures var changes := [FolderIs(folder, Some(elsewhere)), FileIs(file, folder), FolderIs(folder, Some(root))];
            && AllLegal(NOTHING, root, changes)
            && InFolder(Watching(root), AllHappen(NOTHING, changes), root, file)
  {
    var a, b, c := FolderIs(folder, Some(elsewhere)), FileIs(file, folder), FolderIs(folder, Some(root));
    var made := Happens(NOTHING, a);
    var filled := Happens(made, b);
    var moved := Happens(filled, c);
    RootAlone(NOTHING, root);
    RootAlone(made, root);
    RootAlone(filled, root);
    hide Scope, Subtree, TreeOf, Legal, AllLegal, AllHappen;
    FolderInRoot(moved, root, folder);
    LegalOutside(NOTHING, root, a);
    LegalOutside(made, root, b);
    LegalOutside(filled, root, c);
    EachOfThree(NOTHING, root, a, b, c);
    ThreeChanges(Watching(root), NOTHING, Empty(root), a, b, c);
    hide Replayed, After;
    assert moved[file] == b.item && InFolder(Watching(root), moved, root, file);
  }

  /** A folder made elsewhere, a file put in it, and then the folder moved in: the file is never tracked. */
  lemma FilledFolderMovesIn(root: Id, folder: Id, file: Id, elsewhere: Id)
    requires root != folder && folder != file && root != file && elsewhere != root && elsewhere != folder
    ensures var changes := [FolderIs(folder, Some(elsewhere)), FileIs(file, folder), FolderIs(folder, Some(root))];
            && AllLegal(NOTHING, root, changes) && Mirrors(Watching(root), root, NOTHING, Empty(root))
            && InFolder(Watching(root), AllHappen(NOTHING, changes), root, file)
            && file !in Replayed(Watching(root), Empty(root), changes).files
  {
    hide AllLegal, InFolder, AllHappen, Mirrors, After, Replayed, Happens;
    var a, b, c := FolderIs(folder, Some(elsewhere)), FileIs(file, folder), FolderIs(folder, Some(root));
    OnlyTheRoot(root);
    FilledFolderIsInside(root, folder, file, elsewhere);
    ThreeChanges(Watching(root), NOTHING, Empty(root), a, b, c);
    TrackerAnswers(root, Empty(root), a);
    TrackerAnswers(root, Empty(root), b);
    TrackerAnswers(root, Empty(root), c);
  }

  lemma ParentlessFolderIsOutside(root: Id, folder: Id, file: Id)
    requires root != folder && folder != file && root != file
    ensures var changes := [FolderIs(folder, Some(root)), FileIs(file, folder), FolderIs(folder, None)];
            AllLegal(NOTHING, root, changes) && !InFolder(Watching(root), AllHappen(NOTHING, changes), root, file)
  {
    var a, b, c := FolderIs(folder, Some(root)), FileIs(file, folder), FolderIs(folder, None);
    var made := Happens(NOTHING, a);
    var filled := Happens(made, b);
    var moved := Happens(filled, c);
    RootAlone(NOTHING, root);
    RootAlone(moved, root);
    hide Subtree, TreeOf, AllLegal, AllHappen;
    if file in Scope(made, root) { ScopeIsFolders(made, root, file); }
    LegalOutside(NOTHING, root, a);
    LegalOutside(made, root, b);
    EachOfThree(NOTHING, root, a, b, c);
    ThreeChanges(Watching(root), NOTHING, Empty(root), a, b, c);
    hide Scope, Replayed, After;
    assert moved[file] == b.item;
  }

  /** A folder of the scope, with a file in it, reported with no parent: the file has left and stays tracked. */
  lemma FolderLosesItsParent(root: Id, folder: Id, file: Id)
    requires root != folder && folder != file && root != file
    ensures var changes := [FolderIs(folder, Some(root)), FileIs(file, folder), FolderIs(folder, None)];
            && AllLegal(NOTHING, root, changes) && Mirrors(Watching(root), root, NOTHING, Empty(root))
            && !InFolder(Watching(root), AllHappen(NOTHING, changes), root, file)
            && file in Replayed(Watching(root), Empty(root), changes).files
  {
    hide AllLegal, InFolder, AllHappen, Mirrors, Replayed, Happens, Dropped;
    var a, b, c := FolderIs(folder, Some(root)), FileIs(file, folder), FolderIs(folder, None);
    OnlyTheRoot(root);
    ParentlessFolderIsOutside(root, folder, file);
    ThreeChanges(Watching(root), NOTHING, Empty(root), a, b, c);
    var tracked := Entry(map[root := None, folder := Some(root)], map[]);
    TrackerAnswers(root, Empty(root), a);
    TrackerAnswers(root, tracked, b);
    assert After(Watching(root), After(Watching(root), tracked, b), c).files == map[file := Some(folder)];
  }

  lemma {:induction false} NothingIsTracked(cfg: Config, changes: seq<Change>)
    requires cfg.folderId.Some?
    ensures Replayed(cfg, Entry(map[], map[]), changes) == Entry(map[], map[])
  {
    if changes != [] {
      var n := |changes| - 1;
      NothingIsTracked(cfg, changes[..n]);
      hide Replayed, Subtree;
      assert After(cfg, Entry(map[], map[]), changes[n]) == Entry(map[], map[]);
    }
  }

  /** Once the Binding's folder is trashed the entry is empty, and no feed ever tracks anything again, not even when the
      folder is restored. */
  lemma TrashedRootTracksNothing(cfg: Config, root: Id, t: Contents, e: Entry, c: Change, changes: seq<Change>)
    requires cfg.folderId == Some(root) && Mirrors(cfg, root, t, e) && c.gone && c.item.id == root
    ensures Replayed(cfg, After(cfg, e, c), changes) == Entry(map[], map[])
  {
    RootStands(t, root);
    SameSubtree(root, t, e, root);
    hide Subtree, TreeOf, NameMatches;
    assert After(cfg, e, c) == Dropped(e, root);
    assert Dropped(e, root).folders == map[];
    forall f | f in e.files ensures f in FilesUnder(e, root) {
      assert FileMirrors(cfg, root, t, e, f);
    }
    assert Dropped(e, root) == Entry(map[], map[]);
    NothingIsTracked(cfg, changes);
  }

  // ---------------------------------------------------------------- a feed out of order

  /** A feed that names a file before the new folder it is in: the file is never tracked, though both events
      happened. */
  lemma FileBeforeItsFolderIsMissed(root: Id, folder: Id, file: Id)
    requires root != folder && folder != file && root != file
    ensures var cfg := Config(Some(root), None);
            var e, t: Contents := Entry(map[root := None], map[]), map[];
            var changes := [Change(Item(file, Some(folder), false, "a"), false),
                            Change(Item(folder, Some(root), true, "b"), false)];
            && Mirrors(cfg, root, t, e)
            && InFolder(cfg, AllHappen(t, changes), root, file)
            && file !in Replayed(cfg, e, changes).files
  {
    var cfg := Config(Some(root), None);
    var e, t: Contents := Entry(map[root := None], map[]), map[];
    var inner := Change(Item(file, Some(folder), false, "a"), false);
    var outer := Change(Item(folder, Some(root), true, "b"), false);
    var changes := [inner, outer];
    assert changes[..1] == [inner] && [inner][..0] == [];
    var after := AllHappen(t, changes);
    assert AllHappen(t, [inner]) == Happens(AllHappen(t, []), inner) == map[file := inner.item];
    assert after == Happens(AllHappen(t, [inner]), outer) == map[file := inner.item, folder := outer.item];
    TopIsUnder(TreeOf(after, root), root);
    ChildIsUnder(TreeOf(after, root), root, root, folder);
    assert After(cfg, e, inner) == e;
    assert After(cfg, e, outer).files == map[];
    assert Replayed(cfg, e, [inner]) == After(cfg, Replayed(cfg, e, []), inner) == e;
    assert Replayed(cfg, e, changes) == After(cfg, Replayed(cfg, e, [inner]), outer);
    OnlyTheRoot(root);
  }

  lemma OnlyTheRoot(root: Id)
    ensures Mirrors(Config(Some(root), None), root, map[], Entry(map[root := None], map[]))
  {
    var tree: Parents := map[root := None];
    assert TreeOf(map[], root) == tree;
    ClosedBelowHoldsSubtree(tree, root, {root});
  }
}
