/** The Google Drive source's folder tree and tracked files: a cold walk, then the changes feed.
    (django_connectors/providers/google/drive.py) */
module Drive {
  import opened Sequences
  import opened Values

  type Id = string

  /** `files` and `folders` remember each id's first parent, or None. */
  type Parents = map<Id, Option<Id>>

  datatype Config = Config(folderId: Option<Id>, glob: Option<string -> bool>)

  datatype Item = Item(id: Id, parent: Option<Id>, folder: bool, name: string)

  /** `gone` is `removed` or `trashed`; an item that is gone may carry no metadata, and then no parent. */
  datatype Change = Change(item: Item, gone: bool)

  /** A landed row: a file as it is now, or the tombstone of one that left. */
  datatype Output = Live(item: Item) | Tombstone(id: Id)

  datatype Entry = Entry(folders: Parents, files: Parents)

  const FOLDERS_PER_QUERY: nat := 20

  predicate Tracking(cfg: Config) { cfg.folderId.Some? || cfg.glob.Some? }

  predicate NameMatches(cfg: Config, name: string) { cfg.glob.Some? ==> cfg.glob.value(name) }

  /** Where a changed file lies now, by its parent and name. */
  predicate InScope(cfg: Config, folders: Parents, item: Item) {
    (cfg.folderId.Some? ==> item.parent.Some? && item.parent.value in folders) && NameMatches(cfg, item.name)
  }

  // ---------------------------------------------------------------- everything under a folder

  /** `path` goes down from its first folder, each step to a recorded child. */
  predicate Descends(folders: Parents, path: seq<Id>) {
    forall i :: 0 < i < |path| ==> path[i] in folders && folders[path[i]] == Some(path[i - 1])
  }

  ghost predicate Under(folders: Parents, top: Id, x: Id) {
    exists path: seq<Id> :: |path| > 0 && path[0] == top && path[|path| - 1] == x && Descends(folders, path)
  }

  ghost function Subtree(folders: Parents, top: Id): set<Id> {
    {top} + set x | x in folders && Under(folders, top, x)
  }

  lemma TopIsUnder(folders: Parents, top: Id)
    ensures Under(folders, top, top)
  {
    assert Descends(folders, [top]);
    assert [top][0] == top;
  }

  lemma ChildIsUnder(folders: Parents, top: Id, x: Id, child: Id)
    requires Under(folders, top, x) && child in folders && folders[child] == Some(x)
    ensures Under(folders, top, child)
  {
    var path :| |path| > 0 && path[0] == top && path[|path| - 1] == x && Descends(folders, path);
    var longer := path + [child];
    assert Descends(folders, longer);
    assert longer[0] == top && longer[|longer| - 1] == child;
  }

  /** A set that holds `top` and every recorded child of its members holds everything under `top`. */
  ghost predicate ClosedBelow(folders: Parents, top: Id, set0: set<Id>) {
    && top in set0
    && forall child :: child in folders && folders[child].Some? && folders[child].value in set0 ==> child in set0
  }

  lemma {:induction false} PathStaysInside(folders: Parents, top: Id, set0: set<Id>, path: seq<Id>)
    requires ClosedBelow(folders, top, set0) && |path| > 0 && path[0] == top && Descends(folders, path)
    ensures path[|path| - 1] in set0
  {
    if |path| > 1 {
      PathStaysInside(folders, top, set0, path[..|path| - 1]);
    }
  }

  lemma ClosedBelowHoldsSubtree(folders: Parents, top: Id, set0: set<Id>)
    requires ClosedBelow(folders, top, set0)
    ensures Subtree(folders, top) <= set0
  {
    forall x | Under(folders, top, x) ensures x in set0 {
      var path :| |path| > 0 && path[0] == top && path[|path| - 1] == x && Descends(folders, path);
      PathStaysInside(folders, top, set0, path);
    }
  }

  lemma SubtreeIsClosedBelow(folders: Parents, top: Id)
    ensures ClosedBelow(folders, top, Subtree(folders, top))
  {
    TopIsUnder(folders, top);
    forall child | child in folders && folders[child].Some? && folders[child].value in Subtree(folders, top)
      ensures child in Subtree(folders, top)
    {
      ChildIsUnder(folders, top, folders[child].value, child);
    }
  }

  // ---------------------------------------------------------------- what a change does, as a specification

  /** The ids whose last output was live, given those that were live before. */
  function LiveAfter(live: set<Id>, out: seq<Output>): set<Id> {
    if out == [] then live
    else
      var before := LiveAfter(live, out[..|out| - 1]);
      match out[|out| - 1]
      case Live(item) => before + {item.id}
      case Tombstone(id) => before - {id}
  }

  /** `out` is one tombstone for each of `ids`, and nothing else. */
  ghost predicate Tombstones(out: seq<Output>, ids: set<Id>) {
    && (forall i :: 0 <= i < |out| ==> out[i].Tombstone? && out[i].id in ids)
    && (forall i, j :: 0 <= i < j < |out| ==> out[i] != out[j])
    && (forall id :: id in ids ==> Tombstone(id) in out)
  }

  ghost function FilesUnder(e: Entry, top: Id): set<Id> {
    set f | f in e.files && e.files[f].Some? && e.files[f].value in Subtree(e.folders, top)
  }

  ghost function Dropped(e: Entry, top: Id): Entry {
    Entry(e.folders - Subtree(e.folders, top), e.files - FilesUnder(e, top))
  }

  datatype Effect = DropsFolder | MovesFolder | KeepsFolder | AddsFolder | Lands | Leaves | Ignored

  /** Which branch of the feed loop a change takes. */
  function EffectOf(cfg: Config, e: Entry, c: Change): Effect {
    var item := c.item;
    if item.id in e.folders then
      if c.gone then DropsFolder
      else if e.folders[item.id].None? || item.parent.None? then KeepsFolder
      else if item.parent.value !in e.folders then DropsFolder
      else MovesFolder
    else if c.gone then (if Tracking(cfg) || !item.folder then Leaves else Ignored)
    else if item.folder then
      (if cfg.folderId.Some? && item.parent.Some? && item.parent.value in e.folders then AddsFolder else Ignored)
    else if InScope(cfg, e.folders, item) then Lands
    else Leaves
  }

  ghost function After(cfg: Config, e: Entry, c: Change): Entry {
    var item := c.item;
    match EffectOf(cfg, e, c)
    case DropsFolder => Dropped(e, item.id)
    case MovesFolder => e.(folders := e.folders[item.id := item.parent])
    case AddsFolder => e.(folders := e.folders[item.id := item.parent])
    case Lands => if Tracking(cfg) then e.(files := e.files[item.id := item.parent]) else e
    case Leaves => if Tracking(cfg) then e.(files := e.files - {item.id}) else e
    case KeepsFolder => e
    case Ignored => e
  }

  /** `files.pop(id, None) is not None`: what is remembered of the file must not itself be None. */
  predicate Remembers(e: Entry, id: Id) { id in e.files && e.files[id].Some? }

  ghost predicate Emits(cfg: Config, e: Entry, c: Change, out: seq<Output>) {
    match EffectOf(cfg, e, c)
    case DropsFolder => Tombstones(out, FilesUnder(e, c.item.id))
    case Lands => out == [Live(c.item)]
    case Leaves =>
      if Tracking(cfg) then out == (if Remembers(e, c.item.id) then [Tombstone(c.item.id)] else [])
      else out == if c.gone then [Tombstone(c.item.id)] else []
    case _ => out == []
  }

  // ---------------------------------------------------------------- a listing that does not change while it is walked

  predicate DistinctIds(items: seq<Item>) { forall i, j :: 0 <= i < j < |items| ==> items[i].id != items[j].id }

  /** The folders of a listing, below `root`. */
  function Tree(items: seq<Item>, root: Id): Parents
    requires DistinctIds(items)
  {
    (map j | 0 <= j < |items| && items[j].folder :: items[j].id := items[j].parent)[root := None]
  }

  /** A file the walk lands: its name matches, and its parent is among `parents` when the scope is a folder. */
  predicate Walked(cfg: Config, item: Item, parents: Option<set<Id>>) {
    && !item.folder && NameMatches(cfg, item.name)
    && (parents.Some? ==> item.parent.Some? && item.parent.value in parents.value)
  }

  function WalkedIds(cfg: Config, items: seq<Item>, n: nat, parents: Option<set<Id>>): set<Id>
    requires n <= |items|
  {
    set j | 0 <= j < n && Walked(cfg, items[j], parents) :: items[j].id
  }

  /** The tracked files are those a cold walk over `items` finds: under the folder, or by name in the whole drive. */
  ghost predicate FilesAsListed(cfg: Config, files: Parents, items: seq<Item>)
    requires DistinctIds(items)
  {
    if cfg.folderId.Some? then
      FilesAre(cfg, files, items, |items|, Some(Subtree(Tree(items, cfg.folderId.value), cfg.folderId.value)))
    else if cfg.glob.Some? then FilesAre(cfg, files, items, |items|, None)
    else files == map[]
  }

  /** `files` holds exactly the files walked among the first `n`, each with its parent. */
  predicate FilesAre(cfg: Config, files: Parents, items: seq<Item>, n: nat, parents: Option<set<Id>>)
    requires n <= |items|
  {
    && files.Keys == WalkedIds(cfg, items, n, parents)
    && forall j :: 0 <= j < n && Walked(cfg, items[j], parents) ==> files[items[j].id] == items[j].parent
  }

  ghost predicate WalkInv(tree: Parents, items: seq<Item>, root: Id, folders: Parents, asked: set<Id>, pending: seq<Id>)
  {
    && root in folders
    && (forall x :: x in folders ==> x in tree && folders[x] == tree[x] && Under(tree, root, x))
    && (forall x :: x in folders && folders[x].Some? ==> folders[x].value in folders)
    && asked + Elements(pending) == folders.Keys
    && (forall j :: 0 <= j < |items| && items[j].folder && items[j].parent.Some? && items[j].parent.value in asked
          ==> items[j].id in folders)
  }

  /** With nothing left to ask, the walk has found exactly the folders under the root. */
  lemma WalkIsComplete(items: seq<Item>, root: Id, folders: Parents, asked: set<Id>)
    requires DistinctIds(items) && WalkInv(Tree(items, root), items, root, folders, asked, [])
    ensures folders.Keys == asked == Subtree(Tree(items, root), root)
  {
    var tree := Tree(items, root);
    assert Elements<Id>([]) == {};
    TopIsUnder(tree, root);
    forall child | child in tree && tree[child].Some? && tree[child].value in asked ensures child in asked {
      var j :| 0 <= j < |items| && items[j].folder && items[j].id == child;
    }
    ClosedBelowHoldsSubtree(tree, root, asked);
  }

  lemma WalkStarts(tree: Parents, items: seq<Item>, root: Id)
    requires root in tree && tree[root].None?
    ensures WalkInv(tree, items, root, map[root := None], {}, [root])
  {
    TopIsUnder(tree, root);
    assert Elements([root]) == {[root][0]};
  }

  lemma BatchKeepsWalkInv(tree: Parents, items: seq<Item>, root: Id, before: Parents, asked: set<Id>, batch: seq<Id>,
                          rest: seq<Id>,
                          after: Parents, found: seq<Id>)
    requires WalkInv(tree, items, root, before, asked, batch + rest)
    requires Discovers(tree, items, before, batch, after, found)
    ensures WalkInv(tree, items, root, after, asked + Elements(batch), rest + found)
  {
    hide Under, Elements;
    ElementsConcat(batch, rest);
    ElementsConcat(rest, found);
    forall x | x in after ensures Under(tree, root, x) {
      if x !in before {
        ChildIsUnder(tree, root, tree[x].value, x);
      }
    }
  }

  /** A query that finds folders brings the walk nearer to having found them all. */
  lemma Progress(tree: Parents, items: seq<Item>, before: Parents, batch: seq<Id>, after: Parents, found: seq<Id>)
    requires Discovers(tree, items, before, batch, after, found) && before.Keys <= tree.Keys
    ensures after.Keys <= tree.Keys
    ensures |before.Keys| <= |after.Keys| <= |tree.Keys|
    ensures found != [] ==> |before.Keys| < |after.Keys|
  {
    NoLarger(before.Keys, after.Keys);
    NoLarger(after.Keys, tree.Keys);
    if found != [] {
      assert found[0] in Elements(found);
      NoLarger(before.Keys + {found[0]}, after.Keys);
    }
  }

  lemma NoLarger(a: set<Id>, b: set<Id>)
    requires a <= b
    ensures |a| <= |b|
  {
    assert b == a + (b - a);
  }

  /** One query's folders: those with a parent in the batch that were not known before. */
  ghost predicate Discovers(tree: Parents, items: seq<Item>, before: Parents, batch: seq<Id>, after: Parents,
                            found: seq<Id>)
  {
    && after.Keys == before.Keys + Elements(found) && Elements(found) !! before.Keys
    && (forall x :: x in before ==> after[x] == before[x])
    && (forall x :: x in after && x !in before
          ==> x in tree && after[x] == tree[x] && tree[x].Some? && tree[x].value in Elements(batch))
    && (forall j :: 0 <= j < |items| && items[j].folder && items[j].parent.Some?
                    && items[j].parent.value in Elements(batch)
          ==> items[j].id in after)
  }

  /** What one more listed item does to what the query has found. */
  lemma DiscoversMore(tree: Parents, items: seq<Item>, i: nat, before: Parents, batch: seq<Id>, folders: Parents,
                      found: seq<Id>)
    requires i < |items| && Discovers(tree, items[..i], before, batch, folders, found)
    ensures var listed := items[i].parent.Some? && items[i].parent.value in Elements(batch);
            && (!(items[i].folder && listed) || items[i].id in folders ==>
                  Discovers(tree, items[..i + 1], before, batch, folders, found))
            && (listed && items[i].id !in folders && items[i].id in tree && tree[items[i].id] == items[i].parent ==>
                  Discovers(tree, items[..i + 1], before, batch, folders[items[i].id := items[i].parent],
                            found + [items[i].id]))
  {
    var id := items[i].id;
    ElementsConcat(found, [id]);
    assert Elements([id]) == {[id][0]};
    hide Elements;
    assert items[..i + 1] == items[..i] + [items[i]];
  }

  /** The files one query lands, among the first `n` listed: what it adds to those already tracked. */
  predicate FilesGrow(cfg: Config, before: Parents, files: Parents, items: seq<Item>, n: nat, batch: set<Id>)
    requires n <= |items|
  {
    var walked := WalkedIds(cfg, items, n, Some(batch));
    && files.Keys == before.Keys + walked
    && (forall x :: x in before && x !in walked ==> files[x] == before[x])
    && (forall j :: 0 <= j < n && Walked(cfg, items[j], Some(batch)) ==> files[items[j].id] == items[j].parent)
  }

  lemma WalkedMore(cfg: Config, items: seq<Item>, i: nat, parents: Option<set<Id>>)
    requires i < |items|
    ensures WalkedIds(cfg, items, i + 1, parents) ==
              WalkedIds(cfg, items, i, parents) + if Walked(cfg, items[i], parents) then {items[i].id} else {}
  {
    hide Walked;
  }

  lemma FilesGrowMore(cfg: Config, before: Parents, files: Parents, items: seq<Item>, i: nat, batch: set<Id>)
    requires i < |items| && DistinctIds(items) && FilesGrow(cfg, before, files, items, i, batch)
    ensures if Walked(cfg, items[i], Some(batch))
            then FilesGrow(cfg, before, files[items[i].id := items[i].parent], items, i + 1, batch)
            else FilesGrow(cfg, before, files, items, i + 1, batch)
    ensures WalkedIds(cfg, items, i + 1, Some(batch)) ==
              WalkedIds(cfg, items, i, Some(batch)) + if Walked(cfg, items[i], Some(batch)) then {items[i].id} else {}
  {
    WalkedMore(cfg, items, i, Some(batch));
    forall j | 0 <= j < i && Walked(cfg, items[j], Some(batch))
      ensures items[j].id in WalkedIds(cfg, items, i, Some(batch))
    {
    }
    hide Walked, WalkedIds;
  }

  /** Files walked under more folders, once those folders have been listed too. */
  lemma FilesOfMore(cfg: Config, before: Parents, after: Parents, items: seq<Item>, asked: set<Id>, batch: set<Id>)
    requires DistinctIds(items) && FilesAre(cfg, before, items, |items|, Some(asked))
    requires FilesGrow(cfg, before, after, items, |items|, batch)
    ensures FilesAre(cfg, after, items, |items|, Some(asked + batch))
  {
    forall j | 0 <= j < |items| && Walked(cfg, items[j], Some(asked + batch))
      ensures items[j].id in after && after[items[j].id] == items[j].parent
    {
      if Walked(cfg, items[j], Some(batch)) {
        assert items[j].id in WalkedIds(cfg, items, |items|, Some(batch));
      } else {
        assert items[j].id in WalkedIds(cfg, items, |items|, Some(asked));
      }
    }
  }

  // ---------------------------------------------------------------- the source's state, changed in place

  class Tracker {
    const cfg: Config
    var folders: Parents
    var files: Parents
    var token: string

    ghost function Snapshot(): Entry
      reads this
    {
      Entry(folders, files)
    }

    constructor (cfg: Config)
      ensures this.cfg == cfg && Snapshot() == Entry(map[], map[]) && token == ""
    {
      this.cfg, folders, files, token := cfg, map[], map[], "";
    }

    method Children() returns (children: map<Id, seq<Id>>)
      ensures forall p, c :: p in children && c in children[p] ==> c in folders && folders[c] == Some(p)
      ensures forall c :: c in folders && folders[c].Some? ==>
                folders[c].value in children && c in children[folders[c].value]
    {
      children := map[];
      var left := folders.Keys;
      while left != {}
        invariant left <= folders.Keys
        invariant forall p, c :: p in children && c in children[p] ==> c in folders && folders[c] == Some(p)
        invariant forall c :: c in folders.Keys - left && folders[c].Some? ==>
                    folders[c].value in children && c in children[folders[c].value]
        decreases left
      {
        var child :| child in left;
        if folders[child].Some? {
          var p := folders[child].value;
          children := children[p := (if p in children then children[p] else []) + [child]];
        }
        left := left - {child};
      }
    }

    /** Every folder under `top`, found by a worklist that a cyclic parent map cannot keep going. */
    method FindSubtree(top: Id) returns (gone: set<Id>)
      ensures gone == Subtree(folders, top)
    {
      var children := Children();
      TopIsUnder(folders, top);
      hide Under;
      gone := {top};
      var frontier := [top];
      while frontier != []
        invariant gone <= folders.Keys + {top} && top in gone
        invariant forall x :: x in gone ==> Under(folders, top, x)
        invariant forall i :: 0 <= i < |frontier| ==> frontier[i] in gone
        invariant forall x, c :: x in gone && x !in frontier && x in children && c in children[x] ==> c in gone
        decreases folders.Keys + {top} - gone, |frontier|
      {
        var current := frontier[|frontier| - 1];
        frontier := frontier[..|frontier| - 1];
        if current in children {
          gone, frontier := Visit(children, top, current, gone, frontier);
        }
      }
      assert ClosedBelow(folders, top, gone);
      ClosedBelowHoldsSubtree(folders, top, gone);
    }

    /** One folder's children join the worklist. */
    method Visit(children: map<Id, seq<Id>>, ghost top: Id, current: Id, gone0: set<Id>, frontier0: seq<Id>)
      returns (gone: set<Id>, frontier: seq<Id>)
      requires current in children && current in gone0 && Under(folders, top, current)
      requires forall c :: c in children[current] ==> c in folders && folders[c] == Some(current)
      requires forall x :: x in gone0 ==> Under(folders, top, x)
      ensures gone0 <= gone && gone <= gone0 + folders.Keys
      ensures forall x :: x in gone ==> Under(folders, top, x)
      ensures forall c :: c in children[current] ==> c in gone
      ensures |frontier| >= |frontier0| && frontier[..|frontier0|] == frontier0
      ensures forall x :: x in gone <==> x in gone0 || x in frontier[|frontier0|..]
      ensures gone == gone0 ==> frontier == frontier0
    {
      hide Under;
      gone, frontier := gone0, frontier0;
      for i := 0 to |children[current]|
        invariant gone0 <= gone && gone <= gone0 + folders.Keys
        invariant forall x :: x in gone ==> Under(folders, top, x)
        invariant forall k :: 0 <= k < i ==> children[current][k] in gone
        invariant |frontier| >= |frontier0| && frontier[..|frontier0|] == frontier0
        invariant forall x :: x in gone <==> x in gone0 || x in frontier[|frontier0|..]
        invariant gone == gone0 ==> frontier == frontier0
      {
        var child := children[current][i];
        if child !in gone {
          ChildIsUnder(folders, top, current, child);
          gone := gone + {child};
          frontier := frontier + [child];
          assert frontier[|frontier0|..] == frontier[|frontier0|..|frontier| - 1] + [child];
        }
      }
    }

    /** Tombstones exactly the tracked files under `top`, once each, and forgets exactly the folders under it. */
    method DropSubtree(top: Id) returns (out: seq<Output>)
      modifies this`folders, this`files
      ensures Snapshot() == Dropped(old(Snapshot()), top)
      ensures Tombstones(out, FilesUnder(old(Snapshot()), top))
    {
      var gone := FindSubtree(top);
      folders := folders - gone;
      out := [];
      var left := files.Keys;
      ghost var under := FilesUnder(old(Snapshot()), top);
      while left != {}
        invariant left <= old(files).Keys && folders == old(folders) - gone
        invariant files == old(files) - (under - left)
        invariant Tombstones(out, under - left)
        decreases left
      {
        var id :| id in left;
        left := left - {id};
        if files[id].Some? && files[id].value in gone {
          files := files - {id};
          assert Tombstone(id) !in out;
          out := out + [Tombstone(id)];
        }
      }
      assert under - left == under && files == old(files) - under;
    }

    /** One change of the feed. */
    method ApplyChange(c: Change) returns (out: seq<Output>)
      modifies this`folders, this`files
      ensures Snapshot() == After(cfg, old(Snapshot()), c)
      ensures Emits(cfg, old(Snapshot()), c, out)
    {
      var tracking := cfg.folderId.Some? || cfg.glob.Some?;
      var item := c.item;
      out := [];
      if item.id in folders {
        var isRoot := folders[item.id].None?;
        if c.gone {
          out := DropSubtree(item.id);
        } else if isRoot || item.parent.None? {
        } else if item.parent.value !in folders {
          out := DropSubtree(item.id);
        } else {
          folders := folders[item.id := item.parent];
        }
        return;
      }
      if c.gone {
        if tracking {
          out := Forget(item.id);
        } else if !item.folder {
          out := [Tombstone(item.id)];
        }
        return;
      }
      if item.folder {
        if cfg.folderId.Some? && item.parent.Some? && item.parent.value in folders {
          folders := folders[item.id := item.parent];
        }
        return;
      }
      if InScope(cfg, folders, item) {
        if tracking {
          files := files[item.id := item.parent];
        }
        out := [Live(item)];
      } else if tracking {
        out := Forget(item.id);
      }
    }

    method Forget(id: Id) returns (out: seq<Output>)
      modifies this`files
      ensures files == old(files) - {id}
      ensures out == if old(Remembers(Snapshot(), id)) then [Tombstone(id)] else []
    {
      out := if id in files && files[id].Some? then [Tombstone(id)] else [];
      files := files - {id};
    }

    // -------------------------------------------------------------- the feed, page by page

    /** Replays every page from the stored token; only a page that carries the new token ends the feed well. */
    method Changes(feed: seq<Response>, ghost live: set<Id>) returns (ended: Ending, out: seq<Output>)
      modifies this
      ensures ended == EndOf(feed)
      ensures Snapshot() == Replayed(cfg, old(Snapshot()), ChangesIn(feed))
      ensures token == if ended.Complete? then ended.newToken else old(token)
      ensures Replays(cfg, old(Snapshot()), ChangesIn(feed), live, LiveAfter(live, out))
    {
      hide EndOf, ChangesIn, Replayed, Replays, LiveAfter;
      out, ended := [], Broken;
      var i := 0;
      ghost var was, done := Snapshot(), [];
      assert feed[0..] == feed;
      NothingReplayed(cfg, was, live);
      while i < |feed|
        invariant 0 <= i <= |feed| && token == old(token) && ended == Broken
        invariant EndOf(feed) == EndOf(feed[i..]) && ChangesIn(feed) == done + ChangesIn(feed[i..])
        invariant Snapshot() == Replayed(cfg, was, done)
        invariant Replays(cfg, was, done, live, LiveAfter(live, out))
      {
        FeedStep(feed, i);
        match feed[i]
        case Rejected =>
          assert done + [] == done;
          return Expired, out;
        case Failed =>
          assert done + [] == done;
          return Broken, out;
        case Page(changes, newToken, nextToken) =>
          ghost var before := LiveAfter(live, out);
          var more := ApplyPage(changes, before);
          ReplayedConcat(cfg, was, done, changes);
          ReplaysConcat(cfg, was, done, changes, live, before, LiveAfter(before, more));
          LiveAfterConcat(live, out, more);
          ghost var rest := ChangesIn(feed[i + 1..]);
          assert done + (changes + rest) == (done + changes) + rest && changes + [] == changes;
          out, done := out + more, done + changes;
          if newToken != "" {
            token := newToken;
            return Complete(newToken), out;
          }
          if nextToken == "" {
            return Broken, out;
          }
          i := i + 1;
      }
      FeedStep(feed, i);
      assert done + [] == done;
    }

    /** One sync: replay the feed, or walk everything when there is no token or it is no longer accepted. The token is
        read before the walk. `live` are the ids live at the destination. */
    method IterFiles(feed: seq<Response>, items: seq<Item>, startToken: string, ghost live: set<Id>)
      returns (ok: bool, out: seq<Output>)
      requires DistinctIds(items)
      modifies this
      ensures old(token) != "" && !EndOf(feed).Expired? ==>
                && ok == EndOf(feed).Complete?
                && Snapshot() == Replayed(cfg, old(Snapshot()), ChangesIn(feed))
                && Replays(cfg, old(Snapshot()), ChangesIn(feed), live, LiveAfter(live, out))
                && (ok ==> token == EndOf(feed).newToken)
      ensures old(token) == "" || EndOf(feed).Expired? ==> ok == (startToken != "")
      ensures ok && (old(token) == "" || EndOf(feed).Expired?) ==>
                && token == startToken
                && FilesAsListed(cfg, files, items) && (cfg.folderId.Some? ==> Rooted(Snapshot()))
                && (Tracking(cfg) && old(token) == "" ==> LiveAfter(live, out) == live + files.Keys)
    {
      hide Replays, Replayed, Subtree, Tree, FilesAre, EndOf, ChangesIn, LiveAfter, Rooted;
      out, ok := [], false;
      NothingLive(live);
      if token != "" {
        var ended;
        ended, out := Changes(feed, live);
        if !ended.Expired? {
          return ended.Complete?, out;
        }
      }
      if startToken == "" {
        return;
      }
      ghost var partly := LiveAfter(live, out);
      var more;
      if cfg.folderId.Some? {
        more := WalkFolders(cfg.folderId.value, items, partly);
      } else {
        more := ListDrive(items, partly);
      }
      LiveAfterConcat(live, out, more);
      if cfg.folderId.None? && cfg.glob.Some? { FilesAreWalked(cfg, files, items); }
      token := startToken;
      ok, out := true, out + more;
    }

    method ApplyPage(changes: seq<Change>, ghost live: set<Id>) returns (out: seq<Output>)
      modifies this`folders, this`files
      ensures Snapshot() == Replayed(cfg, old(Snapshot()), changes)
      ensures Replays(cfg, old(Snapshot()), changes, live, LiveAfter(live, out))
    {
      out := [];
      for i := 0 to |changes|
        invariant Snapshot() == Replayed(cfg, old(Snapshot()), changes[..i])
        invariant Replays(cfg, old(Snapshot()), changes[..i], live, LiveAfter(live, out))
      {
        var more := ApplyChange(changes[i]);
        LiveAfterConcat(live, out, more);
        assert changes[..i + 1][..i] == changes[..i];
        out := out + more;
      }
      assert changes[..|changes|] == changes;
    }

    // -------------------------------------------------------------- the cold walk

    /** Drive-wide: one listing of everything. */
    method ListDrive(items: seq<Item>, ghost live: set<Id>) returns (out: seq<Output>)
      requires cfg.folderId.None? && DistinctIds(items)
      modifies this`folders, this`files
      ensures folders == map[]
      ensures if cfg.glob.Some? then FilesAre(cfg, files, items, |items|, None) else files == map[]
      ensures LiveAfter(live, out) == live + WalkedIds(cfg, items, |items|, None)
    {
      folders, files, out := map[], map[], [];
      for i := 0 to |items|
        invariant folders == map[]
        invariant if cfg.glob.Some? then FilesAre(cfg, files, items, i, None) else files == map[]
        invariant LiveAfter(live, out) == live + WalkedIds(cfg, items, i, None)
      {
        var item := items[i];
        if !item.folder && NameMatches(cfg, item.name) {
          if cfg.glob.Some? {
            files := files[item.id := item.parent];
          }
          LandOne(live, out, item);
          out := out + [Live(item)];
        }
      }
    }

    /** Folder-scoped: breadth first, twenty folders to a query. It lands exactly the files under the root. */
    method WalkFolders(root: Id, items: seq<Item>, ghost live: set<Id>) returns (out: seq<Output>)
      requires cfg.folderId == Some(root) && DistinctIds(items)
      modifies this`folders, this`files
      ensures var tree := Tree(items, root);
              && folders.Keys == Subtree(tree, root)
              && (forall x :: x in folders ==> x in tree && folders[x] == tree[x])
              && FilesAre(cfg, files, items, |items|, Some(Subtree(tree, root)))
      ensures LiveAfter(live, out) == live + files.Keys
      ensures Rooted(Snapshot())
    {
      ghost var tree := Tree(items, root);
      RootIsInTree(items, root);
      hide Under, LiveAfter, WalkInv, Discovers, FilesAre, FilesGrow, Elements, WalkedIds, Tree;
      folders, files, out := map[root := None], map[], [];
      NothingLive(live);
      NothingWalked(cfg, items);
      WalkStarts(tree, items, root);
      var pending := [root];
      ghost var asked: set<Id> := {};
      while pending != []
        invariant WalkInv(tree, items, root, folders, asked, pending) && root in folders && folders.Keys <= tree.Keys
        invariant FilesAre(cfg, files, items, |items|, Some(asked))
        invariant LiveAfter(live, out) == live + files.Keys
        decreases |tree.Keys| - |folders.Keys|, |pending|
      {
        ghost var had := files.Keys;
        var later, more, done := Round(root, items, pending, asked, LiveAfter(live, out));
        LiveAfterConcat(live, out, more);
        Absorbs(live, had, files.Keys);
        out, pending, asked := out + more, later, done;
      }
      WalkIsComplete(items, root, folders, asked);
      WalkIsRooted(root, items, asked);
    }

    /** Asks about the first folders still pending, and queues the folders it finds. */
    method Round(root: Id, items: seq<Item>, pending: seq<Id>, ghost asked: set<Id>, ghost live: set<Id>)
      returns (later: seq<Id>, out: seq<Output>, ghost done: set<Id>)
      requires DistinctIds(items) && pending != [] && root in folders && folders.Keys <= Tree(items, root).Keys
      requires WalkInv(Tree(items, root), items, root, folders, asked, pending)
      requires FilesAre(cfg, files, items, |items|, Some(asked)) && files.Keys <= live
      modifies this`folders, this`files
      ensures root in folders && folders.Keys <= Tree(items, root).Keys
      ensures WalkInv(Tree(items, root), items, root, folders, done, later)
      ensures FilesAre(cfg, files, items, |items|, Some(done))
      ensures LiveAfter(live, out) == live + files.Keys && old(files).Keys <= files.Keys
      ensures |old(folders).Keys| < |folders.Keys| <= |Tree(items, root).Keys|
           || (|old(folders).Keys| == |folders.Keys| && |later| < |pending|)
    {
      hide Under, LiveAfter, WalkInv, Discovers, FilesAre, FilesGrow, Elements, WalkedIds, Tree;
      var n := if |pending| < FOLDERS_PER_QUERY then |pending| else FOLDERS_PER_QUERY;
      var batch, rest := pending[..n], pending[n..];
      assert pending == batch + rest;
      var found;
      found, out := ListBatch(root, items, batch, live);
      BatchKeepsWalkInv(Tree(items, root), items, root, old(folders), asked, batch, rest, folders, found);
      Progress(Tree(items, root), items, old(folders), batch, folders, found);
      FilesOfMore(cfg, old(files), files, items, asked, Elements(batch));
      done, later := asked + Elements(batch), rest + found;
    }

    lemma WalkIsRooted(root: Id, items: seq<Item>, asked: set<Id>)
      requires DistinctIds(items) && WalkInv(Tree(items, root), items, root, folders, asked, [])
      requires FilesAre(cfg, files, items, |items|, Some(asked))
      ensures Rooted(Snapshot())
      ensures forall x :: x in folders ==> x in Tree(items, root) && folders[x] == Tree(items, root)[x]
    {
      assert Elements<Id>([]) == {};
      forall f | f in files ensures files[f].Some? && files[f].value in folders {
        assert f in WalkedIds(cfg, items, |items|, Some(asked));
      }
    }

    /** One query: the folders and files whose parent is in the batch. */
    method ListBatch(root: Id, items: seq<Item>, batch: seq<Id>, ghost live: set<Id>)
      returns (found: seq<Id>, out: seq<Output>)
      requires DistinctIds(items) && root in folders
      modifies this`folders, this`files
      ensures Discovers(Tree(items, root), items, old(folders), batch, folders, found)
      ensures FilesGrow(cfg, old(files), files, items, |items|, Elements(batch)) && root in folders
      ensures files.Keys == old(files).Keys + WalkedIds(cfg, items, |items|, Some(Elements(batch)))
      ensures LiveAfter(live, out) == live + WalkedIds(cfg, items, |items|, Some(Elements(batch)))
    {
      hide LiveAfter, FilesGrow, Discovers;
      found, out := [], [];
      ghost var tree := Tree(items, root);
      NothingListed(tree, folders, batch, cfg, files, items, live);
      for i := 0 to |items|
        invariant Discovers(tree, items[..i], old(folders), batch, folders, found) && root in folders
        invariant FilesGrow(cfg, old(files), files, items, i, Elements(batch))
        invariant LiveAfter(live, out) == live + WalkedIds(cfg, items, i, Some(Elements(batch)))
      {
        var item := items[i];
        DiscoversMore(tree, items, i, old(folders), batch, folders, found);
        FilesGrowMore(cfg, old(files), files, items, i, Elements(batch));
        if item.parent.Some? && item.parent.value in batch {
          if item.folder {
            if item.id !in folders {
              folders := folders[item.id := item.parent];
              found := found + [item.id];
            }
          } else if NameMatches(cfg, item.name) {
            files := files[item.id := item.parent];
            LandOne(live, out, item);
            out := out + [Live(item)];
          }
        }
      }
      assert items[..|items|] == items;
      FilesGrowByWalked(cfg, old(files), files, items, Elements(batch));
    }
  }

  lemma FilesGrowByWalked(cfg: Config, before: Parents, files: Parents, items: seq<Item>, batch: set<Id>)
    requires FilesGrow(cfg, before, files, items, |items|, batch)
    ensures files.Keys == before.Keys + WalkedIds(cfg, items, |items|, Some(batch))
  {
  }

  lemma LandOne(live: set<Id>, out: seq<Output>, item: Item)
    ensures LiveAfter(live, out + [Live(item)]) == LiveAfter(live, out) + {item.id}
  {
    LiveAfterConcat(live, out, [Live(item)]);
    assert [Live(item)][..0] == [];
  }

  lemma NothingListed(tree: Parents, folders: Parents, batch: seq<Id>, cfg: Config, files: Parents, items: seq<Item>,
                      live: set<Id>)
    ensures Discovers(tree, items[..0], folders, batch, folders, [])
    ensures FilesGrow(cfg, files, files, items, 0, Elements(batch))
    ensures LiveAfter(live, []) == live + WalkedIds(cfg, items, 0, Some(Elements(batch)))
  {
  }

  lemma Absorbs(a: set<Id>, b: set<Id>, c: set<Id>)
    requires b <= c
    ensures a + b + c == a + c
  {
  }

  lemma FilesAreWalked(cfg: Config, files: Parents, items: seq<Item>)
    requires FilesAre(cfg, files, items, |items|, None)
    ensures files.Keys == WalkedIds(cfg, items, |items|, None)
  {
  }

  lemma RootIsInTree(items: seq<Item>, root: Id)
    requires DistinctIds(items)
    ensures root in Tree(items, root) && Tree(items, root)[root].None?
  {
  }

  lemma NothingLive(live: set<Id>)
    ensures LiveAfter(live, []) == live
  {
  }

  lemma NothingWalked(cfg: Config, items: seq<Item>)
    ensures FilesAre(cfg, map[], items, |items|, Some({}))
  {
  }

  /** One answer of the changes endpoint. Running out of answers is a failed request. */
  datatype Response = Page(changes: seq<Change>, newToken: string, nextToken: string) | Rejected | Failed

  datatype Ending = Complete(newToken: string) | Expired | Broken

  function EndOf(feed: seq<Response>): Ending {
    if feed == [] || feed[0].Failed? then Broken
    else if feed[0].Rejected? then Expired
    else if feed[0].newToken != "" then Complete(feed[0].newToken)
    else if feed[0].nextToken == "" then Broken
    else EndOf(feed[1..])
  }

  /** The changes a replay reads before the feed ends. */
  function ChangesIn(feed: seq<Response>): seq<Change> {
    if feed == [] || !feed[0].Page? then []
    else feed[0].changes + if feed[0].newToken == "" && feed[0].nextToken != "" then ChangesIn(feed[1..]) else []
  }

  lemma FeedStep(feed: seq<Response>, i: nat)
    requires i <= |feed|
    ensures i == |feed| || feed[i].Failed? ==> EndOf(feed[i..]) == Broken && ChangesIn(feed[i..]) == []
    ensures i < |feed| && feed[i].Rejected? ==> EndOf(feed[i..]) == Expired && ChangesIn(feed[i..]) == []
    ensures i < |feed| && feed[i].Page? && feed[i].newToken != "" ==>
              EndOf(feed[i..]) == Complete(feed[i].newToken) && ChangesIn(feed[i..]) == feed[i].changes + []
    ensures i < |feed| && feed[i].Page? && feed[i].newToken == "" && feed[i].nextToken == "" ==>
              EndOf(feed[i..]) == Broken && ChangesIn(feed[i..]) == feed[i].changes + []
    ensures i < |feed| && feed[i].Page? && feed[i].newToken == "" && feed[i].nextToken != "" ==>
              && EndOf(feed[i..]) == EndOf(feed[i + 1..])
              && ChangesIn(feed[i..]) == feed[i].changes + ChangesIn(feed[i + 1..])
  {
    if i < |feed| {
      assert feed[i..][0] == feed[i] && feed[i..][1..] == feed[i + 1..];
    }
  }

  lemma NothingReplayed(cfg: Config, e: Entry, live: set<Id>)
    ensures Replayed(cfg, e, []) == e && Replays(cfg, e, [], live, LiveAfter(live, []))
  {
  }

  ghost function Replayed(cfg: Config, e: Entry, changes: seq<Change>): Entry {
    if changes == [] then e
    else After(cfg, Replayed(cfg, e, changes[..|changes| - 1]), changes[|changes| - 1])
  }

  /** Outputs the feed may emit for these changes turn the live ids `live` into `after`. */
  ghost predicate Replays(cfg: Config, e: Entry, changes: seq<Change>, live: set<Id>, after: set<Id>) {
    if changes == [] then after == live
    else
      var init := changes[..|changes| - 1];
      exists mid, out ::
        && Replays(cfg, e, init, live, mid)
        && Emits(cfg, Replayed(cfg, e, init), changes[|changes| - 1], out)
        && after == LiveAfter(mid, out)
  }

  lemma {:induction false} LiveAfterConcat(live: set<Id>, a: seq<Output>, b: seq<Output>)
    ensures LiveAfter(live, a + b) == LiveAfter(LiveAfter(live, a), b)
    decreases |b|
  {
    if b == [] {
      assert a + b == a;
    } else {
      assert (a + b)[..|a + b| - 1] == a + b[..|b| - 1];
      LiveAfterConcat(live, a, b[..|b| - 1]);
    }
  }

  lemma {:induction false} ReplayedConcat(cfg: Config, e: Entry, a: seq<Change>, b: seq<Change>)
    ensures Replayed(cfg, e, a + b) == Replayed(cfg, Replayed(cfg, e, a), b)
    decreases |b|
  {
    hide After;
    if b == [] {
      assert a + b == a;
    } else {
      assert (a + b)[..|a + b| - 1] == a + b[..|b| - 1];
      ReplayedConcat(cfg, e, a, b[..|b| - 1]);
    }
  }

  lemma {:induction false} ReplaysConcat(cfg: Config, e: Entry, a: seq<Change>, b: seq<Change>, live: set<Id>,
                                         mid: set<Id>, after: set<Id>)
    requires Replays(cfg, e, a, live, mid) && Replays(cfg, Replayed(cfg, e, a), b, mid, after)
    ensures Replays(cfg, e, a + b, live, after)
    decreases |b|
  {
    hide After, Emits;
    if b == [] {
      assert a + b == a;
    } else {
      var init, last := b[..|b| - 1], b[|b| - 1];
      var between, out :| Replays(cfg, Replayed(cfg, e, a), init, mid, between)
        && Emits(cfg, Replayed(cfg, Replayed(cfg, e, a), init), last, out) && after == LiveAfter(between, out);
      ReplaysConcat(cfg, e, a, init, live, mid, between);
      ReplayedConcat(cfg, e, a, init);
      assert (a + b)[..|a + b| - 1] == a + init && (a + b)[|a + b| - 1] == last;
    }
  }

  // ---------------------------------------------------------------- the two invariants

  /** Folder-scoped: every tracked file, and every folder but the root, has its parent in the tree. */
  ghost predicate Rooted(e: Entry) {
    && (forall x :: x in e.folders && e.folders[x].Some? ==> e.folders[x].value in e.folders)
    && (forall f :: f in e.files ==> e.files[f].Some? && e.files[f].value in e.folders)
  }

  lemma ChangeKeepsRooted(cfg: Config, e: Entry, c: Change)
    requires cfg.folderId.Some? && Rooted(e)
    ensures Rooted(After(cfg, e, c))
  {
    hide Subtree;
    if EffectOf(cfg, e, c).DropsFolder? {
      SubtreeIsClosedBelow(e.folders, c.item.id);
    }
  }

  lemma {:induction false} TombstonesUnland(live: set<Id>, out: seq<Output>)
    requires forall i :: 0 <= i < |out| ==> out[i].Tombstone?
    ensures LiveAfter(live, out) == live - set i | 0 <= i < |out| :: out[i].id
  {
    if out != [] {
      TombstonesUnland(live, out[..|out| - 1]);
    }
  }

  /** A tracked file remembered without a parent leaves the scope: it is forgotten and no tombstone is emitted. */
  predicate LosesSilently(cfg: Config, e: Entry, c: Change) {
    EffectOf(cfg, e, c).Leaves? && c.item.id in e.files && e.files[c.item.id].None?
  }

  /** Live and tracked stay the same ids through a change, exactly unless it loses a parentless file silently. */
  lemma ChangeKeepsTrackingIff(cfg: Config, e: Entry, c: Change, out: seq<Output>)
    requires Tracking(cfg) && Emits(cfg, e, c, out)
    ensures LiveAfter(e.files.Keys, out) == After(cfg, e, c).files.Keys <==> !LosesSilently(cfg, e, c)
  {
    hide Subtree;
    if EffectOf(cfg, e, c).DropsFolder? {
      var ids := FilesUnder(e, c.item.id);
      TombstonesUnland(e.files.Keys, out);
      assert forall id :: id in ids ==> Tombstone(id) in out;
      assert ids == set i | 0 <= i < |out| :: out[i].id;
    } else if out != [] {
      assert out[..0] == [];
    }
  }

  /** Such a loss: a file shared without a parent, landed under a glob, then trashed. */
  lemma ParentlessFileIsLostSilently(glob: string -> bool, name: string)
    requires glob(name)
    ensures var cfg, item := Config(None, Some(glob)), Item("f", None, false, name);
            var landed := After(cfg, Entry(map[], map[]), Change(item, false));
            && Emits(cfg, Entry(map[], map[]), Change(item, false), [Live(item)])
            && LosesSilently(cfg, landed, Change(item, true))
            && Emits(cfg, landed, Change(item, true), [])
            && After(cfg, landed, Change(item, true)).files == map[]
  {
  }

  /** Every file these changes may land has a parent. */
  predicate Parented(changes: seq<Change>) {
    forall i :: 0 <= i < |changes| ==> changes[i].gone || changes[i].item.folder || changes[i].item.parent.Some?
  }

  ghost predicate FilesParented(e: Entry) { forall f :: f in e.files ==> e.files[f].Some? }

  lemma ChangeKeepsParented(cfg: Config, e: Entry, c: Change)
    requires FilesParented(e) && (cfg.folderId.Some? || Parented([c]))
    ensures FilesParented(After(cfg, e, c))
  {
    assert Parented([c]) ==> [c][0].gone || c.item.folder || c.item.parent.Some?;
  }

  /** Over any replay of any feed: ids live and not since tombstoned are exactly the tracked files. Folder-scoped, no
      condition is needed; scoped by a glob alone, files must come with a parent. */
  lemma {:induction false} FeedKeepsTracking(cfg: Config, e: Entry, changes: seq<Change>, after: set<Id>)
    requires Tracking(cfg) && FilesParented(e) && (cfg.folderId.Some? || Parented(changes))
    requires Replays(cfg, e, changes, e.files.Keys, after)
    ensures after == Replayed(cfg, e, changes).files.Keys
    ensures FilesParented(Replayed(cfg, e, changes))
  {
    if changes != [] {
      hide After, Emits, LosesSilently, EffectOf;
      var n := |changes| - 1;
      var before := Replayed(cfg, e, changes[..n]);
      var mid, out :|
        && Replays(cfg, e, changes[..n], e.files.Keys, mid)
        && Emits(cfg, before, changes[n], out)
        && after == LiveAfter(mid, out);
      FeedKeepsTracking(cfg, e, changes[..n], mid);
      ParentedNeverLost(cfg, before, changes[n]);
      ChangeKeepsTrackingIff(cfg, before, changes[n], out);
      assert [changes[n]][0] == changes[n];
      ChangeKeepsParented(cfg, before, changes[n]);
    }
  }

  lemma ParentedNeverLost(cfg: Config, e: Entry, c: Change)
    requires FilesParented(e)
    ensures !LosesSilently(cfg, e, c)
  {
  }

  /** Over any replay of any feed, a folder-scoped entry stays rooted. */
  lemma {:induction false} FeedKeepsRooted(cfg: Config, e: Entry, changes: seq<Change>)
    requires cfg.folderId.Some? && Rooted(e)
    ensures Rooted(Replayed(cfg, e, changes))
  {
    if changes != [] {
      FeedKeepsRooted(cfg, e, changes[..|changes| - 1]);
      ChangeKeepsRooted(cfg, Replayed(cfg, e, changes[..|changes| - 1]), changes[|changes| - 1]);
    }
  }

  // ---------------------------------------------------------------- a whole drive

  /** Without a folder to scope by, `c` says whether the file `id` is wanted. Without a glob too, a folder's removal
      says nothing. */
  predicate Tells(cfg: Config, c: Change, id: Id) {
    c.item.id == id && (!c.item.folder || (c.gone && cfg.glob.Some?))
  }

  predicate Wanted(cfg: Config, c: Change) { !c.gone && (cfg.glob.Some? ==> cfg.glob.value(c.item.name)) }

  /** The last change that tells wants the file, or none tells and it was there. */
  ghost predicate There(cfg: Config, changes: seq<Change>, was: set<Id>, id: Id) {
    || (id in was && forall i :: 0 <= i < |changes| && Tells(cfg, changes[i], id) ==> Wanted(cfg, changes[i]))
    || exists i :: WantedSince(cfg, changes, i, id)
  }

  ghost predicate WantedSince(cfg: Config, changes: seq<Change>, i: int, id: Id) {
    && 0 <= i < |changes| && Tells(cfg, changes[i], id)
    && forall j :: i <= j < |changes| && Tells(cfg, changes[j], id) ==> Wanted(cfg, changes[j])
  }

  lemma ThereNext(cfg: Config, changes: seq<Change>, was: set<Id>, id: Id)
    ensures changes == [] ==> (There(cfg, changes, was, id) <==> id in was)
    ensures changes != [] ==>
              var n := |changes| - 1;
              (There(cfg, changes, was, id) <==>
                if Tells(cfg, changes[n], id) then Wanted(cfg, changes[n]) else There(cfg, changes[..n], was, id))
  {
    if changes != [] {
      var n := |changes| - 1;
      hide Tells, Wanted;
      assert forall i :: 0 <= i < n ==> changes[..n][i] == changes[i];
      if Tells(cfg, changes[n], id) {
        assert Wanted(cfg, changes[n]) ==> WantedSince(cfg, changes, n, id);
      } else {
        forall i ensures WantedSince(cfg, changes, i, id) <==> WantedSince(cfg, changes[..n], i, id) {
        }
      }
    }
  }

  /** Drive-wide without a glob nothing is tracked, and over any feed every removed file gets its tombstone: a file is
      live afterwards exactly when the last change of it is no removal, or nothing was said and it was live. */
  lemma {:induction false} WholeDriveFeed(cfg: Config, changes: seq<Change>, live: set<Id>, after: set<Id>, id: Id)
    requires !Tracking(cfg) && Replays(cfg, Entry(map[], map[]), changes, live, after)
    ensures Replayed(cfg, Entry(map[], map[]), changes) == Entry(map[], map[])
    ensures id in after <==> There(cfg, changes, live, id)
  {
    ThereNext(cfg, changes, live, id);
    hide There;
    if changes != [] {
      var n := |changes| - 1;
      var mid, out :|
        && Replays(cfg, Entry(map[], map[]), changes[..n], live, mid)
        && Emits(cfg, Replayed(cfg, Entry(map[], map[]), changes[..n]), changes[n], out)
        && after == LiveAfter(mid, out);
      WholeDriveFeed(cfg, changes[..n], live, mid, id);
      OneChangeTells(cfg, changes[n], out, mid, id);
    }
  }

  lemma OneChangeTells(cfg: Config, c: Change, out: seq<Output>, live: set<Id>, id: Id)
    requires !Tracking(cfg) && Emits(cfg, Entry(map[], map[]), c, out)
    ensures id in LiveAfter(live, out) <==> if Tells(cfg, c, id) then Wanted(cfg, c) else id in live
  {
    if out != [] {
      assert |out| == 1 && out[..0] == [];
      assert LiveAfter(live, []) == live;
    }
  }

  /** The same with a glob, of the files it tracks. */
  lemma {:induction false} GlobbedDriveFeed(cfg: Config, files: Parents, changes: seq<Change>, id: Id)
    requires cfg.folderId.None? && cfg.glob.Some?
    ensures var e := Replayed(cfg, Entry(map[], files), changes);
            e.folders == map[] && (id in e.files <==> There(cfg, changes, files.Keys, id))
  {
    ThereNext(cfg, changes, files.Keys, id);
    hide There;
    if changes != [] { GlobbedDriveFeed(cfg, files, changes[..|changes| - 1], id); }
  }
}
