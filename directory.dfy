/**
 * The `Dir` object. The filesystem is a lookup from path to node, and
 * `realpath` a function from path to resolved path; both are parameters of
 * the constructor's model, and the methods that read or change a directory
 * take that directory's node and return what they leave of it.
 */
module Directory {
  import opened Wrappers
  import opened PhpStrings
  import opened FileTree
  import opened DirPaths
  import opened DirTree
  import opened DirListing
  import opened DirOps

  /**
   * Why the constructor throws: the path does not exist; it is not a
   * directory, so the iterator of `buildTree` cannot open it; or the
   * canonical path does not name a directory the listing iterator can open
   * (among others the empty path a one-character argument is trimmed to).
   */
  datatype DirError = NotFound | NotADirectory | ListingFailed

  class Dir {
    /** The host's `DIRECTORY_SEPARATOR`. */
    const ds: Separator
    var path: string
    var files: seq<Option<string>>
    var objects: seq<FileInfo>
    var tree: PhpArray
    var full: bool
    var rec: bool
    var dirs: bool

    /** What every constructed object satisfies. */
    predicate Valid()
      reads this
    {
      && Foreign(ds) !in path
      && |tree.slots| == 1
      && tree.slots[0].val.Sub?
      && |files| <= |objects|
      && (!full ==> forall k :: 0 <= k < |files| ==> files[k].Some?)
    }

    /**
     * `new Dir($dir, $full, $rec, $dirs)`, with PHP's defaults for the flags,
     * throwing as the constructor does:
     * before any state is set when the path does not exist; when the path
     * or its canonical form cannot be iterated as a directory.
     */
    static method Open(ds: Separator, dir: string,
                       lookup: string -> Option<Node>, realpath: string -> Option<string>,
                       full: bool := false, rec: bool := false, dirs: bool := true)
      returns (r: Result<Dir, DirError>)
      ensures lookup(dir).None? ==> r == Failure(NotFound)
      ensures lookup(dir).Some? && lookup(dir).value.File? ==> r == Failure(NotADirectory)
      ensures r.Failure? && r.error == ListingFailed ==>
                var p := Canonical(ds, dir); p == [] || lookup(p).None? || lookup(p).value.File?
      ensures r.Success? <==>
                (&& lookup(dir).Some? && lookup(dir).value.Folder?
                 && var p := Canonical(ds, dir); p != [] && lookup(p).Some? && lookup(p).value.Folder?)
      ensures r.Success? ==>
                && fresh(r.value) && r.value.Valid()
                && r.value.ds == ds && r.value.path == Canonical(ds, dir)
                && r.value.full == full && r.value.rec == rec && r.value.dirs == dirs
                && r.value.tree == Arr([Slot(RootKey(realpath(dir)), Sub(TreeOf(ds, lookup(dir).value.children)))])
                && var l := Listed(ds, Canonical(ds, dir), full, rec, dirs, realpath,
                                   lookup(Canonical(ds, dir)).value.children);
                   r.value.objects == l.objects && r.value.files == l.files
    {
      var at := lookup(dir);
      if at.None? {
        return Failure(NotFound);
      }
      if !at.value.Folder? {
        return Failure(NotADirectory);
      }
      var p := Canonical(ds, dir);
      if p == [] || lookup(p).None? || !lookup(p).value.Folder? {
        return Failure(ListingFailed);
      }
      var d := new Dir(ds, dir, at.value.children, realpath(dir),
                       lookup(p).value.children, realpath, full, rec, dirs);
      return Success(d);
    }

    /**
     * The constructor once the checks have passed: `treeEntries` are the
     * entries at `$dir`, `listEntries` those at the canonical path,
     * `resolvedDir` what `realpath($dir)` returns.
     */
    constructor (ds: Separator, dir: string,
                 treeEntries: seq<Node>, resolvedDir: Option<string>, listEntries: seq<Node>,
                 resolve: string -> Option<string>,
                 full: bool := false, rec: bool := false, dirs: bool := true)
      ensures Valid()
      ensures this.ds == ds && this.full == full && this.rec == rec && this.dirs == dirs
      ensures path == Canonical(ds, dir)
      ensures tree == Arr([Slot(RootKey(resolvedDir), Sub(TreeOf(ds, treeEntries)))])
      ensures var l := Listed(ds, Canonical(ds, dir), full, rec, dirs, resolve, listEntries);
              objects == l.objects && files == l.files
    {
      this.ds := ds;
      new;
      var sub := BuildTree(treeEntries);
      tree := Arr([Slot(RootKey(resolvedDir), Sub(sub))]);
      this.full := full;
      this.rec := rec;
      this.dirs := dirs;
      path := Canonical(ds, dir);
      objects := [];
      files := [];
      if rec {
        ListRecursive(listEntries, resolve);
      } else {
        ListLevel(listEntries);
      }
      ListedBounds(ds, path, full, rec, dirs, resolve, listEntries);
      assert |tree.slots| == 1 && tree.slots[0].val.Sub?;
      assert |files| <= |objects|;
    }

    /** The recursive `foreach` of the constructor, over the walk below this object's path. */
    method ListRecursive(cs: seq<Node>, resolve: string -> Option<string>)
      requires objects == [] && files == []
      modifies this`objects, this`files
      ensures Listing(objects, files, None) == RecFrom(full, dirs, resolve, Start, Walk(ds, path, cs))
    {
      var walk := Walk(ds, path, cs);
      var i := 0;
      while i < |walk|
        invariant 0 <= i <= |walk|
        invariant Listing(objects, files, None) == RecFrom(full, dirs, resolve, Start, walk[..i])
      {
        var info := walk[i];
        assert walk[..i + 1][..i] == walk[..i];
        if !IsDotName(info.name) {
          objects := objects + [info];
          if full {
            var f: Option<string> := None;
            if dirs {
              f := resolve(info.pathname);
            } else if !info.isDir {
              f := resolve(info.pathname);
            }
            if f.Some? {
              files := files + [f];
            }
          } else {
            if dirs {
              files := files + [Some(info.name)];
            } else if !info.isDir {
              files := files + [Some(info.name)];
            }
          }
        }
        i := i + 1;
      }
      assert walk[..|walk|] == walk;
    }

    /** The single-level `foreach` of the constructor, over the entries at this object's path. */
    method ListLevel(cs: seq<Node>)
      requires objects == [] && files == []
      modifies this`objects, this`files
      ensures objects == Level(ds, path, full, dirs, Enumerate(cs)).objects
      ensures files == Level(ds, path, full, dirs, Enumerate(cs)).files
    {
      var es := Enumerate(cs);
      var f: Option<string> := None;
      var i := 0;
      while i < |es|
        invariant 0 <= i <= |es|
        invariant Listing(objects, files, f) == Level(ds, path, full, dirs, es[..i])
      {
        var e := es[i];
        assert es[..i + 1][..i] == es[..i];
        if !IsDot(e) {
          objects := objects + [InfoAt(ds, path, e)];
          if full {
            if dirs {
              f := Some(if e.Folder? then path + [ds] + e.name + [ds] else path + [ds] + e.name);
            } else if !e.Folder? {
              f := Some(path + [ds] + e.name);
            }
            files := files + [f];
          } else {
            if dirs {
              files := files + [Some(e.name)];
            } else if !e.Folder? {
              files := files + [Some(e.name)];
            }
          }
        }
        i := i + 1;
      }
      assert es[..|es|] == es;
    }

    function GetPath(): (r: string)
      requires Valid()
      reads this
      ensures Foreign(ds) !in r
    {
      path
    }

    function GetFiles(): (r: seq<Option<string>>)
      requires Valid()
      reads this
      ensures |r| <= |objects|
      ensures !full ==> forall k :: 0 <= k < |r| ==> r[k].Some?
    {
      files
    }

    function GetObjects(): (r: seq<FileInfo>)
      requires Valid()
      reads this
      ensures |r| >= |files|
    {
      objects
    }

    function GetTree(): (r: PhpArray)
      requires Valid()
      reads this
      ensures |r.slots| == 1 && r.slots[0].val.Sub?
    {
      tree
    }

    /** `buildTree`: the loop over the entries, with a recursive call per folder. */
    method BuildTree(cs: seq<Node>) returns (r: PhpArray)
      ensures r == TreeOf(ds, cs)
      decreases cs
    {
      var es := Enumerate(cs);
      r := Arr([]);
      var i := 0;
      while i < |es|
        invariant 0 <= i <= |es|
        invariant r == TreeOf(ds, es[..i])
      {
        var child := es[i];
        assert es[..i + 1][..i] == es[..i];
        if !IsDot(child) {
          assert child == cs[i - 2];
          match child
          case Folder(name, sub) =>
            var subtree := BuildTree(sub);
            r := Assign(r, StrKey([ds] + name), Sub(subtree));
          case File(name, _) =>
            r := Append(r, Name(name));
        }
        i := i + 1;
      }
      assert es[..|es|] == es;
      TreeOfSkipsDots(ds, cs);
    }

    /**
     * `emptyDir($remove, $path)` on the node at `$path` (this object's path
     * when `$path` is null; `$remove` is false by default): `None` when nothing is there or it is removed.
     */
    method EmptyDir(at: Option<Node>, remove: bool := false) returns (r: Option<Node>)
      ensures at.None? ==> r.None?
      ensures at.Some? ==> r == Emptied(remove, at.value)
    {
      if at.None? {
        return None;
      }
      r := EmptyNode(remove, at.value);
    }

    /** The body of `emptyDir` once `$path` names a node; the recursive calls land here. */
    method EmptyNode(remove: bool, n: Node) returns (r: Option<Node>)
      ensures r == Emptied(remove, n)
      decreases n
    {
      if !n.Folder? {
        // `opendir` fails on a file: nothing happens.
        return Some(n);
      }
      var name, cs := n.name, n.children;
      var es := Enumerate(cs);
      var kept: seq<Node> := [];
      var i := 0;
      while i < |es|
        invariant 0 <= i <= |es|
        invariant kept == EmptiedChildren(cs[..if i < 2 then 0 else i - 2])
      {
        var obj := es[i];
        if 2 <= i {
          assert obj == cs[i - 2];
          assert cs[..i - 1][..i - 2] == cs[..i - 2];
        }
        if obj.name == "." || obj.name == ".." {
          // Skipped; a stored entry with such a name stays where it is.
          if 2 <= i {
            kept := kept + [obj];
          }
        } else if obj.File? {
          // `unlink` removes the file.
        } else {
          var sub := EmptyNode(true, obj);
          if sub.Some? {
            kept := kept + [sub.value];
          }
        }
        i := i + 1;
      }
      assert cs[..|cs|] == cs;
      if remove && kept == [] {
        return None;
      }
      return Some(Folder(name, kept));
    }

    /**
     * `copyDir($dest, $full)`, `$full` true by default, with `src` the entries at this object's path and
     * `dest` the node at `$dest`: what is left at `$dest`.
     */
    method CopyDir(src: seq<Node>, dest: Option<Node>, full: bool := true) returns (r: Option<Node>)
      ensures r == CopyResult(FolderName(ds, path), src, dest, full)
    {
      if dest.None? {
        return None;
      }
      var t := dest.value;
      var items := Items(src);
      var folder := FolderName(ds, path);
      if full && !NamesItself(folder) {
        if !ExistsAt(t, [folder]) {
          t := Perform(t, [], MakeDir(folder));
        }
        items := Prefixed(folder, items);
      }
      t := Replay(t, items);
      return Some(t);
    }
  }

  /** The root key `$this->tree[realpath($dir)]`: the resolved path, or key 0 for `false`. */
  function RootKey(resolved: Option<string>): (k: Key)
    ensures resolved.Some? <==> k.StrKey?
  {
    match resolved
    case Some(s) => StrKey(s)
    case None => IntKey(0)
  }
}
