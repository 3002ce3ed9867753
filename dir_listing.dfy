/**
 * The flat listing the `Dir` constructor fills: `objects` receives one file
 * information record per non-dot entry, `files` the name or path the flags
 * ask for. Single-level mode walks `DirectoryIterator`; recursive mode walks
 * `RecursiveIteratorIterator` in SELF_FIRST order, which yields the dot
 * entries of every level and descends into every other folder after
 * yielding it.
 */
module DirListing {
  import opened Wrappers
  import opened PhpStrings
  import opened FileTree

  /** What the model keeps of an `SplFileInfo`: name, path name and whether it is a directory. */
  datatype FileInfo = FileInfo(name: string, pathname: string, isDir: bool)

  /** The constructor's accumulators, and `$f`, which the single-level loop never resets. */
  datatype Listing = Listing(objects: seq<FileInfo>, files: seq<Option<string>>, f: Option<string>)

  const Start: Listing := Listing([], [], None)

  function InfoAt(ds: Separator, path: string, e: Node): FileInfo {
    FileInfo(e.name, path + [ds] + e.name, e.Folder?)
  }

  predicate IsDotName(n: string) { n == "." || n == ".." }

  // ----- reference views of a sequence of records -----

  /** The names, as the values `files[] = getFilename()` appends. */
  function SomeNames(vs: seq<FileInfo>): (r: seq<Option<string>>)
    ensures |r| == |vs|
    ensures forall k :: 0 <= k < |vs| ==> r[k] == Some(vs[k].name)
  {
    if vs == [] then [] else SomeNames(vs[..|vs| - 1]) + [Some(vs[|vs| - 1].name)]
  }

  /** The records that are not directories, in order. */
  function NonDirs(vs: seq<FileInfo>): (r: seq<FileInfo>)
    ensures forall v :: v in r <==> v in vs && !v.isDir
    ensures |r| <= |vs|
  {
    if vs == [] then []
    else NonDirs(vs[..|vs| - 1]) + if vs[|vs| - 1].isDir then [] else [vs[|vs| - 1]]
  }

  /** Single-level full mode: the path, and a trailing separator for a directory. */
  function FullPaths(ds: Separator, vs: seq<FileInfo>): (r: seq<Option<string>>)
    ensures |r| == |vs|
    ensures forall k :: 0 <= k < |vs| ==>
              r[k] == Some(vs[k].pathname + if vs[k].isDir then [ds] else [])
  {
    if vs == [] then []
    else
      var v := vs[|vs| - 1];
      FullPaths(ds, vs[..|vs| - 1]) + [Some(v.pathname + if v.isDir then [ds] else [])]
  }

  /** `realpath` of every path name, the ones it cannot resolve dropped. */
  function Resolved(resolve: string -> Option<string>, vs: seq<FileInfo>): (r: seq<Option<string>>)
    ensures |r| <= |vs|
    ensures forall k :: 0 <= k < |r| ==> r[k].Some?
  {
    if vs == [] then []
    else
      var f := resolve(vs[|vs| - 1].pathname);
      Resolved(resolve, vs[..|vs| - 1]) + if f.Some? then [f] else []
  }

  lemma SomeNamesSnoc(vs: seq<FileInfo>, v: FileInfo)
    ensures SomeNames(vs + [v]) == SomeNames(vs) + [Some(v.name)]
  {
    assert (vs + [v])[..|vs|] == vs;
  }

  lemma NonDirsSnoc(vs: seq<FileInfo>, v: FileInfo)
    ensures NonDirs(vs + [v]) == NonDirs(vs) + if v.isDir then [] else [v]
  {
    assert (vs + [v])[..|vs|] == vs;
  }

  lemma FullPathsSnoc(ds: Separator, vs: seq<FileInfo>, v: FileInfo)
    ensures FullPaths(ds, vs + [v]) == FullPaths(ds, vs) + [Some(v.pathname + if v.isDir then [ds] else [])]
  {
    assert (vs + [v])[..|vs|] == vs;
  }

  lemma ResolvedSnoc(resolve: string -> Option<string>, vs: seq<FileInfo>, v: FileInfo)
    ensures Resolved(resolve, vs + [v]) == Resolved(resolve, vs) + if resolve(v.pathname).Some? then [resolve(v.pathname)] else []
  {
    assert (vs + [v])[..|vs|] == vs;
  }

  // ----- single-level mode -----

  /** One iteration of the single-level `foreach`. */
  function LevelStep(ds: Separator, path: string, full: bool, dirs: bool, st: Listing, e: Node): Listing {
    if IsDot(e) then st
    else
      var objects := st.objects + [InfoAt(ds, path, e)];
      if full then
        var f := if dirs then Some(if e.Folder? then path + [ds] + e.name + [ds] else path + [ds] + e.name)
                 else if !e.Folder? then Some(path + [ds] + e.name)
                 else st.f;
        Listing(objects, st.files + [f], f)
      else
        Listing(objects, st.files + (if dirs || !e.Folder? then [Some(e.name)] else []), st.f)
  }

  /** The state after the single-level loop has seen these entries. */
  function Level(ds: Separator, path: string, full: bool, dirs: bool, es: seq<Node>): Listing {
    if es == [] then Start
    else LevelStep(ds, path, full, dirs, Level(ds, path, full, dirs, es[..|es| - 1]), es[|es| - 1])
  }

  /** The records of the non-dot entries of one directory, in order. */
  function LevelInfos(ds: Separator, path: string, cs: seq<Node>): (r: seq<FileInfo>)
    ensures |r| == |Visible(cs)|
  {
    if cs == [] then []
    else LevelInfos(ds, path, cs[..|cs| - 1])
         + if IsDot(cs[|cs| - 1]) then [] else [InfoAt(ds, path, cs[|cs| - 1])]
  }

  /** The two dot entries the enumeration yields first leave the state untouched. */
  lemma {:induction false} LevelSkipsDots(ds: Separator, path: string, full: bool, dirs: bool, cs: seq<Node>)
    ensures Level(ds, path, full, dirs, Enumerate(cs)) == Level(ds, path, full, dirs, cs)
  {
    if cs == [] {
      var es := Enumerate(cs);
      assert es[..1] == [DotEntry] && [DotEntry][..0] == [];
      assert Level(ds, path, full, dirs, es[..1]) == Start;
    } else {
      assert Enumerate(cs)[..|Enumerate(cs)| - 1] == Enumerate(cs[..|cs| - 1]);
      LevelSkipsDots(ds, path, full, dirs, cs[..|cs| - 1]);
    }
  }

  lemma {:induction false} LevelObjects(ds: Separator, path: string, full: bool, dirs: bool, cs: seq<Node>)
    ensures Level(ds, path, full, dirs, cs).objects == LevelInfos(ds, path, cs)
  {
    if cs != [] {
      LevelObjects(ds, path, full, dirs, cs[..|cs| - 1]);
    }
  }

  lemma {:induction false} LevelNames(ds: Separator, path: string, cs: seq<Node>)
    ensures Level(ds, path, false, true, cs).files == SomeNames(LevelInfos(ds, path, cs))
  {
    if cs != [] {
      var pre, e := cs[..|cs| - 1], cs[|cs| - 1];
      LevelNames(ds, path, pre);
      if !IsDot(e) {
        SomeNamesSnoc(LevelInfos(ds, path, pre), InfoAt(ds, path, e));
      }
    }
  }

  /** How the records of the entries grow by one entry. */
  lemma LevelInfosSnoc(ds: Separator, path: string, cs: seq<Node>)
    requires cs != []
    ensures LevelInfos(ds, path, cs) ==
      if IsDot(cs[|cs| - 1]) then LevelInfos(ds, path, cs[..|cs| - 1])
      else LevelInfos(ds, path, cs[..|cs| - 1]) + [InfoAt(ds, path, cs[|cs| - 1])]
  {
    if IsDot(cs[|cs| - 1]) {
      assert LevelInfos(ds, path, cs[..|cs| - 1]) + [] == LevelInfos(ds, path, cs[..|cs| - 1]);
    }
  }

  /** Without `full` or `dirs`, one entry adds its name exactly when it is a file. */
  lemma LevelNonDirStep(ds: Separator, path: string, cs: seq<Node>)
    requires cs != []
    ensures var e := cs[|cs| - 1];
      Level(ds, path, false, false, cs).files
        == Level(ds, path, false, false, cs[..|cs| - 1]).files
           + if IsDot(e) || e.Folder? then [] else [Some(e.name)]
  {
  }

  /** One more record adds its name to the non-directory names exactly when it is not a directory. */
  lemma NonDirNamesSnoc(vs: seq<FileInfo>, v: FileInfo)
    ensures SomeNames(NonDirs(vs + [v])) == SomeNames(NonDirs(vs)) + if v.isDir then [] else [Some(v.name)]
  {
    NonDirsSnoc(vs, v);
    if v.isDir {
      assert NonDirs(vs) + [] == NonDirs(vs);
    } else {
      SomeNamesSnoc(NonDirs(vs), v);
    }
  }

  /** The reference names of the non-directories grow the same way. */
  lemma NonDirNamesStep(ds: Separator, path: string, cs: seq<Node>)
    requires cs != []
    ensures var e := cs[|cs| - 1];
      SomeNames(NonDirs(LevelInfos(ds, path, cs)))
        == SomeNames(NonDirs(LevelInfos(ds, path, cs[..|cs| - 1])))
           + if IsDot(e) || e.Folder? then [] else [Some(e.name)]
  {
    var e := cs[|cs| - 1];
    LevelInfosSnoc(ds, path, cs);
    if !IsDot(e) {
      NonDirNamesSnoc(LevelInfos(ds, path, cs[..|cs| - 1]), InfoAt(ds, path, e));
    }
  }

  lemma {:induction false} LevelNonDirNames(ds: Separator, path: string, cs: seq<Node>)
    ensures Level(ds, path, false, false, cs).files == SomeNames(NonDirs(LevelInfos(ds, path, cs)))
  {
    if cs != [] {
      LevelNonDirNames(ds, path, cs[..|cs| - 1]);
      LevelNonDirStep(ds, path, cs);
      NonDirNamesStep(ds, path, cs);
    }
  }

  /** With `full` and `dirs`, one entry adds its path, with a separator for a directory. */
  lemma LevelFullStep(ds: Separator, path: string, cs: seq<Node>)
    requires cs != []
    ensures var e := cs[|cs| - 1];
      Level(ds, path, true, true, cs).files
        == Level(ds, path, true, true, cs[..|cs| - 1]).files
           + if IsDot(e) then [] else
               [Some(if e.Folder? then path + [ds] + e.name + [ds] else path + [ds] + e.name)]
  {
  }

  /** The reference paths grow the same way. */
  lemma FullPathsStep(ds: Separator, path: string, cs: seq<Node>)
    requires cs != []
    ensures var e := cs[|cs| - 1];
      FullPaths(ds, LevelInfos(ds, path, cs))
        == FullPaths(ds, LevelInfos(ds, path, cs[..|cs| - 1]))
           + if IsDot(e) then [] else
               [Some(if e.Folder? then path + [ds] + e.name + [ds] else path + [ds] + e.name)]
  {
    var e := cs[|cs| - 1];
    LevelInfosSnoc(ds, path, cs);
    if !IsDot(e) {
      var v := InfoAt(ds, path, e);
      FullPathsSnoc(ds, LevelInfos(ds, path, cs[..|cs| - 1]), v);
      assert v.pathname + [] == v.pathname;
    }
  }

  lemma {:induction false} LevelFullPaths(ds: Separator, path: string, cs: seq<Node>)
    ensures Level(ds, path, true, true, cs).files == FullPaths(ds, LevelInfos(ds, path, cs))
  {
    if cs != [] {
      LevelFullPaths(ds, path, cs[..|cs| - 1]);
      LevelFullStep(ds, path, cs);
      FullPathsStep(ds, path, cs);
    }
  }

  /** Full mode without `dirs` at one entry: a file gives its path, a directory the stale `$f`. */
  predicate StaleShape(files: seq<Option<string>>, objects: seq<FileInfo>) {
    && |files| == |objects|
    && forall k {:trigger files[k]} :: 0 <= k < |files| ==>
         files[k] == if !objects[k].isDir then Some(objects[k].pathname)
                     else if k == 0 then None else files[k - 1]
  }

  lemma StaleShapeSnoc(files: seq<Option<string>>, objects: seq<FileInfo>, f: Option<string>, v: FileInfo)
    requires StaleShape(files, objects)
    requires f == if !v.isDir then Some(v.pathname) else if files == [] then None else files[|files| - 1]
    ensures StaleShape(files + [f], objects + [v])
  {
    var F, O := files + [f], objects + [v];
    forall k | 0 <= k < |F|
      ensures F[k] == if !O[k].isDir then Some(O[k].pathname) else if k == 0 then None else F[k - 1]
    {
      if k < |files| {
        assert F[k] == files[k] && O[k] == objects[k];
        if k > 0 { assert F[k - 1] == files[k - 1]; }
      } else {
        assert k == |files|;
        assert F[k] == f && O[k] == v;
        if k > 0 { assert F[k - 1] == files[|files| - 1]; }
      }
    }
  }

  lemma {:induction false} LevelStale(ds: Separator, path: string, cs: seq<Node>)
    ensures var l := Level(ds, path, true, false, cs);
      && StaleShape(l.files, l.objects)
      && (l.f == if l.files == [] then None else l.files[|l.files| - 1])
  {
    if cs != [] {
      var pre, e := cs[..|cs| - 1], cs[|cs| - 1];
      LevelStale(ds, path, pre);
      var l0 := Level(ds, path, true, false, pre);
      if IsDot(e) {
        assert Level(ds, path, true, false, cs) == l0;
      } else {
        var v := InfoAt(ds, path, e);
        var l := Level(ds, path, true, false, cs);
        assert l.objects == l0.objects + [v];
        assert l.files == l0.files + [l.f];
        StaleShapeSnoc(l0.files, l0.objects, l.f, v);
      }
    }
  }

  /**
   * The single-level listing of a directory, mode by mode: `objects` holds
   * every non-dot entry whatever the flags; without `full`, `files` holds
   * the names (all of them with `dirs`, only non-directories without); with
   * `full` and `dirs`, the path with a trailing separator for directories;
   * with `full` and not `dirs`, a file gives its path and a directory
   * repeats the previous value of `$f`, `null` at first.
   */
  lemma LevelListing(ds: Separator, path: string, full: bool, dirs: bool, cs: seq<Node>)
    ensures var l := Level(ds, path, full, dirs, Enumerate(cs));
      && l.objects == LevelInfos(ds, path, cs)
      && (!full && dirs ==> l.files == SomeNames(l.objects))
      && (!full && !dirs ==> l.files == SomeNames(NonDirs(l.objects)))
      && (full && dirs ==> l.files == FullPaths(ds, l.objects))
      && (full && !dirs ==> StaleShape(l.files, l.objects))
  {
    LevelSkipsDots(ds, path, full, dirs, cs);
    LevelObjects(ds, path, full, dirs, cs);
    if !full && dirs { LevelNames(ds, path, cs); }
    if !full && !dirs { LevelNonDirNames(ds, path, cs); }
    if full && dirs { LevelFullPaths(ds, path, cs); }
    if full && !dirs { LevelStale(ds, path, cs); }
  }

  /** The stale `$f`: a directory listed first in full mode without `dirs` yields `null`. */
  lemma StaleFirstEntry(ds: Separator, path: string, n: string, rest: seq<Node>)
    requires !IsDotName(n)
    ensures Level(ds, path, true, false, Enumerate([Folder(n, rest)])).files == [None]
  {
    var e := Folder(n, rest);
    assert [e][..0] == [];
    LevelInfosSnoc(ds, path, [e]);
    assert LevelInfos(ds, path, [e]) == [InfoAt(ds, path, e)];
    LevelListing(ds, path, true, false, [e]);
    var l := Level(ds, path, true, false, Enumerate([e]));
    assert l.objects[0].isDir;
    assert l.files[0] == None;
  }

  // ----- recursive mode -----

  /** The records `RecursiveIteratorIterator` yields below `p`, dot entries included. */
  function Walk(ds: Separator, p: string, cs: seq<Node>): seq<FileInfo>
    decreases cs, 1
  {
    [InfoAt(ds, p, DotEntry), InfoAt(ds, p, DotDotEntry)] + WalkSeq(ds, p, cs)
  }

  function WalkSeq(ds: Separator, p: string, cs: seq<Node>): seq<FileInfo>
    decreases cs, 0
  {
    if cs == [] then [] else WalkSeq(ds, p, cs[..|cs| - 1]) + WalkOne(ds, p, cs[|cs| - 1])
  }

  /** An entry, then, for a folder that is not a dot entry, everything below it. */
  function WalkOne(ds: Separator, p: string, e: Node): seq<FileInfo>
    decreases e
  {
    [InfoAt(ds, p, e)] + if e.Folder? && !IsDot(e) then Walk(ds, p + [ds] + e.name, e.children) else []
  }

  /** Reference pre-order: every non-dot entry, each folder before its contents. */
  function PreOrder(ds: Separator, p: string, cs: seq<Node>): (r: seq<FileInfo>)
    ensures NoDots(r)
    decreases cs
  {
    if cs == [] then []
    else
      var e := cs[|cs| - 1];
      PreOrder(ds, p, cs[..|cs| - 1])
        + if IsDot(e) then []
          else [InfoAt(ds, p, e)] + if e.Folder? then PreOrder(ds, p + [ds] + e.name, e.children) else []
  }

  /** One iteration of the recursive `foreach`. */
  function RecStep(full: bool, dirs: bool, resolve: string -> Option<string>, st: Listing, v: FileInfo): Listing {
    if IsDotName(v.name) then st
    else
      var objects := st.objects + [v];
      if full then
        var f := if dirs || !v.isDir then resolve(v.pathname) else None;
        Listing(objects, st.files + (if f.Some? then [f] else []), st.f)
      else
        Listing(objects, st.files + (if dirs || !v.isDir then [Some(v.name)] else []), st.f)
  }

  /** The state after the recursive loop has seen these records, starting from `st`. */
  function RecFrom(full: bool, dirs: bool, resolve: string -> Option<string>, st: Listing, vs: seq<FileInfo>): Listing {
    if vs == [] then st
    else RecStep(full, dirs, resolve, RecFrom(full, dirs, resolve, st, vs[..|vs| - 1]), vs[|vs| - 1])
  }

  lemma {:induction false} RecFromConcat(full: bool, dirs: bool, resolve: string -> Option<string>,
                                         st: Listing, a: seq<FileInfo>, b: seq<FileInfo>)
    ensures RecFrom(full, dirs, resolve, st, a + b)
         == RecFrom(full, dirs, resolve, RecFrom(full, dirs, resolve, st, a), b)
  {
    if b == [] {
      assert a + b == a;
    } else {
      assert (a + b)[..|a + b| - 1] == a + b[..|b| - 1];
      RecFromConcat(full, dirs, resolve, st, a, b[..|b| - 1]);
    }
  }

  /** The dot entries of every level leave the listing untouched: the walk lists the pre-order. */
  lemma {:induction false} WalkDropsDots(ds: Separator, p: string, cs: seq<Node>, full: bool, dirs: bool,
                                         resolve: string -> Option<string>, st: Listing)
    ensures RecFrom(full, dirs, resolve, st, Walk(ds, p, cs)) == RecFrom(full, dirs, resolve, st, PreOrder(ds, p, cs))
    ensures RecFrom(full, dirs, resolve, st, WalkSeq(ds, p, cs)) == RecFrom(full, dirs, resolve, st, PreOrder(ds, p, cs))
    decreases cs
  {
    var dots := [InfoAt(ds, p, DotEntry), InfoAt(ds, p, DotDotEntry)];
    RecFromConcat(full, dirs, resolve, st, dots, WalkSeq(ds, p, cs));
    assert dots[..1] == [InfoAt(ds, p, DotEntry)] && dots[..1][..0] == [];
    assert RecFrom(full, dirs, resolve, st, dots[..1]) == st;
    assert RecFrom(full, dirs, resolve, st, dots) == st;
    if cs != [] {
      var pre, e := cs[..|cs| - 1], cs[|cs| - 1];
      WalkDropsDots(ds, p, pre, full, dirs, resolve, st);
      var mid := RecFrom(full, dirs, resolve, st, PreOrder(ds, p, pre));
      RecFromConcat(full, dirs, resolve, st, WalkSeq(ds, p, pre), WalkOne(ds, p, e));
      RecFromConcat(full, dirs, resolve, st, PreOrder(ds, p, pre),
                    if IsDot(e) then []
                    else [InfoAt(ds, p, e)] + if e.Folder? then PreOrder(ds, p + [ds] + e.name, e.children) else []);
      var info := InfoAt(ds, p, e);
      if IsDot(e) {
        assert WalkOne(ds, p, e) == [info];
        assert RecFrom(full, dirs, resolve, mid, [info]) == mid;
      } else if e.Folder? {
        var q := p + [ds] + e.name;
        WalkDropsDots(ds, q, e.children, full, dirs, resolve, RecStep(full, dirs, resolve, mid, info));
        RecFromConcat(full, dirs, resolve, mid, [info], Walk(ds, q, e.children));
        RecFromConcat(full, dirs, resolve, mid, [info], PreOrder(ds, q, e.children));
        assert [info][..0] == [];
      } else {
        assert WalkOne(ds, p, e) == [info];
      }
    }
  }

  predicate NoDots(vs: seq<FileInfo>) {
    forall k :: 0 <= k < |vs| ==> !IsDotName(vs[k].name)
  }

  lemma {:induction false} RecObjects(full: bool, dirs: bool, resolve: string -> Option<string>, vs: seq<FileInfo>)
    requires NoDots(vs)
    ensures RecFrom(full, dirs, resolve, Start, vs).objects == vs
  {
    if vs != [] {
      var pre := vs[..|vs| - 1];
      RecObjects(full, dirs, resolve, pre);
      assert vs == pre + [vs[|vs| - 1]];
    }
  }

  lemma {:induction false} RecNames(dirs: bool, resolve: string -> Option<string>, vs: seq<FileInfo>)
    requires NoDots(vs)
    ensures RecFrom(false, dirs, resolve, Start, vs).files == SomeNames(if dirs then vs else NonDirs(vs))
  {
    if vs != [] {
      var pre, v := vs[..|vs| - 1], vs[|vs| - 1];
      RecNames(dirs, resolve, pre);
      assert vs == pre + [v];
      var l0 := RecFrom(false, dirs, resolve, Start, pre);
      NonDirsSnoc(pre, v);
      if dirs {
        SomeNamesSnoc(pre, v);
      } else if !v.isDir {
        SomeNamesSnoc(NonDirs(pre), v);
      } else {
        assert NonDirs(vs) == NonDirs(pre) + [] == NonDirs(pre);
        assert RecFrom(false, dirs, resolve, Start, vs).files == l0.files + [] == l0.files;
      }
    }
  }

  lemma {:induction false} RecPaths(dirs: bool, resolve: string -> Option<string>, vs: seq<FileInfo>)
    requires NoDots(vs)
    ensures RecFrom(true, dirs, resolve, Start, vs).files == Resolved(resolve, if dirs then vs else NonDirs(vs))
  {
    if vs != [] {
      var pre, v := vs[..|vs| - 1], vs[|vs| - 1];
      RecPaths(dirs, resolve, pre);
      assert vs == pre + [v];
      var l0 := RecFrom(true, dirs, resolve, Start, pre);
      NonDirsSnoc(pre, v);
      if dirs {
        ResolvedSnoc(resolve, pre, v);
      } else if !v.isDir {
        ResolvedSnoc(resolve, NonDirs(pre), v);
      } else {
        assert NonDirs(vs) == NonDirs(pre) + [] == NonDirs(pre);
        assert RecFrom(true, dirs, resolve, Start, vs).files == l0.files + [] == l0.files;
      }
    }
  }

  /**
   * The recursive listing of records without dot entries, mode by mode:
   * `objects` is every record; without `full`, `files` holds the names (of
   * every record with `dirs`, of non-directories without); with `full`, the
   * resolved paths (of every record with `dirs`, of non-directories
   * without), unresolvable ones dropped.
   */
  lemma RecListing(full: bool, dirs: bool, resolve: string -> Option<string>, vs: seq<FileInfo>)
    requires NoDots(vs)
    ensures var l := RecFrom(full, dirs, resolve, Start, vs);
      && l.objects == vs
      && (!full ==> l.files == SomeNames(if dirs then vs else NonDirs(vs)))
      && (full ==> l.files == Resolved(resolve, if dirs then vs else NonDirs(vs)))
  {
    RecObjects(full, dirs, resolve, vs);
    if full { RecPaths(dirs, resolve, vs); } else { RecNames(dirs, resolve, vs); }
  }

  /**
   * The recursive constructor's listing of a directory: the walk's dot
   * entries drop out and the listing is the pre-order of the subtree,
   * filtered and mapped as the flags ask.
   */
  lemma RecursiveListing(ds: Separator, p: string, cs: seq<Node>, full: bool, dirs: bool,
                         resolve: string -> Option<string>)
    ensures var l := RecFrom(full, dirs, resolve, Start, Walk(ds, p, cs));
      var vs := PreOrder(ds, p, cs);
      && l.objects == vs
      && (!full ==> l.files == SomeNames(if dirs then vs else NonDirs(vs)))
      && (full ==> l.files == Resolved(resolve, if dirs then vs else NonDirs(vs)))
  {
    WalkDropsDots(ds, p, cs, full, dirs, resolve, Start);
    RecListing(full, dirs, resolve, PreOrder(ds, p, cs));
  }

  /** The listing the constructor leaves in `objects` and `files` for the directory at `path`. */
  function Listed(ds: Separator, path: string, full: bool, rec: bool, dirs: bool,
                  resolve: string -> Option<string>, cs: seq<Node>): Listing {
    if rec then RecFrom(full, dirs, resolve, Start, Walk(ds, path, cs))
    else Level(ds, path, full, dirs, Enumerate(cs))
  }

  /**
   * Whatever the flags: `files` never outgrows `objects`, and without `full`
   * every element of `files` is a name (no `null`).
   */
  lemma ListedBounds(ds: Separator, path: string, full: bool, rec: bool, dirs: bool,
                     resolve: string -> Option<string>, cs: seq<Node>)
    ensures var l := Listed(ds, path, full, rec, dirs, resolve, cs);
      && |l.files| <= |l.objects|
      && (!full ==> forall k :: 0 <= k < |l.files| ==> l.files[k].Some?)
  {
    if rec {
      RecursiveListing(ds, path, cs, full, dirs, resolve);
    } else {
      LevelListing(ds, path, full, dirs, cs);
    }
  }

  /** The recursive walk lists exactly the non-dot entries of the subtree. */
  lemma {:induction false} PreOrderCount(ds: Separator, p: string, cs: seq<Node>)
    ensures |PreOrder(ds, p, cs)| == CountAll(cs)
    decreases cs
  {
    if cs != [] {
      var e := cs[|cs| - 1];
      PreOrderCount(ds, p, cs[..|cs| - 1]);
      if !IsDot(e) && e.Folder? {
        PreOrderCount(ds, p + [ds] + e.name, e.children);
      }
    }
  }
}
