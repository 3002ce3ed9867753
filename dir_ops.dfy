/**
 * What `emptyDir` and `copyDir` do to the filesystem, on tree values: the
 * directory they read or change is a node, the node they leave behind is
 * the result.
 */
module DirOps {
  import opened Wrappers
  import opened FileTree

  // ----- emptyDir -----

  /**
   * `emptyDir($remove)` on a node. A node that is not a directory cannot be
   * opened and stays. In a directory every entry the loop does not skip goes:
   * `unlink` removes a file; a folder is emptied recursively with `$remove`
   * set, and `rmdir` then removes it when it ended up empty. Last the
   * directory itself is removed when `$remove` is set and nothing is left.
   */
  function Emptied(remove: bool, n: Node): (r: Option<Node>)
    ensures n.File? ==> r == Some(n)
    ensures r.Some? ==> r.value.name == n.name && r.value.Folder? == n.Folder?
    ensures n.Folder? && !remove ==> r.Some?
    decreases n, 1
  {
    match n
    case File(_, _) => Some(n)
    case Folder(name, cs) =>
      var kept := EmptiedChildren(cs);
      if remove && kept == [] then None else Some(Folder(name, kept))
  }

  /** What the `readdir` loop of one directory leaves of its entries. */
  function EmptiedChildren(cs: seq<Node>): seq<Node>
    decreases cs, 0
  {
    if cs == [] then []
    else
      var e := cs[|cs| - 1];
      EmptiedChildren(cs[..|cs| - 1])
        + if IsDot(e) then [e]
          else if e.File? then []
          else match Emptied(true, e) case None => [] case Some(x) => [x]
  }

  /** On a real directory every entry, at every depth, is removed. */
  lemma {:induction false} EmptiedChildrenTidy(cs: seq<Node>)
    requires Tidy(cs)
    ensures EmptiedChildren(cs) == []
    decreases cs
  {
    if cs != [] {
      var pre, e := cs[..|cs| - 1], cs[|cs| - 1];
      assert Tidy(pre) by {
        assert forall k :: 0 <= k < |pre| ==> pre[k] == cs[k];
      }
      EmptiedChildrenTidy(pre);
      assert !IsDot(e);
      if e.Folder? {
        EmptiedChildrenTidy(e.children);
      }
    }
  }

  /**
   * `emptyDir(false)` leaves the directory in place with no entries;
   * `emptyDir(true)` removes it.
   */
  lemma EmptyDirTidy(name: string, cs: seq<Node>)
    requires Tidy(cs)
    ensures Emptied(false, Folder(name, cs)) == Some(Folder(name, []))
    ensures Emptied(true, Folder(name, cs)) == None
  {
    EmptiedChildrenTidy(cs);
  }

  // ----- copyDir -----

  /** The two filesystem calls of the `copyDir` loop, each naming its target. */
  datatype Op = MakeDir(name: string) | CopyFile(name: string, size: nat)

  /** One item of the walk: the operation and the folder, relative to the destination, it acts in. */
  datatype Item = Item(dir: seq<string>, op: Op)

  /**
   * The operation inside a directory with these entries: `mkdir` fails on an
   * existing name; `copy` creates a file, overwrites a file and fails on a
   * folder.
   */
  function ApplyIn(cs: seq<Node>, op: Op): (r: seq<Node>)
    ensures op.MakeDir? && op.name in NameSet(cs) ==> r == cs
    ensures op.name !in NameSet(cs) ==>
              r == cs + [if op.MakeDir? then Folder(op.name, []) else File(op.name, op.size)]
  {
    match op
    case MakeDir(x) => if x in NameSet(cs) then cs else cs + [Folder(x, [])]
    case CopyFile(x, s) =>
      match ChildIndex(cs, x)
      case None => cs + [File(x, s)]
      case Some(i) => if cs[i].File? then cs[i := File(x, s)] else cs
  }

  /**
   * The operation at a relative folder path below a node; a path through a
   * missing entry or a file makes the call fail and the node stays.
   */
  function Perform(n: Node, dir: seq<string>, op: Op): (r: Node)
    ensures r.name == n.name && r.Folder? == n.Folder?
    ensures n.File? ==> r == n
    decreases |dir|
  {
    if !n.Folder? then n
    else if dir == [] then Folder(n.name, ApplyIn(n.children, op))
    else match ChildIndex(n.children, dir[0])
      case None => n
      case Some(i) => Folder(n.name, n.children[i := Perform(n.children[i], dir[1..], op)])
  }

  /** The node after the items, in order. */
  function ApplyAll(n: Node, items: seq<Item>): (r: Node)
    ensures r.name == n.name && r.Folder? == n.Folder?
  {
    if items == [] then n
    else var last := items[|items| - 1];
      Perform(ApplyAll(n, items[..|items| - 1]), last.dir, last.op)
  }

  /** The items of a folder's walk, seen from the folder above. */
  function Prefixed(x: string, items: seq<Item>): (r: seq<Item>)
    ensures |r| == |items|
    ensures forall k :: 0 <= k < |items| ==> r[k] == Item([x] + items[k].dir, items[k].op)
  {
    seq(|items|, k requires 0 <= k < |items| => Item([x] + items[k].dir, items[k].op))
  }

  /**
   * The walk `RecursiveIteratorIterator` makes with `SKIP_DOTS` in SELF_FIRST
   * order: a folder (here `mkdir` of its sub-path name) before its contents,
   * a file as a `copy`; dot entries skipped.
   */
  function Items(cs: seq<Node>): (r: seq<Item>)
    decreases cs, 1
  {
    if cs == [] then []
    else Items(cs[..|cs| - 1]) + EntryItems(cs[|cs| - 1])
  }

  /** The part of the walk one entry contributes: nothing for a dot entry. */
  function EntryItems(e: Node): seq<Item>
    decreases e, 0
  {
    if IsDot(e) then []
    else match e
      case File(x, s) => [Item([], CopyFile(x, s))]
      case Folder(x, ch) => [Item([], MakeDir(x))] + Prefixed(x, Items(ch))
  }

  /** A last path part that, appended to the destination, names the destination. */
  predicate NamesItself(folder: string) {
    folder == "" || folder == "."
  }

  /**
   * What `copyDir` leaves at the destination: with `$full` the folder named
   * after the source is created first when missing and the walk lands inside
   * it; without, the walk lands in the destination itself. So does a `$full`
   * copy whose folder name is empty or `.` (a path ending in a separator or
   * in `/.`): `$dest/` and `$dest/.` exist and name the destination. A
   * missing destination makes every call fail.
   */
  function CopyResult(folder: string, src: seq<Node>, dest: Option<Node>, full: bool): Option<Node> {
    match dest
    case None => None
    case Some(d) =>
      if full && !NamesItself(folder) then
        var m := if ExistsAt(d, [folder]) then d else Perform(d, [], MakeDir(folder));
        Some(ApplyAll(m, Prefixed(folder, Items(src))))
      else Some(ApplyAll(d, Items(src)))
  }

  /** The walk's loop: each item performed in turn on the node. */
  method Replay(n: Node, items: seq<Item>) returns (t: Node)
    ensures t == ApplyAll(n, items)
  {
    t := n;
    var i := 0;
    while i < |items|
      invariant 0 <= i <= |items|
      invariant t == ApplyAll(n, items[..i])
    {
      assert items[..i + 1][..i] == items[..i];
      t := Perform(t, items[i].dir, items[i].op);
      i := i + 1;
    }
    assert items[..|items|] == items;
  }

  lemma {:induction false} ApplyAllConcat(n: Node, a: seq<Item>, b: seq<Item>)
    ensures ApplyAll(n, a + b) == ApplyAll(ApplyAll(n, a), b)
  {
    if b == [] {
      assert a + b == a;
    } else {
      assert (a + b)[..|a + b| - 1] == a + b[..|b| - 1];
      ApplyAllConcat(n, a, b[..|b| - 1]);
    }
  }

  lemma ChildIndexReplace(cs: seq<Node>, i: nat, m: Node)
    requires ChildIndex(cs, m.name) == Some(i)
    ensures ChildIndex(cs[i := m], m.name) == Some(i)
  {
    var cs' := cs[i := m];
    assert m.name in NameSet(cs') by { assert cs'[i] == m; }
    assert forall j :: 0 <= j < i ==> cs'[j] == cs[j];
  }

  /** An operation below entry `x`, at index `i`, acts on that entry alone. */
  lemma PerformInside(name: string, cs: seq<Node>, x: string, i: nat, dir: seq<string>, op: Op)
    requires ChildIndex(cs, x) == Some(i)
    ensures Perform(Folder(name, cs), [x] + dir, op) == Folder(name, cs[i := Perform(cs[i], dir, op)])
  {
    var d := [x] + dir;
    assert d[0] == x && d[1..] == dir;
  }

  /** One more item acts on what the earlier ones left. */
  lemma ApplyAllSnoc(n: Node, items: seq<Item>, it: Item)
    ensures ApplyAll(n, items + [it]) == Perform(ApplyAll(n, items), it.dir, it.op)
  {
    assert (items + [it])[..|items|] == items;
  }

  lemma PrefixedSnoc(x: string, items: seq<Item>, it: Item)
    ensures Prefixed(x, items + [it]) == Prefixed(x, items) + [Item([x] + it.dir, it.op)]
  {
  }

  /** One more item below entry `x` acts on that entry alone. */
  lemma FocusStep(name: string, cs: seq<Node>, x: string, i: nat, pre: seq<Item>, last: Item)
    requires ChildIndex(cs, x) == Some(i)
    requires ApplyAll(Folder(name, cs), Prefixed(x, pre)) == Folder(name, cs[i := ApplyAll(cs[i], pre)])
    ensures ApplyAll(Folder(name, cs), Prefixed(x, pre + [last]))
         == Folder(name, cs[i := ApplyAll(cs[i], pre + [last])])
  {
    var sub := ApplyAll(cs[i], pre);
    var top := Item([x] + last.dir, last.op);
    var done := Perform(sub, last.dir, last.op);
    calc {
      ApplyAll(Folder(name, cs), Prefixed(x, pre + [last]));
      { PrefixedSnoc(x, pre, last); }
      ApplyAll(Folder(name, cs), Prefixed(x, pre) + [top]);
      { ApplyAllSnoc(Folder(name, cs), Prefixed(x, pre), top); }
      Perform(Folder(name, cs[i := sub]), [x] + last.dir, last.op);
      { ChildIndexReplace(cs, i, sub);
        PerformInside(name, cs[i := sub], x, i, last.dir, last.op); }
      Folder(name, cs[i := sub][i := done]);
      { assert cs[i := sub][i := done] == cs[i := done]; }
      Folder(name, cs[i := done]);
      { ApplyAllSnoc(cs[i], pre, last); }
      Folder(name, cs[i := ApplyAll(cs[i], pre + [last])]);
    }
  }

  /**
   * Items acting inside the entry at index `i`, named `x`, act on that entry
   * alone.
   */
  lemma {:induction false} Focus(name: string, cs: seq<Node>, x: string, i: nat, items: seq<Item>)
    requires ChildIndex(cs, x) == Some(i)
    ensures ApplyAll(Folder(name, cs), Prefixed(x, items))
         == Folder(name, cs[i := ApplyAll(cs[i], items)])
  {
    if items == [] {
      assert cs[i := cs[i]] == cs;
    } else {
      var pre, last := items[..|items| - 1], items[|items| - 1];
      assert pre + [last] == items;
      Focus(name, cs, x, i, pre);
      FocusStep(name, cs, x, i, pre, last);
    }
  }

  lemma NameSetSnoc(cs: seq<Node>, e: Node)
    ensures NameSet(cs + [e]) == NameSet(cs) + {e.name}
  {
    assert forall c :: c in cs + [e] <==> c in cs || c == e;
  }

  /** The last entry of a real directory has a name found nowhere before it. */
  lemma LastNameFresh(base: seq<Node>, cs: seq<Node>)
    requires cs != [] && Tidy(cs) && NameSet(base) !! NameSet(cs)
    ensures var pre, e := cs[..|cs| - 1], cs[|cs| - 1];
      && Tidy(pre) && !IsDot(e) && NameSet(base) !! NameSet(pre)
      && e.name !in NameSet(base + pre)
      && (e.Folder? ==> Tidy(e.children))
  {
    var pre, e := cs[..|cs| - 1], cs[|cs| - 1];
    assert cs == pre + [e];
    NameSetSnoc(pre, e);
    assert Tidy(pre) by {
      assert forall k :: 0 <= k < |pre| ==> pre[k] == cs[k];
    }
    assert forall c :: c in base + pre <==> c in base || c in pre;
  }

  lemma BuildFile(y: string, here: seq<Node>, x: string, s: nat)
    requires x !in NameSet(here)
    ensures ApplyAll(Folder(y, here), [Item([], CopyFile(x, s))]) == Folder(y, here + [File(x, s)])
  {
    assert [Item([], CopyFile(x, s))][..0] == [];
  }

  /** `mkdir` of a new name adds an empty folder as the last entry. */
  lemma MakeFresh(y: string, here: seq<Node>, x: string)
    requires x !in NameSet(here)
    ensures ApplyAll(Folder(y, here), [Item([], MakeDir(x))]) == Folder(y, here + [Folder(x, [])])
    ensures ChildIndex(here + [Folder(x, [])], x) == Some(|here|)
  {
    assert [Item([], MakeDir(x))][..0] == [];
    NameSetSnoc(here, Folder(x, []));
  }

  /**
   * Items that turn an empty folder `x` into one with entries `ch`, acting
   * below a fresh empty `x` at the end of a directory, leave `x` with `ch` there.
   */
  lemma FillFresh(y: string, here: seq<Node>, x: string, items: seq<Item>, ch: seq<Node>)
    requires x !in NameSet(here)
    requires ApplyAll(Folder(x, []), items) == Folder(x, ch)
    ensures ApplyAll(Folder(y, here + [Folder(x, [])]), Prefixed(x, items)) == Folder(y, here + [Folder(x, ch)])
  {
    var with := here + [Folder(x, [])];
    MakeFresh(y, here, x);
    Focus(y, with, x, |here|, items);
    assert with[|here| := Folder(x, ch)] == here + [Folder(x, ch)];
  }

  lemma {:induction false} BuildFolder(y: string, here: seq<Node>, x: string, ch: seq<Node>)
    requires x !in NameSet(here) && Tidy(ch)
    ensures ApplyAll(Folder(y, here), [Item([], MakeDir(x))] + Prefixed(x, Items(ch)))
         == Folder(y, here + [Folder(x, ch)])
    decreases ch, 2
  {
    MakeFresh(y, here, x);
    ApplyAllConcat(Folder(y, here), [Item([], MakeDir(x))], Prefixed(x, Items(ch)));
    assert [] + ch == ch;
    BuildInto(x, [], ch);
    FillFresh(y, here, x, Items(ch), ch);
  }

  /** The walk of one fresh entry adds that entry. */
  lemma {:induction false} BuildEntry(y: string, here: seq<Node>, e: Node)
    requires !IsDot(e) && e.name !in NameSet(here) && (e.Folder? ==> Tidy(e.children))
    ensures ApplyAll(Folder(y, here), EntryItems(e)) == Folder(y, here + [e])
    decreases e, 3
  {
    match e
    case File(x, s) =>
      BuildFile(y, here, x, s);
    case Folder(x, ch) =>
      BuildFolder(y, here, x, ch);
  }

  /** The walks of the earlier entries and of the last one, put together. */
  lemma WalkSnoc(y: string, base: seq<Node>, pre: seq<Node>, e: Node)
    requires ApplyAll(Folder(y, base), Items(pre)) == Folder(y, base + pre)
    requires ApplyAll(Folder(y, base + pre), EntryItems(e)) == Folder(y, base + pre + [e])
    ensures ApplyAll(Folder(y, base), Items(pre + [e])) == Folder(y, base + (pre + [e]))
  {
    var cs := pre + [e];
    assert cs[..|cs| - 1] == pre;
    assert Items(cs) == Items(pre) + EntryItems(e);
    ApplyAllConcat(Folder(y, base), Items(pre), EntryItems(e));
    assert base + pre + [e] == base + (pre + [e]);
  }

  /**
   * The walk of a real directory rebuilds it inside a folder that holds none
   * of its names: the entries land after the ones already there, unchanged.
   */
  lemma {:induction false} BuildInto(y: string, base: seq<Node>, cs: seq<Node>)
    requires Tidy(cs)
    requires NameSet(base) !! NameSet(cs)
    ensures ApplyAll(Folder(y, base), Items(cs)) == Folder(y, base + cs)
    decreases cs, 1
  {
    if cs == [] {
      assert base + cs == base;
    } else {
      var pre, e := cs[..|cs| - 1], cs[|cs| - 1];
      LastNameFresh(base, cs);
      BuildInto(y, base, pre);
      BuildEntry(y, base + pre, e);
      WalkSnoc(y, base, pre, e);
      assert pre + [e] == cs;
    }
  }

  /**
   * `copyDir($dest)` into a destination that has no entry named after the
   * source folder creates that folder holding a copy of the source.
   */
  lemma CopyFresh(folder: string, src: seq<Node>, y: string, base: seq<Node>)
    requires Tidy(src)
    requires !NamesItself(folder) && folder !in NameSet(base)
    ensures CopyResult(folder, src, Some(Folder(y, base)), true)
         == Some(Folder(y, base + [Folder(folder, src)]))
  {
    var d := Folder(y, base);
    var with := base + [Folder(folder, [])];
    assert !ExistsAt(d, [folder]);
    MakeFresh(y, base, folder);
    Focus(y, with, folder, |base|, Items(src));
    BuildInto(folder, [], src);
    assert [] + src == src;
    assert with[|base| := Folder(folder, src)] == base + [Folder(folder, src)];
  }

  /**
   * `copyDir($dest, false)`, or a `$full` copy whose folder name names the
   * destination, merges the source's entries into the destination.
   */
  lemma CopyInto(folder: string, src: seq<Node>, y: string, base: seq<Node>, full: bool)
    requires Tidy(src)
    requires NameSet(base) !! NameSet(src)
    requires full ==> NamesItself(folder)
    ensures CopyResult(folder, src, Some(Folder(y, base)), full) == Some(Folder(y, base + src))
  {
    BuildInto(y, base, src);
  }

  /** A real directory with one more real entry of a new name is still real. */
  lemma TidySnoc(cs: seq<Node>, e: Node)
    requires Tidy(cs) && !IsDot(e) && e.name !in NameSet(cs)
    requires e.Folder? ==> Tidy(e.children)
    ensures Tidy(cs + [e])
  {
    var r := cs + [e];
    forall i, j | 0 <= i < j < |r|
      ensures r[i].name != r[j].name
    {
      if j == |cs| {
        assert r[i] in cs;
      }
    }
  }

  /**
   * The test's round trip: the fresh copy, emptied with `$remove`, is gone;
   * and when the destination itself was a real directory, emptying it with
   * `$remove` removes it, copy and all.
   */
  lemma CopyThenEmpty(folder: string, src: seq<Node>, y: string, base: seq<Node>)
    requires Tidy(src)
    requires !NamesItself(folder) && folder !in NameSet(base)
    ensures var r := CopyResult(folder, src, Some(Folder(y, base)), true);
      && r.Some? && r.value.Folder? && |r.value.children| == |base| + 1
      && Emptied(true, r.value.children[|base|]) == None
      && (Tidy(base) && folder != ".." ==> Emptied(true, r.value) == None)
  {
    CopyFresh(folder, src, y, base);
    EmptyDirTidy(folder, src);
    if Tidy(base) && folder != ".." {
      TidySnoc(base, Folder(folder, src));
      EmptyDirTidy(y, base + [Folder(folder, src)]);
    }
  }
}
