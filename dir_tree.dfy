/**
 * The nested array `buildTree` returns. A PHP array is an ordered list of
 * slots, each with a string or an integer key: `$a[$k] = $v` replaces the
 * value of an existing key in place or appends a slot, and `$a[] = $v`
 * appends under the next free integer key.
 */
module DirTree {
  import opened Wrappers
  import opened PhpStrings
  import opened FileTree

  datatype Key = StrKey(s: string) | IntKey(i: int)
  datatype Value = Name(name: string) | Sub(arr: PhpArray)
  datatype PhpArray = Arr(slots: seq<Slot>)
  datatype Slot = Slot(key: Key, val: Value)

  /** The position of the slot with the given key. */
  function KeyIndex(slots: seq<Slot>, k: Key): (r: Option<nat>)
    ensures r.Some? ==> r.value < |slots| && slots[r.value].key == k
    ensures r.None? ==> forall j :: 0 <= j < |slots| ==> slots[j].key != k
  {
    if slots == [] then None
    else if slots[0].key == k then Some(0)
    else match KeyIndex(slots[1..], k)
      case None => None
      case Some(i) => Some(i + 1)
  }

  /** The key `$a[] = ...` uses: one more than the largest integer key, and 0 at first. */
  function NextIndex(slots: seq<Slot>): (r: int)
    ensures r >= 0
    ensures forall j :: 0 <= j < |slots| && slots[j].key.IntKey? ==> slots[j].key.i < r
  {
    if slots == [] then 0
    else
      var last := slots[|slots| - 1];
      var prev := NextIndex(slots[..|slots| - 1]);
      if last.key.IntKey? && last.key.i + 1 > prev then last.key.i + 1 else prev
  }

  /** `$a[$k] = $v`. */
  function Assign(a: PhpArray, k: Key, v: Value): PhpArray {
    match KeyIndex(a.slots, k)
    case Some(i) => Arr(a.slots[i := Slot(k, v)])
    case None => Arr(a.slots + [Slot(k, v)])
  }

  /** `$a[] = $v`. */
  function Append(a: PhpArray, v: Value): PhpArray {
    Arr(a.slots + [Slot(IntKey(NextIndex(a.slots)), v)])
  }

  /**
   * The shape `buildTree` promises whatever the entries: a string key is the
   * separator followed by a folder's name and holds a nested array, an
   * integer key holds a bare file name.
   */
  predicate Shaped(ds: Separator, a: PhpArray) {
    forall k :: 0 <= k < |a.slots| ==>
      match a.slots[k].key
      case StrKey(s) => |s| >= 1 && s[0] == ds && a.slots[k].val.Sub?
      case IntKey(_) => a.slots[k].val.Name?
  }

  /** One iteration of the `foreach` in `buildTree`. */
  function TreeStep(ds: Separator, acc: PhpArray, e: Node): (r: PhpArray)
    ensures Shaped(ds, acc) ==> Shaped(ds, r)
    decreases e
  {
    if IsDot(e) then acc
    else match e
      case Folder(n, cs) => Assign(acc, StrKey([ds] + n), Sub(TreeOf(ds, cs)))
      case File(n, _) => Append(acc, Name(n))
  }

  /** The array `buildTree` returns for a directory with these entries. */
  function TreeOf(ds: Separator, cs: seq<Node>): (r: PhpArray)
    ensures Shaped(ds, r)
    decreases cs
  {
    if cs == [] then Arr([]) else TreeStep(ds, TreeOf(ds, cs[..|cs| - 1]), cs[|cs| - 1])
  }

  /** The two dot entries the enumeration yields first are skipped. */
  lemma {:induction false} TreeOfSkipsDots(ds: Separator, cs: seq<Node>)
    ensures TreeOf(ds, Enumerate(cs)) == TreeOf(ds, cs)
  {
    if cs == [] {
      var es := Enumerate(cs);
      assert es[..1] == [DotEntry] && [DotEntry][..0] == [];
      assert TreeOf(ds, es[..1]) == Arr([]);
      assert es[..2][..1] == es[..1] && es[..2] == es;
    } else {
      assert Enumerate(cs)[..|Enumerate(cs)| - 1] == Enumerate(cs[..|cs| - 1]);
      TreeOfSkipsDots(ds, cs[..|cs| - 1]);
    }
  }

  /** The number of non-dot files among the entries. */
  function FileCount(cs: seq<Node>): nat {
    if cs == [] then 0
    else FileCount(cs[..|cs| - 1]) + if !IsDot(cs[|cs| - 1]) && cs[|cs| - 1].File? then 1 else 0
  }

  /**
   * The array laid out directly: one slot per non-dot entry, in order; a
   * folder under the separator and its name, a file under the count of
   * files before it.
   */
  function Plain(ds: Separator, cs: seq<Node>): seq<Slot> {
    if cs == [] then []
    else
      var pre, e := cs[..|cs| - 1], cs[|cs| - 1];
      Plain(ds, pre) + if IsDot(e) then []
                       else if e.Folder? then [Slot(StrKey([ds] + e.name), Sub(TreeOf(ds, e.children)))]
                       else [Slot(IntKey(FileCount(pre)), Name(e.name))]
  }

  lemma NextIndexAppend(q: seq<Slot>, slot: Slot)
    ensures NextIndex(q + [slot]) ==
      if slot.key.IntKey? && slot.key.i + 1 > NextIndex(q) then slot.key.i + 1 else NextIndex(q)
  {
    assert (q + [slot])[..|q|] == q;
  }

  lemma {:induction false} PlainNextIndex(ds: Separator, cs: seq<Node>)
    ensures NextIndex(Plain(ds, cs)) == FileCount(cs)
  {
    if cs != [] {
      var pre, e := cs[..|cs| - 1], cs[|cs| - 1];
      PlainNextIndex(ds, pre);
      var Q := Plain(ds, pre);
      if IsDot(e) {
        assert Plain(ds, cs) == Q;
      } else if e.Folder? {
        var slot := Slot(StrKey([ds] + e.name), Sub(TreeOf(ds, e.children)));
        assert Plain(ds, cs) == Q + [slot];
        NextIndexAppend(Q, slot);
      } else {
        var slot := Slot(IntKey(FileCount(pre)), Name(e.name));
        assert Plain(ds, cs) == Q + [slot];
        NextIndexAppend(Q, slot);
      }
    }
  }

  lemma {:induction false} PlainKeys(ds: Separator, cs: seq<Node>)
    ensures forall k :: 0 <= k < |Plain(ds, cs)| && Plain(ds, cs)[k].key.StrKey? ==>
              |Plain(ds, cs)[k].key.s| >= 1 && Plain(ds, cs)[k].key.s[1..] in NameSet(cs)
  {
    if cs != [] {
      var pre, e := cs[..|cs| - 1], cs[|cs| - 1];
      PlainKeys(ds, pre);
      var P, Q := Plain(ds, cs), Plain(ds, pre);
      forall k | 0 <= k < |P| && P[k].key.StrKey?
        ensures |P[k].key.s| >= 1 && P[k].key.s[1..] in NameSet(cs)
      {
        if k < |Q| {
          assert P[k] == Q[k];
          assert Q[k].key.s[1..] in NameSet(pre);
        } else {
          assert P[k].key.s == [ds] + e.name;
          assert e in cs;
        }
      }
    }
  }

  lemma UniqueLast(cs: seq<Node>)
    requires cs != [] && UniqueNames(cs)
    ensures cs[|cs| - 1].name !in NameSet(cs[..|cs| - 1])
    ensures UniqueNames(cs[..|cs| - 1])
  {
  }

  /**
   * With unique entry names (as on any host) `buildTree` never overwrites a
   * slot: its array is exactly the direct layout.
   */
  lemma {:induction false} TreeOfPlain(ds: Separator, cs: seq<Node>)
    requires UniqueNames(cs)
    ensures TreeOf(ds, cs) == Arr(Plain(ds, cs))
  {
    if cs != [] {
      var pre, e := cs[..|cs| - 1], cs[|cs| - 1];
      UniqueLast(cs);
      TreeOfPlain(ds, pre);
      PlainKeys(ds, pre);
      PlainNextIndex(ds, pre);
    }
  }

  lemma {:induction false} PlainLength(ds: Separator, cs: seq<Node>)
    ensures |Plain(ds, cs)| == |Visible(cs)|
  {
    if cs != [] {
      PlainLength(ds, cs[..|cs| - 1]);
    }
  }

  /**
   * Counting property of `buildTree`: the folder keys plus the file
   * elements number the non-dot entries.
   */
  lemma TreeCount(ds: Separator, cs: seq<Node>)
    requires UniqueNames(cs)
    ensures |TreeOf(ds, cs).slots| == |Visible(cs)|
  {
    TreeOfPlain(ds, cs);
    PlainLength(ds, cs);
  }
}
