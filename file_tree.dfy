/**
 * The abstract filesystem both classes of the model read and change: a
 * directory is a folder node holding its entries in the order the host's
 * directory enumeration returns them; `.` and `..` are not stored, they are
 * added by `Enumerate`.
 */
module FileTree {
  import opened Wrappers

  datatype Node = Folder(name: string, children: seq<Node>) | File(name: string, size: nat)

  /** `isDot()`, and the `$obj == '.' || $obj == '..'` tests: a test on the name. */
  predicate IsDot(n: Node) { n.name == "." || n.name == ".." }

  const DotEntry: Node := Folder(".", [])
  const DotDotEntry: Node := Folder("..", [])

  /**
   * What the host enumeration of a directory yields. The host does not fix
   * where `.` and `..` come; the model puts them first. Every loop of the
   * model skips them by name, so their place changes no result.
   */
  function Enumerate(cs: seq<Node>): (r: seq<Node>)
    ensures |r| == |cs| + 2 && IsDot(r[0]) && IsDot(r[1]) && r[2..] == cs
  {
    [DotEntry, DotDotEntry] + cs
  }

  /** The entries that are not dot entries, in order. */
  function Visible(cs: seq<Node>): (r: seq<Node>)
    ensures forall n :: n in r <==> n in cs && !IsDot(n)
    ensures |r| <= |cs|
  {
    if cs == [] then []
    else Visible(cs[..|cs| - 1]) + (if IsDot(cs[|cs| - 1]) then [] else [cs[|cs| - 1]])
  }

  /** Entries of one directory have pairwise different names, as on any host. */
  predicate UniqueNames(cs: seq<Node>) {
    forall i, j :: 0 <= i < j < |cs| ==> cs[i].name != cs[j].name
  }

  function NameSet(cs: seq<Node>): set<string> {
    set c | c in cs :: c.name
  }

  /** A directory as a real host has it: unique, non-dot names at every level. */
  predicate Tidy(cs: seq<Node>)
    decreases cs
  {
    && UniqueNames(cs)
    && forall k :: 0 <= k < |cs| ==> !IsDot(cs[k]) && (cs[k].Folder? ==> Tidy(cs[k].children))
  }

  /** The number of entries of a subtree, dot entries excluded, at every depth. */
  function CountAll(cs: seq<Node>): nat
    decreases cs
  {
    if cs == [] then 0
    else
      var last := cs[|cs| - 1];
      CountAll(cs[..|cs| - 1])
        + (if IsDot(last) then 0 else 1 + if last.Folder? then CountAll(last.children) else 0)
  }

  /** The index of the first entry with the given name. */
  function ChildIndex(cs: seq<Node>, n: string): (r: Option<nat>)
    ensures r.None? <==> n !in NameSet(cs)
    ensures r.Some? ==> r.value < |cs| && cs[r.value].name == n
                        && forall j :: 0 <= j < r.value ==> cs[j].name != n
  {
    if cs == [] then None
    else if cs[0].name == n then Some(0)
    else match ChildIndex(cs[1..], n)
      case None => assert NameSet(cs) == {cs[0].name} + NameSet(cs[1..]); None
      case Some(i) => Some(i + 1)
  }

  /** `file_exists` for a path of names below a node. */
  predicate ExistsAt(n: Node, p: seq<string>)
    decreases |p|
  {
    if p == [] then true
    else n.Folder? && match ChildIndex(n.children, p[0])
      case None => false
      case Some(i) => ExistsAt(n.children[i], p[1..])
  }
}
