/**
 * How `Dir` turns the path it is given into the path it lists and reports:
 * separators of the other convention become the host's, then one trailing
 * host separator is cut off; and how `copyDir` names the folder it creates.
 */
module DirPaths {
  import opened Wrappers
  import opened PhpStrings

  /**
   * The two `str_replace` branches. With a foreign separator in the input,
   * every foreign separator becomes the host's and nothing else changes;
   * otherwise the input is kept. Either way no foreign separator is left.
   */
  function ConvertSeparators(ds: Separator, dir: string): (c: string)
    ensures |c| == |dir|
    ensures Foreign(ds) !in c
    ensures Foreign(ds) !in dir ==> c == dir
    ensures forall i :: 0 <= i < |dir| ==> c[i] == if dir[i] == Foreign(ds) then ds else dir[i]
  {
    if '/' in dir && ds != '/' then ReplaceChar(dir, '/', '\\')
    else if '\\' in dir && ds != '\\' then ReplaceChar(dir, '\\', '/')
    else dir
  }

  /**
   * `strrpos($path, DS) == strlen($path) - 1`, compared loosely: it holds when
   * the last character is the separator, and also, because `false == 0`,
   * for a one-character path holding no separator.
   */
  predicate EndsWithSeparator(ds: Separator, p: string) {
    LooseEqualsInt(LastIndexOf(p, ds), |p| - 1)
  }

  /** `substr($path, 0, -1)` when the test holds. */
  function TrimTrailing(ds: Separator, p: string): string {
    if EndsWithSeparator(ds, p) then p[..|p| - 1] else p
  }

  /** The value the constructor stores in `$this->path`. */
  function Canonical(ds: Separator, dir: string): (r: string)
    ensures Foreign(ds) !in r
    ensures |r| == |dir| || |r| + 1 == |dir|
    ensures r == ConvertSeparators(ds, dir)[..|r|]
  {
    TrimTrailing(ds, ConvertSeparators(ds, dir))
  }

  /**
   * The trim as PHP evaluates it: exactly one trailing host separator goes;
   * a one-character path also goes entirely (the loose `false == 0`);
   * every other path is kept.
   */
  lemma TrimTrailingMeaning(ds: Separator, p: string)
    ensures |p| >= 1 && p[|p| - 1] == ds ==> TrimTrailing(ds, p) == p[..|p| - 1]
    ensures |p| == 1 ==> TrimTrailing(ds, p) == ""
    ensures |p| != 1 && (p == [] || p[|p| - 1] != ds) ==> TrimTrailing(ds, p) == p
  {
    var r := LastIndexOf(p, ds);
    if |p| >= 2 && p[|p| - 1] != ds && r.Some? {
      assert r.value != |p| - 1;
    }
  }

  /** `a//` keeps one of its two trailing separators. */
  lemma TrimDoubleSeparator(ds: Separator)
    ensures Canonical(ds, ['a', ds, ds]) == ['a', ds]
  {
    var c := ['a', ds, ds];
    assert Foreign(ds) !in c;
    assert ConvertSeparators(ds, c) == c;
    TrimTrailingMeaning(ds, c);
  }

  /** The loose comparison at work: a one-character path such as `.` becomes empty. */
  lemma TrimSingleCharacter(ds: Separator)
    ensures Canonical(ds, ".") == ""
  {
    assert ConvertSeparators(ds, ".") == ".";
    TrimTrailingMeaning(ds, ".");
  }

  /**
   * The folder name `copyDir` derives from the canonical path: the text after
   * the last host separator, or the whole path when it holds none.
   */
  function FolderName(ds: Separator, path: string): (r: string)
    ensures ds !in r
    ensures |r| <= |path| && path[|path| - |r|..] == r
    ensures |r| < |path| ==> path[|path| - |r| - 1] == ds
    ensures ds !in path ==> r == path
  {
    match LastIndexOf(path, ds)
    case None => path
    case Some(k) => path[k + 1..]
  }

  /**
   * A canonical path can still end in the separator (`a//` becomes `a/`):
   * its folder name is then empty.
   */
  lemma FolderNameAtSeparator(ds: Separator, path: string)
    requires |path| > 0 && path[|path| - 1] == ds
    ensures FolderName(ds, path) == ""
  {
  }
}
