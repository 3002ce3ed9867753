/**
 * The names `checkFilename` tries: `pathinfo` splits a name into the part
 * before its last dot and its extension, and the candidates are the first
 * part, `_`, a counter and the dotted extension.
 */
module UploadNames {
  import opened Wrappers
  import opened PhpStrings

  /** The characters `basename` splits at: `/`, and also `\` on a Windows host. */
  predicate IsPathSep(ds: Separator, c: char) {
    c == '/' || (ds == '\\' && c == '\\')
  }

  /** The length of `p[..k]` without its trailing separators, which `basename` ignores. */
  function StripEnd(ds: Separator, p: string, k: nat): (n: nat)
    requires k <= |p|
    ensures n <= k
    ensures n == 0 || !IsPathSep(ds, p[n - 1])
    ensures forall i :: n <= i < k ==> IsPathSep(ds, p[i])
    decreases k
  {
    if k > 0 && IsPathSep(ds, p[k - 1]) then StripEnd(ds, p, k - 1) else k
  }

  /** Where the last component of `p[..n]` starts: just after the last separator before `n`. */
  function NameStart(ds: Separator, p: string, n: nat): (s: nat)
    requires n <= |p|
    ensures s <= n
    ensures forall i :: s <= i < n ==> !IsPathSep(ds, p[i])
    ensures s > 0 ==> IsPathSep(ds, p[s - 1])
    decreases n
  {
    if n == 0 || IsPathSep(ds, p[n - 1]) then n else NameStart(ds, p, n - 1)
  }

  /** `basename`: the last component, with trailing separators ignored. */
  function BaseName(ds: Separator, p: string): string {
    var n := StripEnd(ds, p, |p|);
    p[NameStart(ds, p, n)..n]
  }

  /** A name without separators is its own base name. */
  lemma BaseNameOfPlain(ds: Separator, p: string)
    requires '/' !in p && '\\' !in p
    ensures BaseName(ds, p) == p
  {
    assert forall i :: 0 <= i < |p| ==> !IsPathSep(ds, p[i]) by {
      forall i | 0 <= i < |p| ensures !IsPathSep(ds, p[i]) {
        assert p[i] in p;
      }
    }
  }

  /** The last component starts just after a separator followed only by non-separators. */
  lemma {:induction false} NameStartAfter(ds: Separator, p: string, s: nat, n: nat)
    requires 0 < s <= n <= |p| && IsPathSep(ds, p[s - 1])
    requires forall i :: s <= i < n ==> !IsPathSep(ds, p[i])
    ensures NameStart(ds, p, n) == s
    decreases n
  {
    if n > s {
      NameStartAfter(ds, p, s, n - 1);
    }
  }

  /** After the separator that ends the directory, a name without separators has none. */
  lemma NoSepAfter(ds: Separator, dir: string, name: string)
    requires '/' !in name && '\\' !in name
    ensures var p := dir + [ds] + name;
      forall i :: |dir| + 1 <= i < |p| ==> !IsPathSep(ds, p[i])
  {
    var p := dir + [ds] + name;
    forall i | |dir| + 1 <= i < |p| ensures !IsPathSep(ds, p[i]) {
      assert p[i] == name[i - |dir| - 1];
      assert name[i - |dir| - 1] in name;
    }
  }

  /**
   * The base name of a directory, a separator and a non-empty name without
   * separators is that name: `pathinfo` of an upload's full path reads the
   * uploaded file's name.
   */
  lemma FullPathBase(ds: Separator, dir: string, name: string)
    requires name != [] && '/' !in name && '\\' !in name
    ensures BaseName(ds, dir + [ds] + name) == name
  {
    var p := dir + [ds] + name;
    NoSepAfter(ds, dir, name);
    assert StripEnd(ds, p, |p|) == |p| by {
      assert !IsPathSep(ds, p[|p| - 1]);
    }
    assert IsPathSep(ds, p[|dir|]) by {
      assert p[|dir|] == ds;
    }
    NameStartAfter(ds, p, |dir| + 1, |p|);
    assert p[|dir| + 1..|p|] == name;
  }

  /** The two parts of `pathinfo` the upload code reads; `None` is an unset `extension`. */
  datatype PathParts = PathParts(filename: string, extension: Option<string>)

  /**
   * `pathinfo`: the extension is set exactly when the base name holds a dot
   * and is the text after the last one; the file name is the base name
   * without that dot and extension.
   */
  function PathInfo(ds: Separator, p: string): (r: PathParts)
    ensures r.extension.Some? <==> '.' in BaseName(ds, p)
    ensures r.extension.Some? ==>
              r.filename + "." + r.extension.value == BaseName(ds, p) && '.' !in r.extension.value
    ensures r.extension.None? ==> r.filename == BaseName(ds, p)
  {
    var base := BaseName(ds, p);
    match LastIndexOf(base, '.')
    case None => PathParts(base, None)
    case Some(k) =>
      assert base == base[..k] + "." + base[k + 1..];
      PathParts(base[..k], Some(base[k + 1..]))
  }

  /**
   * The extension `upload` tests, read from the full path, is the one of the
   * chosen name itself.
   */
  lemma FullPathInfo(ds: Separator, dir: string, name: string)
    requires name != [] && '/' !in name && '\\' !in name
    ensures PathInfo(ds, dir + [ds] + name) == PathInfo(ds, name)
  {
    FullPathBase(ds, dir, name);
    BaseNameOfPlain(ds, name);
  }

  /** The `$ext` of `checkFilename`: the dotted extension, or nothing when it is unset or empty. */
  function DottedExt(ds: Separator, file: string): (r: string)
    ensures r == [] || (r[0] == '.' && '.' !in r[1..])
  {
    match PathInfo(ds, file).extension
    case Some(e) => if e != "" then "." + e else ""
    case None => ""
  }

  /** The name the loop tries at counter `i`. */
  function Candidate(stem: string, ext: string, i: nat): string {
    stem + "_" + NatText(i) + ext
  }

  /** Different counters give different names. */
  lemma CandidateInjective(stem: string, ext: string, i: nat, j: nat)
    requires Candidate(stem, ext, i) == Candidate(stem, ext, j)
    ensures i == j
  {
    var a, b := Candidate(stem, ext, i), Candidate(stem, ext, j);
    var n := |stem| + 1;
    assert |NatText(i)| == |NatText(j)|;
    assert a[n..n + |NatText(i)|] == NatText(i);
    assert b[n..n + |NatText(j)|] == NatText(j);
    NatTextInjective(i, j);
  }

  /** The names tried with counters 1 to `n`. */
  function Tried(stem: string, ext: string, n: nat): set<string> {
    set j | 1 <= j <= n :: Candidate(stem, ext, j)
  }

  /** `n` counters give `n` distinct names, so a finite directory cannot hold them all for long. */
  lemma {:induction false} TriedSize(stem: string, ext: string, n: nat)
    ensures |Tried(stem, ext, n)| == n
  {
    if n > 0 {
      TriedSize(stem, ext, n - 1);
      var c := Candidate(stem, ext, n);
      assert Tried(stem, ext, n) == Tried(stem, ext, n - 1) + {c};
      if c in Tried(stem, ext, n - 1) {
        var j :| 1 <= j <= n - 1 && Candidate(stem, ext, j) == c;
        CandidateInjective(stem, ext, j, n);
      }
    }
  }

  /** A part of a finite set of names is no larger than the set. */
  lemma SubsetSize(t: set<string>, existing: set<string>)
    requires t <= existing
    ensures |t| <= |existing|
  {
    assert existing == t + (existing - t) && t * (existing - t) == {};
  }

  /** The loop cannot go on for ever: counters 1 to `n` all taken means `n` names taken. */
  lemma TakenBound(stem: string, ext: string, n: nat, existing: set<string>)
    requires forall j :: 1 <= j < n ==> Candidate(stem, ext, j) in existing
    requires Candidate(stem, ext, n) in existing
    ensures n <= |existing|
  {
    assert Tried(stem, ext, n) <= existing by {
      forall x | x in Tried(stem, ext, n) ensures x in existing {
        var j :| 1 <= j <= n && Candidate(stem, ext, j) == x;
        if j < n {
          assert Candidate(stem, ext, j) in existing;
        }
      }
    }
    TriedSize(stem, ext, n);
    SubsetSize(Tried(stem, ext, n), existing);
  }

  /**
   * What `checkFilename($file)` returns against the names the upload
   * directory holds: the name itself when it is free; otherwise the
   * candidate with the least counter from 1 whose name is free.
   */
  ghost predicate IsRenaming(ds: Separator, file: string, existing: set<string>, r: string) {
    var stem, ext := PathInfo(ds, file).filename, DottedExt(ds, file);
    if file !in existing then r == file
    else exists k: nat :: 1 <= k && r == Candidate(stem, ext, k) && r !in existing
                          && forall j :: 1 <= j < k ==> Candidate(stem, ext, j) in existing
  }

  /** There is only one such name, and it is free. */
  lemma RenamingUnique(ds: Separator, file: string, existing: set<string>, r1: string, r2: string)
    requires IsRenaming(ds, file, existing, r1) && IsRenaming(ds, file, existing, r2)
    ensures r1 == r2 && r1 !in existing
  {
    if file in existing {
      var stem, ext := PathInfo(ds, file).filename, DottedExt(ds, file);
      var k1: nat :| 1 <= k1 && r1 == Candidate(stem, ext, k1) && r1 !in existing
                     && forall j :: 1 <= j < k1 ==> Candidate(stem, ext, j) in existing;
      var k2: nat :| 1 <= k2 && r2 == Candidate(stem, ext, k2) && r2 !in existing
                     && forall j :: 1 <= j < k2 ==> Candidate(stem, ext, j) in existing;
      assert !(k1 < k2) && !(k2 < k1);
    }
  }

  /** The last dot is found where it is. */
  lemma LastDotAt(s: string, k: nat)
    requires k < |s| && s[k] == '.' && '.' !in s[k + 1..]
    ensures LastIndexOf(s, '.') == Some(k)
  {
    assert s[k] in s;
    assert forall j :: k < j < |s| ==> s[j] != '.' by {
      forall j | k < j < |s| ensures s[j] != '.' {
        assert s[j] == s[k + 1..][j - k - 1];
      }
    }
  }

  /** `pathinfo` of a name without separators splits it at its last dot. */
  lemma PathInfoOfPlain(ds: Separator, f: string, k: nat)
    requires '/' !in f && '\\' !in f && LastIndexOf(f, '.') == Some(k)
    ensures PathInfo(ds, f) == PathParts(f[..k], Some(f[k + 1..]))
  {
    BaseNameOfPlain(ds, f);
  }

  /** Joining two names without separators at a dot gives a name without separators. */
  lemma JoinPlain(stem: string, ext: string)
    requires '/' !in stem + ext && '\\' !in stem + ext
    ensures '/' !in stem + "." + ext && '\\' !in stem + "." + ext
  {
    var f, g := stem + "." + ext, stem + ext;
    forall i | 0 <= i < |f| ensures f[i] != '/' && f[i] != '\\' {
      if i < |stem| {
        assert f[i] == g[i] && g[i] in g;
      } else if i > |stem| {
        assert f[i] == g[i - 1] && g[i - 1] in g;
      }
    }
  }

  /** The last dot of `stem.ext`, when `ext` has none, is the one after `stem`. */
  lemma SplitAtDot(stem: string, ext: string)
    requires '.' !in ext
    ensures var f := stem + "." + ext;
      && LastIndexOf(f, '.') == Some(|stem|) && f[..|stem|] == stem && f[|stem| + 1..] == ext
  {
    var f := stem + "." + ext;
    assert f[..|stem|] == stem && f[|stem| + 1..] == ext;
    LastDotAt(f, |stem|);
  }

  /**
   * `pathinfo` of a name without separators whose last dot comes after
   * `stem`: `stem` is the file name, and the dotted extension is empty
   * exactly when nothing follows the dot.
   */
  lemma PathInfoSplit(ds: Separator, stem: string, ext: string)
    requires '/' !in stem + ext && '\\' !in stem + ext && '.' !in ext
    ensures PathInfo(ds, stem + "." + ext) == PathParts(stem, Some(ext))
    ensures DottedExt(ds, stem + "." + ext) == if ext == "" then "" else "." + ext
  {
    JoinPlain(stem, ext);
    SplitAtDot(stem, ext);
    PathInfoOfPlain(ds, stem + "." + ext, |stem|);
  }

  /** The first free candidate is the renaming of a taken name. */
  lemma RenamingAt(ds: Separator, file: string, existing: set<string>, k: nat)
    requires file in existing && 1 <= k
    requires Candidate(PathInfo(ds, file).filename, DottedExt(ds, file), k) !in existing
    requires forall j :: 1 <= j < k ==> Candidate(PathInfo(ds, file).filename, DottedExt(ds, file), j) in existing
    ensures IsRenaming(ds, file, existing, Candidate(PathInfo(ds, file).filename, DottedExt(ds, file), k))
  {
  }

  /** When the name is taken and the first candidate is free, that candidate is the renaming. */
  lemma FirstFree(ds: Separator, file: string, existing: set<string>)
    requires file in existing
    requires Candidate(PathInfo(ds, file).filename, DottedExt(ds, file), 1) !in existing
    ensures IsRenaming(ds, file, existing, Candidate(PathInfo(ds, file).filename, DottedExt(ds, file), 1))
  {
  }

  /** The first name tried. */
  lemma FirstCandidate(stem: string, ext: string)
    ensures Candidate(stem, ext, 1) == stem + "_1" + ext
  {
    assert NatText(1) == "1";
  }

  /**
   * A taken name whose last dot follows `stem` is renamed to `stem_1` plus
   * the dotted extension when that is free: `test.txt` becomes
   * `test_1.txt`, `a.tar.gz` becomes `a.tar_1.gz` and `name.` becomes `name_1`.
   */
  lemma RenameTaken(ds: Separator, stem: string, ext: string, existing: set<string>)
    requires '/' !in stem + ext && '\\' !in stem + ext && '.' !in ext
    requires stem + "." + ext in existing
    requires stem + "_1" + (if ext == "" then "" else "." + ext) !in existing
    ensures IsRenaming(ds, stem + "." + ext, existing, stem + "_1" + (if ext == "" then "" else "." + ext))
  {
    PathInfoSplit(ds, stem, ext);
    FirstCandidate(stem, if ext == "" then "" else "." + ext);
    FirstFree(ds, stem + "." + ext, existing);
  }
}
