/**
 * The list of allowed file types of an `Upload`: what `useDefaults`
 * installs, how `addAllowedType` and `removeAllowedType` change it, and the
 * test `isAllowed` makes against it.
 */
module UploadTypes {
  import opened Wrappers
  import opened PhpStrings

  /**
   * The 55 extensions `useDefaults` installs, in its order, written as the
   * source's four lines; all are lower case, so each can match the
   * lower-cased extension `isAllowed` looks up.
   */
  function Defaults(): (r: seq<string>)
    ensures |r| == 55
    ensures LowerLine(r)
  {
    assert LowerLine(DefaultsLine1);
    assert LowerLine(DefaultsLine2);
    assert LowerLine(DefaultsLine3);
    assert LowerLine(DefaultsLine4);
    DefaultsLine1 + DefaultsLine2 + DefaultsLine3 + DefaultsLine4
  }

  predicate LowerLine(line: seq<string>) {
    forall k :: 0 <= k < |line| ==> !HasUpper(line[k])
  }

  const DefaultsLine1: seq<string> :=
    ["ai", "aif", "aiff", "avi", "bmp", "bz2", "csv", "doc", "docx", "eps", "fla", "flv", "gif", "gz"]
  const DefaultsLine2: seq<string> :=
    ["jpe", "jpg", "jpeg", "json", "log", "md", "mov", "mp2", "mp3", "mp4", "mpg", "mpeg", "otf", "pdf"]
  const DefaultsLine3: seq<string> :=
    ["png", "ppt", "pptx", "psd", "rar", "sql", "sqlite", "svg", "swf", "tar", "tbz", "tbz2", "tgz"]
  const DefaultsLine4: seq<string> :=
    ["tif", "tiff", "tsv", "ttf", "txt", "wav", "wma", "wmv", "xls", "xlsx", "xml", "yaml", "yml", "zip"]

  /** The maximum size `useDefaults` installs when called without an argument. */
  const DefaultMaxSize: int := 10000000

  /** `isAllowed($ext)`: an empty list allows everything, otherwise the lower-cased extension must be listed. */
  predicate Allowed(types: seq<string>, ext: string) {
    |types| == 0 || Lower(ext) in types
  }

  /** `addAllowedType($type)`: appended unless already listed. */
  function AddType(types: seq<string>, t: string): (r: seq<string>)
    ensures t in r
    ensures t in types ==> r == types
    ensures t !in types ==> r == types + [t]
  {
    if t in types then types else types + [t]
  }

  /** `array_search`: the first index holding the value. */
  function Search(types: seq<string>, t: string): (r: Option<nat>)
    ensures r.None? <==> t !in types
    ensures r.Some? ==> r.value < |types| && types[r.value] == t && t !in types[..r.value]
  {
    if types == [] then None
    else if types[0] == t then Some(0)
    else match Search(types[1..], t)
      case None => None
      case Some(k) =>
        assert types[..k + 1] == [types[0]] + types[1..][..k];
        Some(k + 1)
  }

  /** `removeAllowedType($type)`: the first occurrence goes, the others stay in order. */
  function RemoveFirst(types: seq<string>, t: string): (r: seq<string>)
    ensures t !in types ==> r == types
    ensures t in types ==> |r| + 1 == |types|
    ensures multiset(r) == multiset(types) - multiset{t}
    ensures t in types ==> exists k :: 0 <= k < |types| && types[k] == t && t !in types[..k]
                                       && r == types[..k] + types[k + 1..]
  {
    match Search(types, t)
    case None => types
    case Some(k) =>
      assert types == types[..k] + [t] + types[k + 1..];
      types[..k] + types[k + 1..]
  }

  predicate NoDuplicates(types: seq<string>) {
    forall i, j :: 0 <= i < j < |types| ==> types[i] != types[j]
  }

  /** The test ignores the case of the queried extension. */
  lemma AllowedIgnoresQueryCase(types: seq<string>, ext: string)
    ensures Allowed(types, ext) <==> Allowed(types, Lower(ext))
  {
    LowerIsLower(ext);
  }

  /**
   * The test does not lower-case the list: `PSD` and `psd` both match a
   * listed `psd`, neither matches a listed `PSD`.
   */
  lemma ListCaseMatters()
    ensures Allowed(["psd"], "PSD") && Allowed(["psd"], "psd")
    ensures !Allowed(["PSD"], "PSD") && !Allowed(["PSD"], "psd")
  {
    assert Lower("PSD") == "psd";
    assert Lower("psd") == "psd";
  }

  /** After `useDefaults`, `psd` passes in any case. */
  lemma DefaultsAllowPsd()
    ensures |Defaults()| == 55
    ensures Allowed(Defaults(), "psd") && Allowed(Defaults(), "PSD")
  {
    assert Lower("PSD") == "psd" && Lower("psd") == "psd";
    assert "psd" in DefaultsLine3;
  }

  /** After `useDefaults`, `php` is refused in any case. */
  lemma DefaultsRefusePhp()
    ensures !Allowed(Defaults(), "php") && !Allowed(Defaults(), "PHP")
  {
    assert Lower("PHP") == "php" && Lower("php") == "php";
    assert "php" !in DefaultsLine1 && "php" !in DefaultsLine2;
    assert "php" !in DefaultsLine3 && "php" !in DefaultsLine4;
  }

  /** Adding twice is adding once. */
  lemma AddTypeIdempotent(types: seq<string>, t: string)
    ensures AddType(AddType(types, t), t) == AddType(types, t)
  {
  }

  /** `addAllowedType` keeps a list free of duplicates. */
  lemma AddTypeKeepsNoDuplicates(types: seq<string>, t: string)
    requires NoDuplicates(types)
    ensures NoDuplicates(AddType(types, t))
  {
    if t !in types {
      var r := types + [t];
      forall i, j | 0 <= i < j < |r| ensures r[i] != r[j] {
        if j == |types| {
          assert r[i] == types[i];
        }
      }
    }
  }

  /** Removing a type just added brings the list back. */
  lemma AddThenRemove(types: seq<string>, t: string)
    requires t !in types
    ensures RemoveFirst(AddType(types, t), t) == types
  {
    var r := types + [t];
    assert r[..|types|] == types;
    assert Search(r, t) == Some(|types|);
  }

  /** In a list without duplicates, the removed type is no longer listed. */
  lemma RemoveDisallows(types: seq<string>, t: string)
    requires NoDuplicates(types)
    ensures t !in RemoveFirst(types, t)
  {
    if t in types {
      var k := Search(types, t).value;
      var r := types[..k] + types[k + 1..];
      forall i | 0 <= i < |r| ensures r[i] != t {
        if i < k { assert r[i] == types[i]; } else { assert r[i] == types[i + 1]; }
      }
    }
  }
}
