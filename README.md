# pop-file: `Dir` and `Upload`, modelled in Dafny

This project models the two classes of the `Pop\File` component and proves
properties of the model.

**`Dir`** opens a directory and keeps several things about it:

- its canonical path: separators are converted to the host's, and one
  trailing separator is trimmed;
- a nested array of its contents, built by `buildTree`;
- a flat listing, `objects` and `files`, whose shape depends on the
  `full`, `rec` and `dirs` flags.

It can also copy the directory somewhere else with `copyDir` and empty or
remove it with `emptyDir`.

**`Upload`** holds six pieces of state:

- an upload directory;
- the name of the uploaded file, unset until `upload` names it;
- a size limit;
- a list of allowed extensions;
- an overwrite flag;
- a success flag, set when `upload` accepts the file.

Its `checkFilename` picks a free name by counting `stem_1.ext`,
`stem_2.ext`, and so on. Its `upload` names the file, moves it into the upload
directory, and then accepts it or rejects it (which deletes it again).

## How the filesystem is modelled

The filesystem is a value:

- A directory is a `FileTree.Node`: `Folder(name, children)` or
  `File(name, size)`.
- `children` holds the real entries in the order the host enumerates them.
- The `.` and `..` entries are added by `FileTree.Enumerate`. The host
  yields them somewhere in its enumeration, in no fixed place. The model
  puts them first. Every loop skips them by name, so their place changes
  no result.

Host calls become parameters:

- `file_exists` and the directory iterators become a lookup from paths to
  nodes.
- `realpath` becomes a function from paths to optional resolved paths.
- `DIRECTORY_SEPARATOR` becomes a `ds` parameter of every operation.

PHP's default arguments are Dafny default parameters: the `Dir`
constructor's `$full = false`, `$rec = false` and `$dirs = true`, `copyDir`'s
`$full = true`, `emptyDir`'s `$remove = false`, and the `Upload`
constructor's `$maxSize = 0` and `$allowedTypes = null`.

Methods change the filesystem by taking the node they act on and returning
what is left of it:

- `emptyDir`.
- `copyDir`.
- The upload's effect on the upload directory. That directory is the set of
  names `file_exists` finds there.

The objects themselves are classes. Their fields are the PHP properties,
and the methods update those fields in place.

The PHP array `buildTree` returns is modelled as an ordered sequence of
slots. Each slot has a string or integer key. `$a[$k] = …` and `$a[] = …`
follow PHP's rules, including the next free integer index.

## Model

| member | source | states |
|---|---|---|
| PhpStrings.Foreign | src/Dir.php:96-99 | the other separator is never the host's |
| PhpStrings.ReplaceChar | src/Dir.php:97-99 | `str_replace` of one character keeps the length and replaces exactly the occurrences of that character |
| PhpStrings.LooseEqualsInt | src/Dir.php:105 | the definition of the loose `==` between a `strrpos` result and an integer: an index compares numerically, and `false` equals only 0 |
| PhpStrings.LastIndexOf | src/Dir.php:105 | `strrpos` is absent exactly when the character is missing; otherwise it is an occurrence with none after it |
| PhpStrings.Lower | src/Upload.php:251 | `strtolower` keeps the length and lower-cases each ASCII letter |
| PhpStrings.LowerIsLower | src/Upload.php:251 | no upper-case letter survives `strtolower`, and a second application changes nothing |
| PhpStrings.LowerOfLower | src/Upload.php:251 | a string without upper-case letters is its own `strtolower` |
| PhpStrings.NatText | src/Upload.php:290 | the counter's decimal text is non-empty and made of digits |
| PhpStrings.DigitInjective | src/Upload.php:290 | helper of `PhpStrings.NatTextInjective`: different digits have different characters |
| PhpStrings.NatTextInjective | src/Upload.php:290 | different counters have different decimal texts |
| FileTree.IsDot | src/Dir.php:141 | the definition of `isDot()` and of the `'.'`/`'..'` tests: a test on the entry's name |
| FileTree.Enumerate | src/Dir.php:140-141 | an enumeration yields both dot entries (first, by the model's choice), then every entry in order |
| FileTree.Visible | src/Dir.php:141 | the non-dot entries are exactly the entries that are not dot entries |
| FileTree.ChildIndex | src/Dir.php:222 | a name has an index exactly when an entry bears it, and the entry at that index does |
| FileTree.ExistsAt | src/Dir.php:222 | the definition of `file_exists` below a node: every name of the path is found in turn; used by `DirOps.CopyResult` |
| DirPaths.ConvertSeparators | src/Dir.php:96-102 | every foreign separator becomes the host's and nothing else changes; a path without one is unchanged |
| DirPaths.TrimTrailing | src/Dir.php:105-107 | the definition of the trailing-separator trim; its meaning is `DirPaths.TrimTrailingMeaning` |
| DirPaths.Canonical | src/Dir.php:96-107 | the stored path has no foreign separator and is the converted path, or the converted path less its last character |
| DirPaths.TrimTrailingMeaning | src/Dir.php:105-107 | the trim removes a trailing host separator; it empties a one-character path (`false == 0`); it leaves everything else alone |
| DirPaths.TrimDoubleSeparator | src/Dir.php:105-107 | `a//` keeps one trailing separator |
| DirPaths.TrimSingleCharacter | src/Dir.php:105-107 | a one-character path such as `.` is trimmed to the empty path |
| DirPaths.FolderName | src/Dir.php:215-220 | the folder name is the part of the path after its last separator, or the whole path when it has none |
| DirPaths.FolderNameAtSeparator | src/Dir.php:215-217 | a path ending in the separator gives an empty folder name |
| DirTree.KeyIndex | src/Dir.php:296 | the slot found has the key, and when none is found no slot has it |
| DirTree.Assign | src/Dir.php:296 | the definition of `$a[$k] = $v`: the slot with the key gets the value in place, or a slot is appended |
| DirTree.Append | src/Dir.php:298 | the definition of `$a[] = $v`: a slot is appended under `NextIndex` |
| DirTree.NextIndex | src/Dir.php:298 | `$a[]` uses an index above every integer key already present |
| DirTree.TreeStep | src/Dir.php:287-300 | one iteration keeps every folder key as separator plus name, holding a sub-array, and every file as a name value |
| DirTree.TreeOf | src/Dir.php:283-303 | the array returned has this shape at every level |
| DirTree.TreeOfSkipsDots | src/Dir.php:288-290 | the two dot entries add nothing to the array |
| DirTree.NextIndexAppend | src/Dir.php:298 | how the next free index grows with one more slot |
| DirTree.PlainNextIndex | src/Dir.php:298 | the files take integer keys 0, 1, 2, …, so the next index is the number of files |
| DirTree.PlainKeys | src/Dir.php:296 | every string key is the separator followed by the name of one of the entries |
| DirTree.UniqueLast | src/Dir.php:287 | helper of `DirTree.TreeOfPlain`: in a directory with unique names, the last entry's name is not found earlier |
| DirTree.TreeOfPlain | src/Dir.php:287-300 | with unique names, each folder gets its own slot keyed separator plus name, and each file is appended in order |
| DirTree.PlainLength | src/Dir.php:287-300 | there is one slot per non-dot entry |
| DirTree.TreeCount | src/Dir.php:287-300 | keys plus list elements equal the number of non-dot entries |
| DirListing.InfoAt | src/Dir.php:114-121 | the definition of the record an iterator yields for an entry: `getFilename`, `getPathname` (the path, a separator and the name) and `isDir` |
| DirListing.SomeNames | src/Dir.php:156 | the name list has one name per record, in order |
| DirListing.NonDirs | src/Dir.php:157-158 | the non-directory records, and no others |
| DirListing.FullPaths | src/Dir.php:145-148 | a path per record, with a trailing separator for a directory |
| DirListing.Resolved | src/Dir.php:121-126 | `realpath` of each record; the `false` results are dropped |
| DirListing.SomeNamesSnoc | src/Dir.php:156 | one more record adds its name at the end |
| DirListing.NonDirsSnoc | src/Dir.php:157-158 | one more record is added at the end when it is not a directory |
| DirListing.FullPathsSnoc | src/Dir.php:145-148 | one more record adds its path at the end |
| DirListing.ResolvedSnoc | src/Dir.php:121-126 | one more record adds its resolved path at the end when `realpath` resolves it |
| DirListing.LevelStep | src/Dir.php:140-162 | the definition of one iteration of the single-level loop; its effect is stated by `DirListing.LevelListing` |
| DirListing.Level | src/Dir.php:140-162 | the definition of the single-level loop over an enumeration, one `LevelStep` per entry |
| DirListing.LevelInfos | src/Dir.php:140-142 | there is one record per non-dot entry visited |
| DirListing.LevelSkipsDots | src/Dir.php:141 | the dot entries leave the single-level listing untouched |
| DirListing.LevelObjects | src/Dir.php:141-142 | `objects` gets one element per non-dot entry visited, whatever the flags (see Left out on what each element is) |
| DirListing.LevelNames | src/Dir.php:155-156 | with `dirs` and without `full`, `files` holds every entry's name, in order |
| DirListing.LevelInfosSnoc | src/Dir.php:140-142 | how the records grow by one entry |
| DirListing.LevelNonDirStep | src/Dir.php:157-158 | without `full` or `dirs`, one entry adds its name exactly when it is a file |
| DirListing.NonDirNamesSnoc | src/Dir.php:157-158 | one more record adds its name to the non-directory names exactly when it is not a directory |
| DirListing.NonDirNamesStep | src/Dir.php:157-158 | the reference names of the non-directories grow by the same entry |
| DirListing.LevelNonDirNames | src/Dir.php:157-158 | without `dirs` and `full`, `files` holds exactly the non-directory names, in order |
| DirListing.LevelFullStep | src/Dir.php:145-152 | with `full` and `dirs`, one entry adds its path, with a trailing separator for a directory |
| DirListing.FullPathsStep | src/Dir.php:145-148 | the reference paths grow by the same entry |
| DirListing.LevelFullPaths | src/Dir.php:145-148 | with `full` and `dirs`, a directory gives path, separator, name and separator; a file gives path, separator and name |
| DirListing.StaleShapeSnoc | src/Dir.php:149-152 | the stale-value shape survives one more entry |
| DirListing.LevelStale | src/Dir.php:144-152 | with `full` and without `dirs`, a file gives its path, and a directory repeats the previous value (`null` at first) |
| DirListing.LevelListing | src/Dir.php:139-162 | the single-level listing, mode by mode |
| DirListing.StaleFirstEntry | src/Dir.php:144-152 | a directory listed first in that mode yields `null` |
| DirListing.Walk | src/Dir.php:111-113 | the definition of what `RecursiveIteratorIterator` yields below a path: both dot entries, then the walk of the entries |
| DirListing.WalkSeq | src/Dir.php:111-113 | the definition of the walk of several entries, one after another |
| DirListing.WalkOne | src/Dir.php:111-113 | the definition of the walk of one entry: its record, then for a real folder everything below it (`SELF_FIRST`) |
| DirListing.RecStep | src/Dir.php:114-136 | the definition of one iteration of the recursive loop; its effect is stated by `DirListing.RecListing` |
| DirListing.RecFrom | src/Dir.php:114-137 | the definition of the recursive loop over a walk, one `RecStep` per record |
| DirListing.PreOrder | src/Dir.php:111-113 | the pre-order walk has no dot entries |
| DirListing.RecFromConcat | src/Dir.php:114-137 | the loop over two walks run one after the other is the loop over their concatenation |
| DirListing.WalkDropsDots | src/Dir.php:115 | the recursive loop over the walk with its dot entries is the loop over the pre-order without them |
| DirListing.RecObjects | src/Dir.php:115-116 | the recursive `objects` is every visited record, in pre-order |
| DirListing.RecNames | src/Dir.php:129-134 | the recursive names are those of every record, or of the non-directories without `dirs` |
| DirListing.RecPaths | src/Dir.php:118-127 | the recursive full listing is the resolved paths, with failed resolutions dropped |
| DirListing.RecListing | src/Dir.php:114-137 | the recursive listing of records without dot entries, mode by mode |
| DirListing.RecursiveListing | src/Dir.php:110-137 | the recursive constructor lists the pre-order of the subtree, filtered and mapped as the flags say |
| DirListing.Listed | src/Dir.php:109-163 | the definition of the listing the constructor leaves, by the `rec` flag; stated mode by mode by `DirListing.LevelListing` and `DirListing.RecursiveListing` |
| DirListing.ListedBounds | src/Dir.php:110-163 | `files` never outgrows `objects`, and without `full` it holds no `null` |
| DirListing.PreOrderCount | src/Dir.php:111-116 | the recursive walk visits exactly the non-dot entries of the whole subtree |
| DirOps.Emptied | src/Dir.php:248-275 | a file stays; an emptied folder keeps its name; without `$remove` the directory always stays |
| DirOps.EmptiedChildren | src/Dir.php:259-266 | the definition of the `readdir` loop of `emptyDir`: dot entries stay, files go, folders are emptied and go when nothing is left |
| DirOps.EmptiedChildrenTidy | src/Dir.php:259-266 | in a real directory every entry, at every depth, is removed |
| DirOps.EmptyDirTidy | src/Dir.php:248-275 | `emptyDir(false)` leaves the directory in place with no entries; `emptyDir(true)` removes it |
| DirOps.ApplyIn | src/Dir.php:233-237 | `mkdir` of an existing name changes nothing; a new name is added as a folder or a file |
| DirOps.Perform | src/Dir.php:233-237 | an operation below a node keeps the node's name and kind, and a file is left alone |
| DirOps.ApplyAll | src/Dir.php:228-238 | the operations in order keep the destination's name and kind |
| DirOps.Prefixed | src/Dir.php:225-234 | every sub-path gets the folder prepended |
| DirOps.Replay | src/Dir.php:227-238 | the walk's loop performs the items in turn and leaves `ApplyAll` of them |
| DirOps.Items | src/Dir.php:227-238 | the definition of the operations the walk of a source performs, entry by entry |
| DirOps.EntryItems | src/Dir.php:227-238 | the definition of one entry's part of the walk: `mkdir` of a folder before its contents (`SELF_FIRST`), `copy` of a file, nothing for a dot entry |
| DirOps.NamesItself | src/Dir.php:221-224 | the definition of the folder names (empty, `.`) that name the destination itself once appended to it |
| DirOps.CopyResult | src/Dir.php:213-239 | the definition of what `copyDir` leaves at the destination; stated by `DirOps.CopyFresh` and `DirOps.CopyInto` |
| DirOps.ApplyAllConcat | src/Dir.php:228-238 | two batches of operations are the same as their concatenation |
| DirOps.ChildIndexReplace | src/Dir.php:234-236 | replacing an entry by one of the same name keeps its index |
| DirOps.PerformInside | src/Dir.php:234-236 | an operation below entry `x` acts on that entry alone |
| DirOps.ApplyAllSnoc | src/Dir.php:228-238 | one more operation acts on what the earlier ones left |
| DirOps.PrefixedSnoc | src/Dir.php:234-236 | one more item gets the folder prepended to its sub-path |
| DirOps.FocusStep | src/Dir.php:234-236 | one more operation below entry `x` changes that entry only |
| DirOps.Focus | src/Dir.php:234-236 | operations below entry `x` change that entry only |
| DirOps.NameSetSnoc | src/Dir.php:234-236 | helper of `DirOps.LastNameFresh`: one more entry adds its name |
| DirOps.LastNameFresh | src/Dir.php:228-238 | the last entry of a real directory is new next to everything before it |
| DirOps.BuildFile | src/Dir.php:236 | copying a file to a new name adds that file |
| DirOps.MakeFresh | src/Dir.php:234 | `mkdir` of a new name adds an empty folder as the last entry |
| DirOps.FillFresh | src/Dir.php:233-236 | the walk below a freshly made folder fills that folder and nothing else |
| DirOps.BuildFolder | src/Dir.php:233-236 | `mkdir` of a new name followed by the folder's walk adds a copy of the folder |
| DirOps.BuildEntry | src/Dir.php:233-237 | the walk of one fresh entry adds that entry |
| DirOps.WalkSnoc | src/Dir.php:228-238 | the walk of the earlier entries, then of the last one, rebuilds them all |
| DirOps.BuildInto | src/Dir.php:228-238 | the walk of a real directory rebuilds it unchanged beside the existing entries |
| DirOps.CopyFresh | src/Dir.php:213-239 | `copyDir` with a folder name that is not empty or `.` into a destination without that name creates that folder holding a copy of the source |
| DirOps.CopyInto | src/Dir.php:213-239 | `copyDir` without `$full`, or with a folder name that is empty or `.`, adds the source's entries to the destination itself |
| DirOps.TidySnoc | src/Dir.php:233-236 | helper of `DirOps.CopyThenEmpty`: a real directory with one more real entry of a new name is still real |
| DirOps.CopyThenEmpty | tests/DirTest.php:31-41 | after `copyDir`, `emptyDir(true)` on the copy leaves nothing of it; when the destination was a real directory, `emptyDir(true)` on the destination removes it, copy and all |
| Directory.Dir.Open | src/Dir.php:83-164 | a missing path throws before any state is set; a file or an unlistable canonical path throws; otherwise the object holds the canonical path, one root key, the built tree and the listing |
| Directory.Dir.constructor | src/Dir.php:90-163 | the tree under the resolved root key, the flags, the canonical path and the listing the flags select |
| Directory.Dir.ListRecursive | src/Dir.php:110-137 | the fields after the recursive loop are the listing over the walk |
| Directory.Dir.ListLevel | src/Dir.php:139-162 | the fields after the single-level loop are the listing over the enumeration |
| Directory.Dir.GetPath | src/Dir.php:171-174 | the path holds no foreign separator |
| Directory.Dir.GetFiles | src/Dir.php:181-184 | no more files than objects, and no `null` without `full` |
| Directory.Dir.GetObjects | src/Dir.php:191-194 | at least as many objects as files |
| Directory.Dir.GetTree | src/Dir.php:201-204 | exactly one root key, holding a sub-array |
| Directory.Dir.BuildTree | src/Dir.php:283-303 | the loop and its recursive calls build the reference array of the entries |
| Directory.Dir.EmptyDir | src/Dir.php:248-256 | nothing at the path is nothing done; otherwise the node is emptied |
| Directory.Dir.EmptyNode | src/Dir.php:253-274 | the `readdir` loop and its recursive calls leave what the reference says |
| Directory.Dir.CopyDir | src/Dir.php:213-239 | the folder name, the `file_exists` test and `mkdir` (skipped for a name that names the destination), and the walk's loop leave what the reference copy says |
| Directory.RootKey | src/Dir.php:90 | the root key is a string exactly when `realpath` resolves the path |
| UploadTypes.Defaults | src/Upload.php:96-101 | the default list has 55 extensions, all without upper-case letters, so each can match a lower-cased query |
| UploadTypes.AddType | src/Upload.php:158-164 | the type is listed afterwards; it is appended exactly when it was missing |
| UploadTypes.Search | src/Upload.php:175 | `array_search` finds the first index holding the type, and nothing exactly when it is missing |
| UploadTypes.Allowed | src/Upload.php:248-252 | the definition of the type test: an empty list allows everything, otherwise the lower-cased extension must be listed |
| UploadTypes.RemoveFirst | src/Upload.php:172-178 | an absent type leaves the list unchanged; otherwise the first occurrence goes and the rest keep their order |
| UploadTypes.AllowedIgnoresQueryCase | src/Upload.php:248-252 | the test gives the same answer for the lower-cased query |
| UploadTypes.ListCaseMatters | src/Upload.php:250-251 | a listed `psd` accepts `PSD` and `psd`; a listed `PSD` accepts neither |
| UploadTypes.DefaultsAllowPsd | src/Upload.php:96-101 | the default list has 55 entries and accepts `psd` in any case |
| UploadTypes.DefaultsRefusePhp | src/Upload.php:96-101 | the default list refuses `php` in any case |
| UploadTypes.AddTypeIdempotent | src/Upload.php:160-162 | adding a type twice is adding it once |
| UploadTypes.AddTypeKeepsNoDuplicates | src/Upload.php:158-164 | adding keeps a list free of duplicates |
| UploadTypes.AddThenRemove | src/Upload.php:158-178 | removing a type just added brings back the earlier list |
| UploadTypes.RemoveDisallows | src/Upload.php:172-178 | in a list without duplicates the removed type is no longer listed |
| UploadNames.StripEnd | src/Upload.php:283 | the trailing separators `basename` ignores are exactly those after the returned length |
| UploadNames.NameStart | src/Upload.php:283 | the last component starts after the last separator |
| UploadNames.BaseName | src/Upload.php:283 | the definition of `basename`: the text between the last separator and the trailing separators |
| UploadNames.BaseNameOfPlain | src/Upload.php:283 | a name without separators is its own base name |
| UploadNames.NameStartAfter | src/Upload.php:312 | the component after a separator, with no separator following, is the last one |
| UploadNames.NoSepAfter | src/Upload.php:312 | after the separator that ends the directory, the name adds no separator |
| UploadNames.FullPathBase | src/Upload.php:312-317 | the full path's base name is the chosen name |
| UploadNames.FullPathInfo | src/Upload.php:317-319 | the extension `upload` tests is that of the chosen name |
| UploadNames.PathInfo | src/Upload.php:283-285 | the extension is set exactly when the base name has a dot, and it is the text after the last dot; stem, dot and extension give back the base name |
| UploadNames.DottedExt | src/Upload.php:285 | the `$ext` used is empty or a dot followed by text without dots |
| UploadNames.Candidate | src/Upload.php:290 | the definition of the name tried at counter `i`: the stem, `_`, the counter's decimal text and the dotted extension |
| UploadNames.CandidateInjective | src/Upload.php:290 | different counters give different names |
| UploadNames.TriedSize | src/Upload.php:289-292 | counters 1 to `n` give `n` distinct names |
| UploadNames.SubsetSize | src/Upload.php:289 | helper of `UploadNames.TakenBound`: the names tried that are taken are no more than the names the directory holds |
| UploadNames.TakenBound | src/Upload.php:289-292 | if counters 1 to `n` are all taken, the directory holds at least `n` names, so the loop ends |
| UploadNames.IsRenaming | src/Upload.php:280-295 | the definition of the renaming rule: a free name stays; a taken one becomes the candidate with the least free counter from 1 |
| UploadNames.RenamingUnique | src/Upload.php:280-295 | only one name meets the renaming rule, and it is free |
| UploadNames.LastDotAt | src/Upload.php:283 | helper of `UploadNames.SplitAtDot`: a dot with no dot after it is the last one |
| UploadNames.PathInfoOfPlain | src/Upload.php:283 | `pathinfo` of a name without separators splits it at its last dot |
| UploadNames.JoinPlain | src/Upload.php:283 | helper of `UploadNames.PathInfoSplit`: joining two names without separators at a dot gives a name without separators |
| UploadNames.SplitAtDot | src/Upload.php:283 | the last dot of `stem.ext`, when `ext` has none, is the one after `stem` |
| UploadNames.PathInfoSplit | src/Upload.php:283-285 | for a plain name `stem.ext` the file name is `stem`, and the dotted extension is empty exactly when nothing follows the dot |
| UploadNames.RenamingAt | src/Upload.php:289-294 | the first free counter gives the renaming of a taken name |
| UploadNames.FirstFree | src/Upload.php:289-294 | a taken name whose first candidate is free is renamed to that candidate |
| UploadNames.FirstCandidate | src/Upload.php:290 | the first name tried is `stem_1` plus the extension |
| UploadNames.RenameTaken | tests/UploadTest.php:47-51 | a taken `stem.ext` with a free `stem_1.ext` is renamed to it (`test.txt` to `test_1.txt`, `a.tar.gz` to `a.tar_1.gz`, `name.` to `name_1`) |
| Uploads.RemoveAbsent | src/Upload.php:323-329 | helper of `Uploads.Upload.Store`: deleting a name the directory does not hold changes nothing |
| Uploads.Upload.Open | src/Upload.php:77-85 | a missing directory or an unwritable parent throws first; otherwise the fields are set and the types are installed only when given non-empty |
| Uploads.Upload.constructor | src/Upload.php:77-85 | the directory and size are set; the types list is empty unless a non-empty array is given |
| Uploads.Upload.UseDefaults | src/Upload.php:93-103 | the size limit is the argument (10000000 by default) and the list is the 55 defaults |
| Uploads.Upload.SetUploadDir | src/Upload.php:112-126 | a missing directory, then an unwritable parent, throws and keeps the old directory; otherwise the new one is installed |
| Uploads.Upload.SetMaxSize | src/Upload.php:134-138 | the new limit is stored |
| Uploads.Upload.SetAllowedTypes | src/Upload.php:146-150 | the new list is stored |
| Uploads.Upload.AddAllowedType | src/Upload.php:158-164 | the list becomes `AddType` of the old list |
| Uploads.Upload.RemoveAllowedType | src/Upload.php:172-178 | the list becomes `RemoveFirst` of the old list |
| Uploads.Upload.SetOverwrite | src/Upload.php:186-190 | the flag is stored |
| Uploads.Upload.GetUploadedFullPath | src/Upload.php:217-220 | the upload directory, a separator, then a path whose base name is the uploaded file |
| Uploads.Upload.CheckFilename | src/Upload.php:280-295 | the result is never taken; a free name is kept; a taken name becomes the candidate with the least free counter |
| Uploads.Upload.TryCandidates | src/Upload.php:287-292 | the loop stops at the first free candidate, every earlier counter having been taken |
| Uploads.Upload.Store | src/Upload.php:315-337 | a failed move, then too big, then a present and refused extension, fail; only a rejection after the move deletes the file; acceptance stores it and sets `success` |
| Uploads.Upload.Upload | src/Upload.php:305-338 | the file is named (renamed unless overwriting) before the move, and the name stays recorded even on failure; then comes the outcome per check; an extension-less file passes the type check; a rejected renamed upload leaves the directory as it was |

## Left out

- Host calls are inputs: `file_exists`, `realpath`, the directory
  iterators, `opendir`/`readdir`, `is_writable(dirname($dir))`,
  `move_uploaded_file` and `filesize`. The model does not derive their
  results from a host.
  - `Directory.Dir.Open` treats the `realpath` of `$dir` as given.
  - `is_writable` is a boolean about the parent directory.
  - The result of the move and the size are the `moved` and `fileSize`
    parameters.
- Symbolic links, symlink cycles, permissions, concurrency, and a partial
  copy with no rollback. The code does not handle these.
- Throwing is a `Failure` value carrying a reason. The exception messages
  (including the upper-cased extension) are not modelled.
- The `@`-suppressed errors of `emptyDir` are best-effort steps:
  - an `unlink` that fails on a folder leads to the recursive call;
  - an `rmdir` that fails leaves a non-empty folder in place.
- `in_array` and `array_search` compare loosely in PHP. The model compares
  strings exactly.
- `unset` in `removeAllowedType` leaves a gap in the array keys, which the
  model does not keep.
  - `Uploads.Upload.RemoveAllowedType`: the list is a sequence without
    keys, so `getAllowedTypes` after a removal is reindexed in the model.
- The `(int)` and `(bool)` casts of the setters and `useDefaults`: the
  model takes `int` and `bool` arguments already.
- `basename` depends on the locale for multi-byte names, which the model
  does not capture. It strips trailing separators, and it treats `\` as a
  separator only on a Windows host.
- `DirOps.CopyResult`: a `$full` copy of a path whose last part is `..`
  lands in the parent of `$dest` (`$dest/..`), which lies outside the node
  the model takes. The model instead creates a folder named `..` in the
  destination. `DirOps.CopyFresh` and `DirOps.CopyThenEmpty` cover that
  name only as the model defines it.
- `DirOps.CopyFresh`: for the folder name `..` it states the copy as the
  model defines it, not as PHP performs it (see `DirOps.CopyResult`).
- `DirOps.CopyThenEmpty`: the same holds for the name `..`.
- `Directory.Dir.CopyDir`: the same holds for a path whose last part is
  `..`.
- `DirListing.InfoAt`: for a canonical path that still ends in the
  separator (`a//` becomes `a/`), the model's path name is `a//x`, while SPL
  gives `a/x`. This reaches only the records in `objects` and the argument
  of `realpath`, which resolves both spellings alike.
- `PhpStrings.Lower` lower-cases ASCII letters only. That is `strtolower`
  from PHP 8.2 on. Earlier versions follow the locale.
- `DirListing.LevelObjects`: in single-level mode `objects` holds one
  reference per visited entry, but all of them point to the one
  `DirectoryIterator`, which has moved past the last entry once the
  constructor returns. The model stores one record per visited entry
  instead. Only the number of elements, which grows by one per non-dot
  entry, matches PHP; the per-element contents do not.
- `DirListing.LevelInfos`: the same holds for the records it builds in
  single-level mode.
- `DirListing.LevelListing`: its `objects` part has the same gap.
- `Directory.Dir.ListLevel`: its `objects` field has the same gap. The
  recursive mode is not affected, since `RecursiveIteratorIterator` yields a
  new `SplFileInfo` for each entry.
- `copyDir` where the destination lies inside the source, or is the same
  folder, is not modelled. The walk is taken over the source as it is before
  the copy.
- `getUploadDir`, `getUploadedFile`, `getMaxSize`, `getAllowedTypes`,
  `isAllowed`, `isOverwrite` and `isSuccess` return a field, or the
  `Allowed` test on it. They are functions without their own contracts.
  The `Allowed` test is what `UploadTypes.AllowedIgnoresQueryCase`,
  `UploadTypes.ListCaseMatters` and the defaults lemmas state.
- `tests/UploadTest.php` exercises a later `Upload` interface: disallowed
  types, `test()`, error codes and a four-argument constructor. Only its
  file-name test matches this code. Its `test.txt` case is stated in
  general by `UploadNames.RenameTaken` rather than for the literal names.
- The `$this->tree[realpath($dir)]` key for a `false` result is PHP's
  key `0`. The model does not cover other PHP key conversions, such as
  numeric strings as keys.
