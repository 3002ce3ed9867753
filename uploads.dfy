/**
 * The `Upload` object. The upload directory's contents are the set of names
 * `file_exists` finds below it; whether the directory exists and whether its
 * parent is writable, whether `move_uploaded_file` succeeds and what
 * `filesize` reports are parameters.
 */
module Uploads {
  import opened Wrappers
  import opened PhpStrings
  import opened UploadTypes
  import opened UploadNames

  /** Why `setUploadDir`, and so the constructor, throws. */
  datatype SetupError = DirMissing | NotWritable

  /** Why `upload` throws; `NotAccepted` carries the refused extension. */
  datatype UploadError = MoveFailed | TooBig | NotAccepted(ext: string)

  /** Deleting a name the directory does not hold changes nothing. */
  lemma RemoveAbsent(s: set<string>, x: string)
    requires x !in s
    ensures s - {x} == s
  {
  }

  class Upload {
    /** The host's `DIRECTORY_SEPARATOR`. */
    const ds: Separator
    var uploadDir: string
    /** `None` until `upload` names the file. */
    var uploadedFile: Option<string>
    var maxSize: int
    var allowedTypes: seq<string>
    var overwrite: bool
    var success: bool

    /**
     * `new Upload($dir, $maxSize, $allowedTypes)`, with PHP's defaults 0 and
     * `null` for the last two: throws as `setUploadDir`
     * does, before anything else is set.
     */
    static method Open(ds: Separator, dir: string, dirExists: bool, parentWritable: bool,
                       maxSize: int := 0, allowedTypes: Option<seq<string>> := None)
      returns (r: Result<Upload, SetupError>)
      ensures !dirExists ==> r == Failure(DirMissing)
      ensures dirExists && !parentWritable ==> r == Failure(NotWritable)
      ensures r.Success? <==> dirExists && parentWritable
      ensures r.Success? ==>
                && fresh(r.value) && r.value.ds == ds
                && r.value.uploadDir == dir && r.value.maxSize == maxSize
                && r.value.allowedTypes == (if allowedTypes.Some? then allowedTypes.value else [])
                && r.value.uploadedFile.None? && !r.value.overwrite && !r.value.success
    {
      if !dirExists {
        return Failure(DirMissing);
      }
      if !parentWritable {
        return Failure(NotWritable);
      }
      var u := new Upload(ds, dir, maxSize, allowedTypes);
      return Success(u);
    }

    /** The constructor once `setUploadDir` has accepted `dir`. */
    constructor (ds: Separator, dir: string, maxSize: int := 0, allowedTypes: Option<seq<string>> := None)
      ensures this.ds == ds && uploadDir == dir && this.maxSize == maxSize
      ensures this.allowedTypes == if allowedTypes.Some? then allowedTypes.value else []
      ensures uploadedFile.None? && !overwrite && !success
    {
      this.ds := ds;
      uploadDir := dir;
      uploadedFile := None;
      this.maxSize := maxSize;
      this.allowedTypes := [];
      overwrite := false;
      success := false;
      new;
      if allowedTypes.Some? && |allowedTypes.value| > 0 {
        SetAllowedTypes(allowedTypes.value);
      }
    }

    /** `useDefaults($maxSize)`: the default size limit and the default list of types. */
    method UseDefaults(maxSize: int := DefaultMaxSize)
      modifies this`maxSize, this`allowedTypes
      ensures this.maxSize == maxSize && allowedTypes == Defaults()
    {
      this.maxSize := maxSize;
      allowedTypes := Defaults();
    }

    /**
     * `setUploadDir($dir)`: refused when `dir` does not exist, or when the
     * directory above it is not writable; otherwise installed.
     */
    method SetUploadDir(dir: string, dirExists: bool, parentWritable: bool) returns (r: Result<(), SetupError>)
      modifies this`uploadDir
      ensures !dirExists ==> r == Failure(DirMissing)
      ensures dirExists && !parentWritable ==> r == Failure(NotWritable)
      ensures r.Success? <==> dirExists && parentWritable
      ensures uploadDir == if r.Success? then dir else old(uploadDir)
    {
      if !dirExists {
        return Failure(DirMissing);
      }
      if !parentWritable {
        return Failure(NotWritable);
      }
      uploadDir := dir;
      return Success(());
    }

    method SetMaxSize(maxSize: int)
      modifies this`maxSize
      ensures this.maxSize == maxSize
    {
      this.maxSize := maxSize;
    }

    method SetAllowedTypes(types: seq<string>)
      modifies this`allowedTypes
      ensures allowedTypes == types
    {
      allowedTypes := types;
    }

    /** `addAllowedType($type)`. */
    method AddAllowedType(t: string)
      modifies this`allowedTypes
      ensures allowedTypes == AddType(old(allowedTypes), t)
    {
      if t !in allowedTypes {
        allowedTypes := allowedTypes + [t];
      }
    }

    /** `removeAllowedType($type)`: the entry `array_search` finds is unset. */
    method RemoveAllowedType(t: string)
      modifies this`allowedTypes
      ensures allowedTypes == RemoveFirst(old(allowedTypes), t)
    {
      if t in allowedTypes {
        var k := Search(allowedTypes, t).value;
        allowedTypes := allowedTypes[..k] + allowedTypes[k + 1..];
      }
    }

    /** `overwrite($overwrite)`. */
    method SetOverwrite(overwrite: bool)
      modifies this`overwrite
      ensures this.overwrite == overwrite
    {
      this.overwrite := overwrite;
    }

    function GetUploadDir(): string
      reads this
    {
      uploadDir
    }

    function GetUploadedFile(): Option<string>
      reads this
    {
      uploadedFile
    }

    /** The upload directory, a separator and the uploaded file's name, which is empty before an upload. */
    function GetUploadedFullPath(): (r: string)
      reads this
      ensures |r| > |uploadDir| && r[..|uploadDir|] == uploadDir && r[|uploadDir|] == ds
      ensures uploadedFile.Some? && uploadedFile.value != [] && '/' !in uploadedFile.value && '\\' !in uploadedFile.value
              ==> BaseName(ds, r) == uploadedFile.value
    {
      var name := if uploadedFile.Some? then uploadedFile.value else "";
      if name != [] && '/' !in name && '\\' !in name then
        FullPathBase(ds, uploadDir, name);
        uploadDir + [ds] + name
      else
        uploadDir + [ds] + name
    }

    function GetMaxSize(): int
      reads this
    {
      maxSize
    }

    function GetAllowedTypes(): seq<string>
      reads this
    {
      allowedTypes
    }

    function IsAllowed(ext: string): bool
      reads this
    {
      Allowed(allowedTypes, ext)
    }

    function IsOverwrite(): bool
      reads this
    {
      overwrite
    }

    function IsSuccess(): bool
      reads this
    {
      success
    }

    /**
     * `checkFilename($file)` against `existing`, the names the upload
     * directory holds: the first name of `file`, `stem_1.ext`, `stem_2.ext`,
     * ... that is not taken.
     */
    method CheckFilename(file: string, existing: set<string>) returns (r: string)
      ensures r !in existing
      ensures file !in existing ==> r == file
      ensures IsRenaming(ds, file, existing, r)
    {
      var parts := PathInfo(ds, file);
      var origFilename := parts.filename;
      var ext := if parts.extension.Some? && parts.extension.value != "" then "." + parts.extension.value else "";
      assert ext == DottedExt(ds, file);
      ghost var k;
      r, k := TryCandidates(file, origFilename, ext, existing);
      if file in existing {
        RenamingAt(ds, file, existing, k);
      }
    }

    /**
     * The `while` loop of `checkFilename`: from `file`, the names with
     * counters 1, 2, ... until one is free; `k` is the counter of the name
     * returned.
     */
    static method TryCandidates(file: string, stem: string, ext: string, existing: set<string>)
      returns (r: string, ghost k: nat)
      ensures r !in existing
      ensures file !in existing ==> r == file
      ensures file in existing ==>
                && 1 <= k && r == Candidate(stem, ext, k)
                && forall j :: 1 <= j < k ==> Candidate(stem, ext, j) in existing
    {
      var newFilename := file;
      var i := 1;
      while newFilename in existing
        invariant 1 <= i
        invariant i == 1 ==> newFilename == file
        invariant i > 1 ==> file in existing && newFilename == Candidate(stem, ext, i - 1)
        invariant forall j :: 1 <= j < i - 1 ==> Candidate(stem, ext, j) in existing
        decreases |existing| - (i - 1)
      {
        if i > 1 {
          TakenBound(stem, ext, i - 1, existing);
        }
        newFilename := stem + "_" + NatText(i) + ext;
        i := i + 1;
      }
      return newFilename, i - 1;
    }

    /**
     * The part of `upload` after the file is named, with `ext` the
     * extension of its full path: the move, the size check, then the type
     * check.
     */
    method Store(name: string, ext: Option<string>, existing: set<string>, moved: bool, fileSize: int)
      returns (r: Result<string, UploadError>, stored: set<string>)
      modifies this`success
      ensures var tooBig := maxSize > 0 && fileSize > maxSize;
              && (!moved ==> r == Failure(MoveFailed) && stored == existing)
              && (moved && tooBig ==> r == Failure(TooBig) && stored == existing - {name})
              && (moved && !tooBig && ext.Some? && !Allowed(allowedTypes, ext.value) ==>
                    r == Failure(NotAccepted(ext.value)) && stored == existing - {name})
              && (r.Success? <==> moved && !tooBig && (ext.None? || Allowed(allowedTypes, ext.value)))
              && (r.Success? ==> r.value == name && stored == existing + {name})
      ensures success == (old(success) || r.Success?)
    {
      if !moved {
        r, stored := Failure(MoveFailed), existing;
      } else if maxSize > 0 && fileSize > maxSize {
        // Moved, then unlinked again.
        r, stored := Failure(TooBig), existing - {name};
      } else if ext.Some? && !IsAllowed(ext.value) {
        r, stored := Failure(NotAccepted(ext.value)), existing - {name};
      } else {
        success := true;
        r, stored := Success(name), existing + {name};
      }
    }

    /**
     * `upload($src, $dest)` where `existing` is what the upload directory
     * holds, `moved` what `move_uploaded_file` returns and `fileSize` what
     * `filesize` then reports; `stored` is what the directory holds after.
     * The file is named before the move; after the move it is deleted
     * again when it is too big or its extension is not accepted.
     */
    method Upload(dest: string, existing: set<string>, moved: bool, fileSize: int)
      returns (r: Result<string, UploadError>, stored: set<string>)
      modifies this`uploadedFile, this`success
      ensures uploadedFile.Some?
      ensures overwrite ==> uploadedFile.value == dest
      ensures !overwrite ==> IsRenaming(ds, dest, existing, uploadedFile.value)
      ensures var name := uploadedFile.value;
              var tooBig := maxSize > 0 && fileSize > maxSize;
              var ext := PathInfo(ds, uploadDir + [ds] + name).extension;
              && (!moved ==> r == Failure(MoveFailed) && stored == existing)
              && (moved && tooBig ==> r == Failure(TooBig) && stored == existing - {name})
              && (moved && !tooBig && ext.Some? && !Allowed(allowedTypes, ext.value) ==>
                    r == Failure(NotAccepted(ext.value)) && stored == existing - {name})
              && (r.Success? <==> moved && !tooBig && (ext.None? || Allowed(allowedTypes, ext.value)))
              && (r.Success? ==> r.value == name && stored == existing + {name})
      ensures !overwrite && r.Failure? ==> stored == existing
      ensures success == (old(success) || r.Success?)
    {
      var name := dest;
      if !overwrite {
        name := CheckFilename(dest, existing);
      }
      assert !overwrite ==> name !in existing && IsRenaming(ds, dest, existing, name);
      uploadedFile := Some(name);
      var ext := PathInfo(ds, uploadDir + [ds] + name).extension;
      r, stored := Store(name, ext, existing, moved, fileSize);
      if !overwrite && r.Failure? {
        RemoveAbsent(existing, name);
      }
    }
  }
}
