/**
 * AudioScribe's upload helpers: the temporary-file suffix taken from an
 * uploaded file's name (`pathlib.PurePath.suffix`), saving an upload to a
 * fresh temporary file, and removing that file again.
 */
module ScribeFiles {
  import opened Wrappers
  import opened Text
  import opened Files

  /** The Python values a caller may pass as a file name. */
  datatype PyArg = PyNone | PyStr(s: string) | PyInt(i: int)

  /** Python truthiness: `None`, `""` and `0` are false. */
  predicate Truthy(a: PyArg) {
    match a
    case PyNone => false
    case PyStr(s) => s != ""
    case PyInt(i) => i != 0
  }

  /**
   * `PurePosixPath(s).name`: the last component, skipping empty components
   * (repeated or trailing `/`) and `.` components, or "" when there is none.
   */
  function PathName(s: string): (r: string)
    ensures r != "." && forall k :: 0 <= k < |r| ==> r[k] != '/'
    decreases |s|
  {
    var j := LastIndexOf(s, '/');
    var comp := s[j + 1..];
    if comp != "" && comp != "." then comp
    else if j < 0 then ""
    else PathName(s[..j])
  }

  /**
   * `PurePath(s).suffix`: from the last `.` of the name on, provided that
   * `.` is neither the name's first nor its last character; otherwise "".
   */
  function PathSuffix(s: string): string {
    NameSuffix(PathName(s))
  }

  /** The suffix of a bare name. */
  function NameSuffix(name: string): string {
    var i := LastIndexOf(name, '.');
    if 0 < i < |name| - 1 then name[i..] else ""
  }

  /**
   * A suffix is empty, or a dot followed by at least one character and no
   * further dot, cut from the end of the name after a non-empty stem.
   */
  lemma SuffixShape(s: string)
    ensures var r := PathSuffix(s);
      var name := PathName(s);
      r == "" || (&& 2 <= |r| < |name| && r[0] == '.'
                  && name[|name| - |r|..] == r
                  && forall k :: 1 <= k < |r| ==> r[k] != '.' && r[k] != '/')
  {
    var name := PathName(s);
    var r := PathSuffix(s);
    var i := LastIndexOf(name, '.');
    if r != "" {
      assert forall k :: 1 <= k < |r| ==> r[k] == name[i + k];
    }
  }

  /** In a directory (empty, or ending in `/`), a proper name is the path's name. */
  lemma NameInDir(dir: string, name: string)
    requires dir == "" || dir[|dir| - 1] == '/'
    requires name != "" && name != "."
    requires forall k :: 0 <= k < |name| ==> name[k] != '/'
    ensures PathName(dir + name) == name
  {
    var s := dir + name;
    var j := LastIndexOf(s, '/');
    assert j == |dir| - 1 by {
      if j >= |dir| {
        assert false;
      }
      if dir != "" {
        assert s[|dir| - 1] == '/';
      }
    }
    assert s[j + 1..] == name;
  }

  /** The last dot of `stem.ext`, when the extension has none, is the one after the stem. */
  lemma LastDot(stem: string, ext: string)
    requires forall k :: 0 <= k < |ext| ==> ext[k] != '.'
    ensures LastIndexOf(stem + "." + ext, '.') == |stem|
  {
    var name := stem + "." + ext;
    var i := LastIndexOf(name, '.');
    assert name[|stem|] == '.';
  }

  /**
   * The name `stem.ext` in any directory has the suffix `.ext`, whatever dots
   * the stem holds: "archive.tar.gz" gives ".gz".
   */
  lemma SuffixOfName(dir: string, stem: string, ext: string)
    requires dir == "" || dir[|dir| - 1] == '/'
    requires stem != "" && ext != ""
    requires forall k :: 0 <= k < |stem| ==> stem[k] != '/'
    requires forall k :: 0 <= k < |ext| ==> ext[k] != '/' && ext[k] != '.'
    ensures PathSuffix(dir + (stem + "." + ext)) == "." + ext
  {
    NameOfStemExt(dir, stem, ext);
    SuffixOfStemExt(stem, ext);
  }

  lemma SuffixOfStemExt(stem: string, ext: string)
    requires stem != "" && ext != ""
    requires forall k :: 0 <= k < |ext| ==> ext[k] != '.'
    ensures NameSuffix(stem + "." + ext) == "." + ext
  {
    var name := stem + "." + ext;
    LastDot(stem, ext);
    assert 0 < |stem| < |name| - 1;
    DropStem(stem, "." + ext);
  }

  lemma NameOfStemExt(dir: string, stem: string, ext: string)
    requires dir == "" || dir[|dir| - 1] == '/'
    requires stem != ""
    requires forall k :: 0 <= k < |stem| ==> stem[k] != '/'
    requires forall k :: 0 <= k < |ext| ==> ext[k] != '/'
    ensures PathName(dir + (stem + "." + ext)) == stem + "." + ext
  {
    NameHasNoSlash(stem, ext);
    NameInDir(dir, stem + "." + ext);
  }

  lemma DropStem(stem: string, rest: string)
    ensures (stem + rest)[|stem|..] == rest
  {
  }

  lemma NameHasNoSlash(stem: string, ext: string)
    requires forall k :: 0 <= k < |stem| ==> stem[k] != '/'
    requires forall k :: 0 <= k < |ext| ==> ext[k] != '/'
    ensures forall k :: 0 <= k < |stem + "." + ext| ==> (stem + "." + ext)[k] != '/'
  {
    var name := stem + "." + ext;
    forall k | 0 <= k < |name| ensures name[k] != '/' {
      if k < |stem| { assert name[k] == stem[k]; }
      else if k > |stem| { assert name[k] == ext[k - |stem| - 1]; }
    }
  }

  /** A name without a dot after its first character has no suffix. */
  lemma NoDotNoSuffix(s: string)
    requires forall k :: 1 <= k < |PathName(s)| ==> PathName(s)[k] != '.'
    ensures PathSuffix(s) == ""
  {
  }

  /**
   * `_safe_suffix_from_filename`: "" for a false value, the path suffix of
   * a string, and "" when `Path(...)` raises `TypeError` on a non-string.
   */
  function SafeSuffixFromFilename(filename: PyArg): (r: string)
    ensures !Truthy(filename) ==> r == ""
    ensures filename.PyStr? ==> r == PathSuffix(filename.s)
    ensures filename.PyInt? ==> r == ""
  {
    if !Truthy(filename) then ""
    else match filename
      case PyStr(s) => PathSuffix(s)
      case _ => ""
  }

  /** An upload: the client's file name, if any, and the bytes sent. */
  datatype Upload = Upload(filename: Option<string>, content: seq<byte>)

  /** The suffix of the temporary file an upload is saved to: `upload.filename or ""`. */
  function UploadSuffix(u: Upload): string {
    SafeSuffixFromFilename(PyStr(u.filename.GetOr("")))
  }

  /**
   * `save_upload_to_temp_async`: a fresh temporary file with the upload's
   * suffix, holding exactly the uploaded bytes.
   */
  method SaveUploadToTemp(fs: FileSystem, upload: Upload) returns (p: Path)
    requires fs.Valid()
    modifies fs
    ensures fs.Valid() && fs.locked == old(fs.locked) && fs.nextTemp == old(fs.nextTemp) + 1
    ensures p == Temp(old(fs.nextTemp), "tmp", UploadSuffix(upload)) && p !in old(fs.files)
    ensures fs.files == old(fs.files)[p := upload.content]
  {
    p := fs.CreateTemp("tmp", UploadSuffix(upload));
    ghost var created := fs.files;
    fs.Write(p, upload.content);
    assert created[p := upload.content] == old(fs.files)[p := upload.content];
  }

  /**
   * `cleanup_temp_file`: removal is attempted only for a non-empty path that
   * exists; an `OSError` from the removal (a protected file) is ignored.
   */
  method CleanupTempFile(fs: FileSystem, p: Option<Path>) returns (attempted: bool)
    requires fs.Valid()
    modifies fs
    ensures fs.Valid() && fs.locked == old(fs.locked) && fs.nextTemp == old(fs.nextTemp)
    ensures attempted == (p.Some? && PathText(p.value) != "" && p.value in old(fs.files))
    ensures fs.files == if attempted && p.value !in fs.locked then old(fs.files) - {p.value} else old(fs.files)
  {
    attempted := p.Some? && PathText(p.value) != "" && fs.Exists(p.value);
    if attempted {
      var _ := fs.Remove(p.value);
    }
  }
}
