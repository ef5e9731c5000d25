/**
 * AudioForge's file helpers: extensions and file names as `os.path` and
 * `str.split` see them, the suffix of a temporary path, removing a list of
 * paths, and the media type of a path with its fallback table.
 */
module ForgeFiles {
  import opened Wrappers
  import opened Text
  import opened Files
  import ScribeFiles

  /** The index of the extension's dot in `p`, as `posixpath.splitext` finds it. */
  function ExtDot(p: string): (r: Option<nat>)
    ensures r.Some? ==> r.value < |p| && p[r.value] == '.' && LastIndexOf(p, '.') == r.value
    ensures r.Some? ==> forall k :: r.value < k < |p| ==> p[k] != '.' && p[k] != '/'
  {
    var sep := LastIndexOf(p, '/');
    var dot := LastIndexOf(p, '.');
    if dot > sep && exists k | sep < k < dot :: p[k] != '.' then Some(dot) else None
  }

  /**
   * `os.path.splitext`: the extension starts at the last dot of the last
   * component, unless every character before that dot in the component is
   * a dot too (a hidden file such as `.bashrc` has no extension).
   */
  function SplitExt(p: string): (r: (string, string))
    ensures r.0 + r.1 == p
    ensures r.1 == "" || (r.1[0] == '.' && forall k :: 1 <= k < |r.1| ==> r.1[k] != '.' && r.1[k] != '/')
  {
    match ExtDot(p)
    case None => (p, "")
    case Some(d) =>
      assert p[..d] + p[d..] == p;
      (p[..d], p[d..])
  }

  /** `get_file_extension`: the extension without its dot, lowercased; "" when there is none. */
  function GetFileExtension(p: string): (r: string)
    ensures forall k :: 0 <= k < |r| ==> r[k] != '.' && r[k] != '/' && !IsUpper(r[k])
    ensures SplitExt(p).1 == "" ==> r == ""
    ensures SplitExt(p).1 != "" ==> r == Lower(SplitExt(p).1[1..])
  {
    var ext := SplitExt(p).1;
    if ext != "" then Lower(ext[1..]) else ""
  }

  /** Where `splitext` puts the dot, located by the facts that decide it. */
  lemma ExtDotAt(p: string, sep: int, d: nat)
    requires -1 <= sep < d < |p| && p[d] == '.'
    requires sep == -1 || p[sep] == '/'
    requires forall k :: d < k < |p| ==> p[k] != '.' && p[k] != '/'
    requires forall k :: sep < k < d ==> p[k] != '/'
    requires exists k :: sep < k < d && p[k] != '.'
    ensures ExtDot(p) == Some(d)
  {
    LastIndexOfAt(p, '.', d);
    LastIndexOfAt(p, '/', sep);
  }

  /** The extension of `dir/stem.ext`, for a stem that is not all dots, is `ext` lowercased. */
  lemma ExtensionOfName(dir: string, stem: string, ext: string)
    requires dir == "" || dir[|dir| - 1] == '/'
    requires exists k :: 0 <= k < |stem| && stem[k] != '.'
    requires '/' !in stem && '.' !in ext && '/' !in ext
    ensures GetFileExtension(dir + (stem + ("." + ext))) == Lower(ext)
  {
    ExtDotOfName(dir, stem, ext);
    TailOfName(dir, stem, ext);
    ExtensionAfterDot(dir + (stem + ("." + ext)), |dir| + |stem|, ext);
  }

  lemma ExtDotOfName(dir: string, stem: string, ext: string)
    requires dir == "" || dir[|dir| - 1] == '/'
    requires exists k :: 0 <= k < |stem| && stem[k] != '.'
    requires forall k :: 0 <= k < |stem| ==> stem[k] != '/'
    requires forall k :: 0 <= k < |ext| ==> ext[k] != '.' && ext[k] != '/'
    ensures ExtDot(dir + (stem + ("." + ext))) == Some(|dir| + |stem|)
  {
    NameLayout(dir, stem, ext);
    ExtDotAt(dir + (stem + ("." + ext)), |dir| - 1, |dir| + |stem|);
  }

  lemma TailOfName(dir: string, stem: string, ext: string)
    ensures (dir + (stem + ("." + ext)))[|dir| + |stem| + 1..] == ext
  {
    var p := dir + (stem + ("." + ext));
    var d := |dir| + |stem|;
    DropFront(dir, stem, "." + ext);
    assert p[d + 1..] == p[d..][1..];
  }

  lemma NameLayout(dir: string, stem: string, ext: string)
    requires dir == "" || dir[|dir| - 1] == '/'
    requires exists k :: 0 <= k < |stem| && stem[k] != '.'
    requires forall k :: 0 <= k < |stem| ==> stem[k] != '/'
    requires forall k :: 0 <= k < |ext| ==> ext[k] != '.' && ext[k] != '/'
    ensures var p := dir + (stem + ("." + ext));
      var d := |dir| + |stem|;
      && d < |p| && p[d] == '.'
      && (dir == "" || p[|dir| - 1] == '/')
      && (forall k :: d < k < |p| ==> p[k] != '.' && p[k] != '/')
      && (forall k :: |dir| - 1 < k < d ==> p[k] != '/')
      && (exists k :: |dir| - 1 < k < d && p[k] != '.')
  {
    var tail := "." + ext;
    var name := stem + tail;
    var p := dir + name;
    var d := |dir| + |stem|;
    forall k | d < k < |p| ensures p[k] != '.' && p[k] != '/' {
      assert p[k] == name[k - |dir|] == tail[k - d] == ext[k - d - 1];
    }
    assert p[d] == name[|stem|] == tail[0] == '.';
    forall k | |dir| <= k < d ensures p[k] != '/' {
      assert p[k] == stem[k - |dir|];
    }
    if dir != [] {
      assert p[|dir| - 1] == dir[|dir| - 1];
    }
    var k0 :| 0 <= k0 < |stem| && stem[k0] != '.';
    assert p[|dir| + k0] == stem[k0];
  }

  lemma ExtensionFromDot(p: string, d: nat)
    requires ExtDot(p) == Some(d)
    ensures GetFileExtension(p) == Lower(p[d + 1..])
  {
    assert SplitExt(p).1 == p[d..];
    assert p[d..][1..] == p[d + 1..];
  }

  lemma ExtensionAfterDot(p: string, d: nat, ext: string)
    requires ExtDot(p) == Some(d) && d < |p| && p[d + 1..] == ext
    ensures GetFileExtension(p) == Lower(ext)
  {
    ExtensionFromDot(p, d);
  }

  /** `retrieve_extension`: `p.split('.')[-1]`, everything after the last dot. */
  function RetrieveExtension(p: string): (r: string)
    ensures '.' !in r && |r| <= |p| && p[|p| - |r|..] == r
    ensures '.' !in p ==> r == p
  {
    p[LastIndexOf(p, '.') + 1..]
  }

  /** `remove_extension`: `p.rsplit('.', 1)[0]`, everything before the last dot. */
  function RemoveExtension(p: string): (r: string)
    ensures '.' !in p ==> r == p
    ensures '.' in p ==> |r| < |p| && p[..|r|] == r && p[|r|] == '.'
  {
    var i := LastIndexOf(p, '.');
    if i >= 0 then p[..i] else p
  }

  /** The two halves around the last dot put back together give the path. */
  lemma ExtensionRoundTrip(p: string)
    requires '.' in p
    ensures RemoveExtension(p) + "." + RetrieveExtension(p) == p
  {
    var i := LastIndexOf(p, '.');
    assert p == p[..i] + [p[i]] + p[i + 1..];
  }

  /** Only the final `.x` goes: `stem.ext` loses `.ext`, whatever dots `stem` holds. */
  lemma RemoveLastExtension(stem: string, ext: string)
    requires '.' !in ext
    ensures RemoveExtension(stem + "." + ext) == stem
    ensures RetrieveExtension(stem + "." + ext) == ext
  {
    var p := stem + "." + ext;
    assert p[|stem|] == '.';
    assert forall k :: |stem| < k < |p| ==> p[k] == ext[k - |stem| - 1];
    assert LastIndexOf(p, '.') == |stem|;
    assert p[..|stem|] == stem;
    assert p[|stem| + 1..] == ext;
  }

  /** `build_filename`: `prefix_base.ext`, the base from the original, the extension from the output. */
  function BuildFilename(prefix: string, original: string, output: string): string {
    prefix + "_" + RemoveExtension(original) + "." + RetrieveExtension(output)
  }

  /** "converted" with "audio.wav" and an output ending ".mp3" gives "converted_audio.mp3". */
  lemma BuildFilenameOf(prefix: string, stem: string, ext: string, outStem: string, outExt: string)
    requires '.' !in ext && '.' !in outExt
    ensures BuildFilename(prefix, stem + "." + ext, outStem + "." + outExt) == prefix + "_" + stem + "." + outExt
  {
    RemoveLastExtension(stem, ext);
    RemoveLastExtension(outStem, outExt);
  }

  /**
   * AudioForge's `_safe_suffix_from_filename`: `Path(filename).suffix`, or ""
   * when `Path` raises on a non-string. It agrees with AudioScribe's helper
   * on every argument, although that one tests truthiness first.
   */
  function SafeSuffixFromFilename(filename: ScribeFiles.PyArg): (r: string)
    ensures r == ScribeFiles.SafeSuffixFromFilename(filename)
  {
    match filename
    case PyStr(s) =>
      var suffix := ScribeFiles.PathSuffix(s);
      if suffix != "" then suffix else ""
    case _ => ""
  }

  /** The suffix `create_temp_path` uses: an explicit suffix, else the extension with one leading dot. */
  function TempSuffix(extension: Option<string>, suffix: Option<string>): (r: string)
    ensures suffix.Some? ==> r == suffix.value
    ensures suffix.None? && (extension.None? || extension.value == "") ==> r == ""
    ensures suffix.None? && extension.Some? && extension.value != "" ==> r != "" && r[0] == '.'
  {
    match suffix
    case Some(s) => s
    case None =>
      if extension.Some? && extension.value != "" then
        var e := extension.value;
        if StartsWith(e, ".") then e else "." + e
      else ""
  }

  /** "mp3" and ".mp3" give the same suffix ".mp3". */
  lemma TempSuffixDot(e: string)
    requires e != "" && e[0] != '.'
    ensures TempSuffix(Some(e), None) == TempSuffix(Some("." + e), None) == "." + e
  {
    assert ("." + e)[..1] == ".";
    assert e[..1] != ".";
  }

  /**
   * `create_temp_path`: a temporary file is created to reserve a fresh name
   * and unlinked again, so only the name remains.
   */
  method CreateTempPath(fs: FileSystem, extension: Option<string>, prefix: string, suffix: Option<string>)
    returns (path: Path)
    requires fs.Valid()
    modifies fs
    ensures fs.Valid() && fs.locked == old(fs.locked)
    ensures path == Temp(old(fs.nextTemp), prefix, TempSuffix(extension, suffix)) && path !in fs.files
    ensures fs.files == old(fs.files) && fs.nextTemp == old(fs.nextTemp) + 1
  {
    var s: string;
    if suffix.None? {
      if extension.Some? && extension.value != "" {
        var e := extension.value;
        s := if |e| >= 1 && e[0] == '.' then e else "." + e;
      } else {
        s := "";
      }
    } else {
      s := suffix.value;
    }
    path := fs.CreateTemp(prefix, s);
    var removed := fs.Remove(path);
    assert fs.files == old(fs.files);
  }

  /** Python truthiness of an optional path. */
  predicate Given(p: Option<Path>) { p.Some? && PathText(p.value) != "" }

  /** The paths among `paths` that `cleanup_paths` deletes from `files`. */
  function Deletable(paths: seq<Option<Path>>, files: map<Path, seq<byte>>, locked: set<Path>): (r: set<Path>)
    ensures r <= files.Keys - locked
  {
    if paths == [] then {}
    else
      var rest := Deletable(paths[..|paths| - 1], files, locked);
      var last := paths[|paths| - 1];
      if Given(last) && last.value in files && last.value !in locked then rest + {last.value} else rest
  }

  /** A path is deleted exactly when it exists, is removable and is given somewhere in the list. */
  lemma {:induction false} DeletableMeans(paths: seq<Option<Path>>, files: map<Path, seq<byte>>, locked: set<Path>, p: Path)
    ensures p in Deletable(paths, files, locked) <==>
      p in files && p !in locked && exists i :: 0 <= i < |paths| && Given(paths[i]) && paths[i].value == p
  {
    if paths != [] {
      var init := paths[..|paths| - 1];
      var n := |paths| - 1;
      DeletableMeans(init, files, locked, p);
      if p in Deletable(paths, files, locked) {
        if p in Deletable(init, files, locked) {
          var i :| 0 <= i < |init| && Given(init[i]) && init[i].value == p;
          assert paths[i] == init[i];
        } else {
          assert Given(paths[n]) && paths[n].value == p;
        }
      } else if p in files && p !in locked {
        forall i | 0 <= i < |paths| && Given(paths[i])
          ensures paths[i].value != p
        {
          if i < n {
            assert init[i] == paths[i];
          }
        }
      }
    }
  }

  /**
   * `cleanup_paths`: `None` and empty paths are skipped, a missing path is
   * left alone, a failed removal is ignored, and the loop goes on to the end.
   */
  method CleanupPaths(fs: FileSystem, paths: seq<Option<Path>>)
    requires fs.Valid()
    modifies fs
    ensures fs.Valid() && fs.locked == old(fs.locked) && fs.nextTemp == old(fs.nextTemp)
    ensures fs.files == old(fs.files) - Deletable(paths, old(fs.files), fs.locked)
  {
    var i := 0;
    while i < |paths|
      invariant 0 <= i <= |paths|
      invariant fs.Valid() && fs.locked == old(fs.locked) && fs.nextTemp == old(fs.nextTemp)
      invariant fs.files == old(fs.files) - Deletable(paths[..i], old(fs.files), fs.locked)
    {
      var p := paths[i];
      DeletableStep(paths, i, old(fs.files), fs.locked);
      if p.Some? && PathText(p.value) != "" {
        if fs.Exists(p.value) {
          var _ := fs.Remove(p.value);
        }
      }
      i := i + 1;
    }
    assert paths[..|paths|] == paths;
  }

  /** One more path either adds itself to the deleted ones or changes nothing. */
  lemma DeletableStep(paths: seq<Option<Path>>, i: nat, files: map<Path, seq<byte>>, locked: set<Path>)
    requires i < |paths|
    ensures var before := Deletable(paths[..i], files, locked);
      files - Deletable(paths[..i + 1], files, locked) ==
        if Given(paths[i]) && paths[i].value in files - before && paths[i].value !in locked
        then (files - before) - {paths[i].value}
        else files - before
  {
    assert paths[..i + 1][..i] == paths[..i];
  }

  /** The fallback table of `get_media_type_from_path`, keyed by the lowercased suffix. */
  const AudioTypes: map<string, string> := map[
    ".mp3" := "audio/mpeg",
    ".wav" := "audio/wav",
    ".ogg" := "audio/ogg",
    ".m4a" := "audio/mp4",
    ".mp4" := "audio/mp4",
    ".flac" := "audio/flac",
    ".aac" := "audio/aac",
    ".wma" := "audio/x-ms-wma",
    ".opus" := "audio/opus",
    ".aiff" := "audio/aiff",
    ".au" := "audio/basic"
  ]

  const AudioPrefix: string := "audio/"
  const OctetStream: string := "audio/octet-stream"

  lemma AudioTypesAreAudio()
    ensures forall k | k in AudioTypes :: StartsWith(AudioTypes[k], AudioPrefix)
  {
  }

  /**
   * `get_media_type_from_path`: the guess of `mimetypes` when it is an audio
   * type, else the table entry for the lowercased suffix, else
   * "audio/octet-stream"; the answer is always an audio type.
   */
  function GetMediaTypeFromPath(path: string, guess: string -> Option<string>): (r: string)
    ensures StartsWith(r, AudioPrefix)
    ensures guess(path).Some? && StartsWith(guess(path).value, AudioPrefix) ==> r == guess(path).value
    ensures !(guess(path).Some? && StartsWith(guess(path).value, AudioPrefix)) ==>
      var ext := Lower(ScribeFiles.PathSuffix(path));
      r == if ext in AudioTypes then AudioTypes[ext] else OctetStream
  {
    var mime := guess(path);
    if mime.Some? && StartsWith(mime.value, AudioPrefix) then mime.value
    else
      var ext := Lower(ScribeFiles.PathSuffix(path));
      AudioTypesAreAudio();
      if ext in AudioTypes then AudioTypes[ext] else OctetStream
  }
}
