/**
 * The OpenMemory configuration patch script: it finds the first line of the
 * router configuration that declares `EmbedderConfig` and inserts, right
 * after it, a nested `Config` class that allows extra fields. The file is
 * its list of lines; the disk is a small class.
 */
module PatchConfig {
  import opened Wrappers
  import opened Text

  const FilePath := "/usr/src/openmemory/app/routers/config.py"
  const Marker := "class EmbedderConfig(BaseModel):"
  const ConfigBlock := "    class Config:\n        extra = \"allow\"\n"
  const ExitFailure := 1
  const ExitSuccess := 0

  predicate IsMarkerLine(line: string) { Contains(line, Marker) }

  /** The indices of the lines holding the marker, in order. */
  function MarkerLines(lines: seq<string>): (r: seq<nat>)
    ensures forall k :: 0 <= k < |r| ==> r[k] < |lines|
    decreases |lines|
  {
    if lines == [] then []
    else MarkerLines(lines[..|lines| - 1]) + (if IsMarkerLine(lines[|lines| - 1]) then [|lines| - 1] else [])
  }

  /** Exactly the marker lines' indices, each once and increasing. */
  lemma {:induction false} MarkerLinesMeans(lines: seq<string>)
    ensures forall k :: 0 <= k < |MarkerLines(lines)| ==>
      MarkerLines(lines)[k] < |lines| && IsMarkerLine(lines[MarkerLines(lines)[k]])
    ensures forall i :: 0 <= i < |lines| && IsMarkerLine(lines[i]) ==> i in MarkerLines(lines)
    ensures forall k, l :: 0 <= k < l < |MarkerLines(lines)| ==> MarkerLines(lines)[k] < MarkerLines(lines)[l]
    decreases |lines|
  {
    if lines != [] {
      var init := lines[..|lines| - 1];
      MarkerLinesMeans(init);
      assert forall i :: 0 <= i < |init| ==> init[i] == lines[i];
      assert MarkerLines(lines) == MarkerLines(init) +
        (if IsMarkerLine(lines[|lines| - 1]) then [|lines| - 1] else []);
    }
  }

  /** The comprehension `[i for i, l in enumerate(lines) if marker in l]`. */
  method FindMarkerLines(lines: seq<string>) returns (matches: seq<nat>)
    ensures matches == MarkerLines(lines)
  {
    matches := [];
    var i := 0;
    while i < |lines|
      invariant 0 <= i <= |lines|
      invariant matches == MarkerLines(lines[..i])
    {
      assert lines[..i + 1][..i] == lines[..i];
      if IsMarkerLine(lines[i]) {
        matches := matches + [i];
      }
      i := i + 1;
    }
    assert lines[..|lines|] == lines;
  }

  /** `lines.insert(idx + 1, block)`. */
  function InsertAfter(lines: seq<string>, idx: nat, block: string): (r: seq<string>)
    requires idx < |lines|
    ensures |r| == |lines| + 1
    ensures r[..idx + 1] == lines[..idx + 1] && r[idx + 1] == block && r[idx + 2..] == lines[idx + 1..]
  {
    lines[..idx + 1] + [block] + lines[idx + 1..]
  }

  /** What the script makes of the lines: no patch when no line holds the marker. */
  function Patched(lines: seq<string>): Option<seq<string>> {
    var matches := MarkerLines(lines);
    if matches == [] then None else Some(InsertAfter(lines, matches[0], ConfigBlock))
  }

  /** With the first marker line at `i`, the patch inserts the block right after line `i`. */
  lemma PatchedAt(lines: seq<string>, i: nat)
    requires i < |lines| && IsMarkerLine(lines[i])
    requires forall j :: 0 <= j < i ==> !IsMarkerLine(lines[j])
    ensures Patched(lines) == Some(InsertAfter(lines, i, ConfigBlock))
  {
    MarkerLinesMeans(lines);
    var matches := MarkerLines(lines);
    assert i in matches;
    var k :| 0 <= k < |matches| && matches[k] == i;
    assert IsMarkerLine(lines[matches[0]]);
  }

  /**
   * There is a patch exactly when some line holds the marker; it inserts the
   * block right after the first such line (which `InsertAfter` states in
   * full: the lines up to and including it kept, the later ones shifted by
   * one).
   */
  lemma PatchedMeans(lines: seq<string>)
    ensures Patched(lines).None? <==> forall i :: 0 <= i < |lines| ==> !IsMarkerLine(lines[i])
    ensures forall i :: 0 <= i < |lines| && IsMarkerLine(lines[i]) && (forall j :: 0 <= j < i ==> !IsMarkerLine(lines[j])) ==>
      Patched(lines) == Some(InsertAfter(lines, i, ConfigBlock))
  {
    MarkerLinesMeans(lines);
    forall i | 0 <= i < |lines| && IsMarkerLine(lines[i]) && (forall j :: 0 <= j < i ==> !IsMarkerLine(lines[j]))
      ensures Patched(lines) == Some(InsertAfter(lines, i, ConfigBlock))
    {
      PatchedAt(lines, i);
    }
  }

  /** Inserting the same block twice after one line puts both blocks there, in place of one. */
  lemma InsertAfterTwice(lines: seq<string>, i: nat, block: string)
    requires i < |lines|
    ensures forall j :: 0 <= j <= i ==> InsertAfter(lines, i, block)[j] == lines[j]
    ensures InsertAfter(InsertAfter(lines, i, block), i, block) == lines[..i + 1] + [block, block] + lines[i + 1..]
  {
    var once := InsertAfter(lines, i, block);
    forall j | 0 <= j <= i ensures once[j] == lines[j] {
      assert once[j] == once[..i + 1][j];
    }
    assert once[i + 1..] == [block] + lines[i + 1..] by {
      assert once[i + 1..] == [once[i + 1]] + once[i + 2..];
    }
  }

  /** The patch is not idempotent: patching again inserts a second block after the same line. */
  lemma PatchTwice(lines: seq<string>, i: nat)
    requires i < |lines| && IsMarkerLine(lines[i]) && forall j :: 0 <= j < i ==> !IsMarkerLine(lines[j])
    ensures Patched(lines).Some?
    ensures Patched(Patched(lines).value) == Some(lines[..i + 1] + [ConfigBlock, ConfigBlock] + lines[i + 1..])
  {
    PatchedAt(lines, i);
    InsertAfterTwice(lines, i, ConfigBlock);
    PatchedAt(InsertAfter(lines, i, ConfigBlock), i);
  }

  /** The file system the script sees: each path's lines. */
  class Disk {
    var files: map<string, seq<string>>

    constructor(files: map<string, seq<string>>)
      ensures this.files == files
    {
      this.files := files;
    }

    /** `open(path, 'w').writelines(lines)`. */
    method Write(path: string, lines: seq<string>)
      modifies this
      ensures files == old(files)[path := lines]
    {
      files := files[path := lines];
    }
  }

  /**
   * The script: a missing file and a file without the marker each end with
   * exit status 1 and leave the disk as it was; otherwise the patched lines
   * are written back and the script ends normally.
   */
  method Run(disk: Disk) returns (exitCode: int, message: string)
    modifies disk
    ensures FilePath !in old(disk.files) ==>
      exitCode == ExitFailure && message == "Error: File not found at " + FilePath && disk.files == old(disk.files)
    ensures FilePath in old(disk.files) && Patched(old(disk.files)[FilePath]).None? ==>
      && exitCode == ExitFailure
      && message == "Error: Target class 'EmbedderConfig' not found in " + FilePath
      && disk.files == old(disk.files)
    ensures FilePath in old(disk.files) && Patched(old(disk.files)[FilePath]).Some? ==>
      && exitCode == ExitSuccess
      && message == "Successfully patched " + FilePath
      && disk.files == old(disk.files)[FilePath := Patched(old(disk.files)[FilePath]).value]
  {
    if FilePath !in disk.files {
      return ExitFailure, "Error: File not found at " + FilePath;
    }
    var lines := disk.files[FilePath];
    var matches := FindMarkerLines(lines);
    if |matches| == 0 {
      return ExitFailure, "Error: Target class 'EmbedderConfig' not found in " + FilePath;
    }
    MarkerLinesMeans(lines);
    var idx := matches[0];
    lines := lines[..idx + 1] + [ConfigBlock] + lines[idx + 1..];
    disk.Write(FilePath, lines);
    return ExitSuccess, "Successfully patched " + FilePath;
  }
}
