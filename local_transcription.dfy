/**
 * The local faster-whisper stream: AudioScribe's
 * `local_speech_transcription_stream`. The audio is cut into 15-minute
 * pieces, every piece is exported to its own temporary `.wav` file and
 * scheduled, then the results are awaited in order and each segment is
 * yielded with the piece's start time added to its timestamps. The first
 * failing piece stops the stream with a `RuntimeError`; every awaited
 * piece's file is removed as soon as it has been handled.
 *
 * Loading the audio, exporting a piece and the worker's transcription are
 * parameters: `audioLength` is `None` when pydub cannot load the file,
 * `exportChunk` gives the bytes written for a piece, `transcribe` what the worker
 * returns or raises for it.
 */
module LocalTranscription {
  import opened Wrappers
  import opened Errors
  import opened Files
  import opened Chunking
  import Decimal

  const ChunkLengthMinutes: nat := 15
  const ChunkLengthMs: nat := ChunkLengthMinutes * 60 * 1000

  const LoadFailureMessage: string := "Failed to load audio file. It may be corrupt or an unsupported format."

  /** The message of the error that stops the stream, with the piece's 1-based number. */
  function ChunkFailureMessage(chunkNumber: nat): string {
    "Transcription failed on chunk " + Decimal.NatToString(chunkNumber) + ". See logs for details."
  }

  /** A transcribed segment; times in seconds. */
  datatype Segment = Segment(text: string, start: real, end: real)

  /** The offset a piece's timestamps are moved by: its start in seconds. */
  function Offset(w: Window): real {
    w.start as real / 1000.0
  }

  /** The offsets of the pieces' tasks, one per piece. */
  function Offsets(ws: seq<Window>): (r: seq<real>)
    ensures |r| == |ws|
  {
    if ws == [] then [] else Offsets(ws[..|ws| - 1]) + [Offset(ws[|ws| - 1])]
  }

  lemma {:induction false} OffsetsIndex(ws: seq<Window>, k: nat)
    requires k < |ws|
    ensures Offsets(ws)[k] == Offset(ws[k])
  {
    var init := ws[..|ws| - 1];
    if k < |ws| - 1 {
      OffsetsIndex(init, k);
    } else if |ws| > 1 {
      OffsetsIndex(init, 0);
    }
  }

  function Shift(s: Segment, offset: real): Segment {
    Segment(s.text, s.start + offset, s.end + offset)
  }

  function ShiftAll(segs: seq<Segment>, offset: real): seq<Segment> {
    seq(|segs|, i requires 0 <= i < |segs| => Shift(segs[i], offset))
  }

  /** What piece `k` contributes to the stream when its transcription succeeds. */
  function ChunkSegments(ws: seq<Window>, transcribe: Window -> Result<seq<Segment>, Error>, k: nat): seq<Segment>
    requires k < |ws|
  {
    match transcribe(ws[k])
    case Success(segs) => ShiftAll(segs, Offset(ws[k]))
    case Failure(_) => []
  }

  function Flatten<T>(xss: seq<seq<T>>): seq<T> {
    if xss == [] then [] else Flatten(xss[..|xss| - 1]) + xss[|xss| - 1]
  }

  /** The segments yielded so far and, once a piece has failed, its 0-based index. */
  datatype Stitched = Stitched(segments: seq<Segment>, failedAt: Option<nat>)

  /** The stream after awaiting the first `i` pieces in order, stopping at the first failure. */
  function StitchPrefix(ws: seq<Window>, transcribe: Window -> Result<seq<Segment>, Error>, i: nat): (r: Stitched)
    requires i <= |ws|
    ensures r.failedAt.Some? ==> r.failedAt.value < i
  {
    if i == 0 then Stitched([], None)
    else
      var prev := StitchPrefix(ws, transcribe, i - 1);
      if prev.failedAt.Some? then prev
      else match transcribe(ws[i - 1])
        case Failure(_) => Stitched(prev.segments, Some(i - 1))
        case Success(segs) => Stitched(prev.segments + ShiftAll(segs, Offset(ws[i - 1])), None)
  }

  /** How many pieces the second loop awaits: up to and including the failing one. */
  function Awaited(s: Stitched, n: nat): nat {
    if s.failedAt.Some? then s.failedAt.value + 1 else n
  }

  /** What the consumer of the stream observes: the segments yielded, then the exception, if any. */
  datatype Outcome = Outcome(yielded: seq<Segment>, failure: Option<Error>)

  function StreamSpec(audioLength: Option<nat>, transcribe: Window -> Result<seq<Segment>, Error>): Outcome {
    match audioLength
    case None => Outcome([], Some(Error(OSError, LoadFailureMessage)))
    case Some(len) =>
      var ws := Windows(len, ChunkLengthMs);
      var s := StitchPrefix(ws, transcribe, |ws|);
      Outcome(s.segments,
              if s.failedAt.Some? then Some(Error(RuntimeError, ChunkFailureMessage(s.failedAt.value + 1))) else None)
  }

  lemma {:induction false} FlattenAppend<T>(a: seq<seq<T>>, b: seq<seq<T>>)
    ensures Flatten(a + b) == Flatten(a) + Flatten(b)
    decreases |b|
  {
    if b != [] {
      FlattenAppend(a, b[..|b| - 1]);
      assert (a + b)[..|a + b| - 1] == a + b[..|b| - 1];
    } else {
      assert a + b == a;
    }
  }

  /** Element `j` of part `k` sits in the flattening right after the parts before `k`. */
  lemma FlattenIndex<T>(xss: seq<seq<T>>, k: nat, j: nat)
    requires k < |xss| && j < |xss[k]|
    ensures |Flatten(xss[..k])| + j < |Flatten(xss)|
    ensures Flatten(xss)[|Flatten(xss[..k])| + j] == xss[k][j]
  {
    assert xss == xss[..k] + [xss[k]] + xss[k + 1..];
    FlattenAppend(xss[..k] + [xss[k]], xss[k + 1..]);
    FlattenAppend(xss[..k], [xss[k]]);
    assert Flatten([xss[k]]) == xss[k] by {
      assert [xss[k]][..0] == [];
    }
  }

  /** The pieces' contributions, in order. */
  function Contributions(ws: seq<Window>, transcribe: Window -> Result<seq<Segment>, Error>, m: nat): seq<seq<Segment>>
    requires m <= |ws|
  {
    seq(m, k requires 0 <= k < m => ChunkSegments(ws, transcribe, k))
  }

  /**
   * The meaning of the stitched stream: it stops at the first failing piece
   * (if the first `i` hold one), and what it yielded is every earlier piece's
   * segments, shifted by that piece's start, in piece order.
   */
  lemma {:induction false} StitchMeaning(ws: seq<Window>, transcribe: Window -> Result<seq<Segment>, Error>, i: nat)
    requires i <= |ws|
    ensures var s := StitchPrefix(ws, transcribe, i);
      var m := if s.failedAt.Some? then s.failedAt.value else i;
      && m <= i
      && (forall k :: 0 <= k < m ==> transcribe(ws[k]).Success?)
      && (s.failedAt.Some? ==> m < i && transcribe(ws[m]).Failure?)
      && s.segments == Flatten(Contributions(ws, transcribe, m))
  {
    if i > 0 {
      StitchMeaning(ws, transcribe, i - 1);
      var prev := StitchPrefix(ws, transcribe, i - 1);
      if prev.failedAt.None? {
        var c := Contributions(ws, transcribe, i);
        assert c[..i - 1] == Contributions(ws, transcribe, i - 1);
      }
    }
  }

  /** Awaiting one more piece after `i` successful ones. */
  lemma StitchStep(ws: seq<Window>, transcribe: Window -> Result<seq<Segment>, Error>, i: nat)
    requires i < |ws| && StitchPrefix(ws, transcribe, i).failedAt.None?
    ensures var prev := StitchPrefix(ws, transcribe, i).segments;
      StitchPrefix(ws, transcribe, i + 1) ==
        match transcribe(ws[i])
        case Failure(_) => Stitched(prev, Some(i))
        case Success(segs) => Stitched(prev + ShiftAll(segs, Offset(ws[i])), None)
  {
  }

  /** Once a piece has failed, awaiting further pieces changes nothing. */
  lemma {:induction false} StitchStaysFailed(ws: seq<Window>, transcribe: Window -> Result<seq<Segment>, Error>, i: nat, j: nat)
    requires i <= j <= |ws|
    requires StitchPrefix(ws, transcribe, i).failedAt.Some?
    ensures StitchPrefix(ws, transcribe, j) == StitchPrefix(ws, transcribe, i)
    decreases j
  {
    if j > i {
      StitchStaysFailed(ws, transcribe, i, j - 1);
    }
  }

  /**
   * Segment `j` of piece `k` appears in the stream, text unchanged, with its
   * timestamps moved by 900 seconds per earlier piece, right after the
   * segments of all earlier pieces, provided no piece up to `k` failed.
   */
  lemma StreamSegmentAt(len: nat, transcribe: Window -> Result<seq<Segment>, Error>, k: nat, j: nat)
    requires k < |Windows(len, ChunkLengthMs)|
    requires forall i :: 0 <= i <= k ==> transcribe(Windows(len, ChunkLengthMs)[i]).Success?
    requires j < |transcribe(Windows(len, ChunkLengthMs)[k]).value|
    ensures var ws := Windows(len, ChunkLengthMs);
      var out := StreamSpec(Some(len), transcribe).yielded;
      var before := |Flatten(Contributions(ws, transcribe, k))|;
      var seg := transcribe(ws[k]).value[j];
      && before + j < |out|
      && out[before + j] == Segment(seg.text, seg.start + 900.0 * k as real, seg.end + 900.0 * k as real)
  {
    var ws := Windows(len, ChunkLengthMs);
    PieceSegmentAt(ws, transcribe, k, j);
    WindowAt(len, ChunkLengthMs, k);
    OffsetOfPiece(k, ws[k].end);
  }

  /** Segment `j` of piece `k` sits in the stitched stream right after the earlier pieces' segments. */
  lemma PieceSegmentAt(ws: seq<Window>, transcribe: Window -> Result<seq<Segment>, Error>, k: nat, j: nat)
    requires k < |ws|
    requires forall i :: 0 <= i <= k ==> transcribe(ws[i]).Success?
    requires j < |transcribe(ws[k]).value|
    ensures var out := StitchPrefix(ws, transcribe, |ws|).segments;
      var before := |Flatten(Contributions(ws, transcribe, k))|;
      && before + j < |out|
      && out[before + j] == Shift(transcribe(ws[k]).value[j], Offset(ws[k]))
  {
    var n := |ws|;
    StitchMeaning(ws, transcribe, n);
    var s := StitchPrefix(ws, transcribe, n);
    var m := if s.failedAt.Some? then s.failedAt.value else n;
    assert k < m;
    var c := Contributions(ws, transcribe, m);
    FlattenIndex(c, k, j);
    assert c[..k] == Contributions(ws, transcribe, k);
    assert c[k] == ShiftAll(transcribe(ws[k]).value, Offset(ws[k]));
  }

  lemma OffsetOfPiece(k: nat, end: nat)
    ensures Offset(Window(k * ChunkLengthMs, end)) == 900.0 * k as real
  {
    assert (k * ChunkLengthMs) as real == (k as real) * 900000.0;
  }

  /** The stream fails exactly when some piece fails, and then names the first one. */
  lemma StreamFailsIff(len: nat, transcribe: Window -> Result<seq<Segment>, Error>)
    ensures var ws := Windows(len, ChunkLengthMs);
      var o := StreamSpec(Some(len), transcribe);
      && (o.failure.None? <==> forall k :: 0 <= k < |ws| ==> transcribe(ws[k]).Success?)
      && (o.failure.Some? ==>
            exists m :: (0 <= m < |ws| && transcribe(ws[m]).Failure?
                         && (forall k :: 0 <= k < m ==> transcribe(ws[k]).Success?)
                         && o.failure == Some(Error(RuntimeError, ChunkFailureMessage(m + 1)))
                         && o.yielded == Flatten(Contributions(ws, transcribe, m))))
  {
    var ws := Windows(len, ChunkLengthMs);
    StitchMeaning(ws, transcribe, |ws|);
  }

  /**
   * The first loop: one temporary `.wav` file per piece, holding the exported
   * piece, with the piece's start in seconds as the offset of its task.
   */
  method ScheduleChunks(fs: FileSystem, len: nat, exportChunk: Window -> seq<byte>)
    returns (chunks: seq<Window>, tempFiles: seq<Path>, offsets: seq<real>)
    requires fs.Valid()
    modifies fs
    ensures fs.Valid() && fs.locked == old(fs.locked)
    ensures chunks == Windows(len, ChunkLengthMs)
    ensures tempFiles == ChunkPaths(old(fs.nextTemp), |chunks|) && offsets == Offsets(chunks)
    ensures fs.nextTemp == old(fs.nextTemp) + |chunks|
    ensures fs.files == old(fs.files) + ChunkFiles(old(fs.nextTemp), chunks, 0, exportChunk)
  {
    ghost var base := fs.nextTemp;
    ghost var before := fs.files;
    chunks := [];
    tempFiles := [];
    offsets := [];
    var start := 0;
    while start < len
      invariant chunks + WindowsFrom(start, len, ChunkLengthMs) == Windows(len, ChunkLengthMs)
      invariant tempFiles == ChunkPaths(base, |chunks|) && offsets == Offsets(chunks)
      invariant fs.Valid() && fs.locked == old(fs.locked) && fs.nextTemp == base + |chunks|
      invariant fs.files == before + ChunkFiles(base, chunks, 0, exportChunk)
      decreases len - start
    {
      chunks, tempFiles, offsets := ScheduleNext(fs, base, before, len, start, chunks, tempFiles, offsets, exportChunk);
      start := start + ChunkLengthMs;
    }
  }

  /** One turn of the first loop: the piece starting at `start` is exported and its task scheduled. */
  method ScheduleNext(fs: FileSystem, ghost base: nat, ghost before: map<Path, seq<byte>>, len: nat, start: nat,
                      chunks: seq<Window>, tempFiles: seq<Path>, offsets: seq<real>, exportChunk: Window -> seq<byte>)
    returns (chunks': seq<Window>, tempFiles': seq<Path>, offsets': seq<real>)
    requires start < len
    requires chunks + WindowsFrom(start, len, ChunkLengthMs) == Windows(len, ChunkLengthMs)
    requires tempFiles == ChunkPaths(base, |chunks|) && offsets == Offsets(chunks)
    requires fs.Valid() && fs.nextTemp == base + |chunks|
    requires fs.files == before + ChunkFiles(base, chunks, 0, exportChunk)
    modifies fs
    ensures chunks' + WindowsFrom(start + ChunkLengthMs, len, ChunkLengthMs) == Windows(len, ChunkLengthMs)
    ensures tempFiles' == ChunkPaths(base, |chunks'|) && offsets' == Offsets(chunks')
    ensures fs.Valid() && fs.locked == old(fs.locked) && fs.nextTemp == base + |chunks'|
    ensures fs.files == before + ChunkFiles(base, chunks', 0, exportChunk)
  {
    var chunk := Window(start, Min(start + ChunkLengthMs, len));
    var tmp := ExportNext(fs, base, before, chunks, chunk, exportChunk);
    WindowsNext(chunks, start, len, ChunkLengthMs, Windows(len, ChunkLengthMs));
    tempFiles' := tempFiles + [tmp];
    offsets' := offsets + [start as real / 1000.0];
    chunks' := chunks + [chunk];
    assert chunks'[..|chunks|] == chunks;
  }

  /**
   * The second loop: await the pieces in order, yield their shifted segments,
   * stop at the first failure, and try to remove each awaited piece's file,
   * passing over a file that is missing or protected.
   */
  method AwaitChunks(fs: FileSystem, ghost base: nat, chunks: seq<Window>, tempFiles: seq<Path>, offsets: seq<real>,
                     transcribe: Window -> Result<seq<Segment>, Error>)
    returns (yielded: seq<Segment>, failure: Option<Error>)
    requires fs.Valid()
    requires tempFiles == ChunkPaths(base, |chunks|) && offsets == Offsets(chunks)
    modifies fs
    ensures fs.Valid() && fs.locked == old(fs.locked) && fs.nextTemp == old(fs.nextTemp)
    ensures var s := StitchPrefix(chunks, transcribe, |chunks|);
      && yielded == s.segments
      && failure == (if s.failedAt.Some? then Some(Error(RuntimeError, ChunkFailureMessage(s.failedAt.value + 1))) else None)
      && fs.files == old(fs.files) - (ChunkPathSet(base, Awaited(s, |chunks|)) - fs.locked)
  {
    yielded := [];
    failure := None;
    var i := 0;
    while i < |tempFiles|
      invariant i <= |chunks|
      invariant StitchPrefix(chunks, transcribe, i) == Stitched(yielded, None)
      invariant fs.Valid() && fs.locked == old(fs.locked) && fs.nextTemp == old(fs.nextTemp)
      invariant fs.files == old(fs.files) - (ChunkPathSet(base, i) - fs.locked)
    {
      var result := transcribe(chunks[i]);
      ChunkPathsIndex(base, |chunks|, i);
      ChunkPathNonEmpty(base + i);
      ChunkPathSetNext(base, i);
      RemovedNext(old(fs.files), ChunkPathSet(base, i), tempFiles[i], fs.locked);
      OffsetsIndex(chunks, i);
      StitchStep(chunks, transcribe, i);
      if result.Failure? {
        failure := Some(Error(RuntimeError, ChunkFailureMessage(i + 1)));
        RemoveChunkFile(fs, tempFiles[i]);
        StitchStaysFailed(chunks, transcribe, i + 1, |chunks|);
        return;
      }
      yielded := yielded + ShiftAll(result.value, offsets[i]);
      RemoveChunkFile(fs, tempFiles[i]);
      i := i + 1;
    }
  }

  /**
   * The stream as a whole: the segments the consumer receives and the
   * exception it ends with are those of `StreamSpec`; every piece's file is
   * created, and the files of the awaited pieces are gone again at the end,
   * while the files of pieces after a failing one remain.
   */
  method LocalSpeechTranscriptionStream(fs: FileSystem, audioLength: Option<nat>, exportChunk: Window -> seq<byte>,
                                        transcribe: Window -> Result<seq<Segment>, Error>)
    returns (yielded: seq<Segment>, failure: Option<Error>)
    requires fs.Valid()
    modifies fs
    ensures fs.Valid() && fs.locked == old(fs.locked)
    ensures Outcome(yielded, failure) == StreamSpec(audioLength, transcribe)
    ensures audioLength.None? ==> fs.files == old(fs.files) && fs.nextTemp == old(fs.nextTemp)
    ensures audioLength.Some? ==>
      var ws := Windows(audioLength.value, ChunkLengthMs);
      && fs.nextTemp == old(fs.nextTemp) + |ws|
      && fs.files == old(fs.files)
                     + ChunkFiles(old(fs.nextTemp), ws, Awaited(StitchPrefix(ws, transcribe, |ws|), |ws|), exportChunk)
  {
    if audioLength.None? {
      return [], Some(Error(OSError, LoadFailureMessage));
    }
    ghost var base := fs.nextTemp;
    ghost var before := fs.files;
    var chunks, tempFiles, offsets := ScheduleChunks(fs, audioLength.value, exportChunk);
    ghost var scheduled := fs.files;
    yielded, failure := AwaitChunks(fs, base, chunks, tempFiles, offsets, transcribe);
    ghost var awaited := Awaited(StitchPrefix(chunks, transcribe, |chunks|), |chunks|);
    ChunkPathSetUnprotected(base, awaited, fs.locked);
    ChunkFilesRemoved(before, base, chunks, awaited, exportChunk);
  }
}
