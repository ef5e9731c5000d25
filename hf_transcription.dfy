/**
 * AudioScribe's Hugging Face path, `hf_transcript`: check the token, load
 * the audio, cut it into pieces of `HF_CHUNK_LENGTH_SECONDS`, export each at
 * 16 kHz to a temporary `.wav` file, send it to the inference API, join the
 * texts with single spaces, and remove every temporary file at the end
 * whatever happened.
 *
 * The token, the loaded length (`None` when pydub fails), the setting, what
 * the export of a piece writes or raises, and the API's reply for a piece
 * are parameters.
 */
module HfTranscription {
  import opened Wrappers
  import opened Errors
  import opened Files
  import opened Chunking
  import opened Text

  const HfFrameRate: nat := 16000

  const TokenMissingMessage: string := "HF_TOKEN environment variable not set!"
  const LoadFailureMessage: string := "Failed to load audio file for chunking. It may be corrupt or an unsupported format."
  const ChunkApiFailureMessage: string := "Hugging Face API failed to process an audio chunk."
  const UnexpectedMessage: string := "An unexpected error occurred during Hugging Face transcription."

  /** What `client.automatic_speech_recognition` does for a piece: return a result (with or without "text") or raise. */
  datatype AsrReply = Transcribed(text: Option<string>) | Raised(error: Error)

  /**
   * `_transcribe_single_chunk`: the reply's "text", or "" when it has none;
   * an HTTP error of the hub becomes a `ValueError`, anything else raised
   * passes through.
   */
  function TranscribeSingleChunk(reply: AsrReply): (r: Result<string, Error>)
    ensures r.Success? <==> reply.Transcribed?
    ensures r.Success? ==> r.value == reply.text.GetOr("")
    ensures r.Failure? ==> r.error.kind != HfHubHttpError
    ensures r.Failure? && reply.error.kind != HfHubHttpError ==> r.error == reply.error
  {
    match reply
    case Transcribed(t) => Success(t.GetOr(""))
    case Raised(e) =>
      if e.kind == HfHubHttpError then Failure(Error(ValueError, ChunkApiFailureMessage)) else Failure(e)
  }

  /** The `except` clauses around the loop: `ValueError` and `OSError` propagate, anything else becomes a `RuntimeError`. */
  function Reraise(e: Error): (r: Error)
    ensures r.kind == ValueError || IsOSError(r.kind) || r.kind == RuntimeError
    ensures (e.kind == ValueError || IsOSError(e.kind)) ==> r == e
  {
    if e.kind == ValueError || IsOSError(e.kind) then e else Error(RuntimeError, UnexpectedMessage)
  }

  /**
   * What `chunk.set_frame_rate(16000)` and `chunk.export(...)` do for a
   * piece: write the piece's bytes, or raise.
   */
  type Exporter = Window -> Result<seq<byte>, Error>

  /**
   * The bytes a piece's temporary file holds once its export is over: the
   * export, or the empty file `NamedTemporaryFile` created when the export
   * raised.
   */
  function Written(exportChunk: Exporter): Window -> seq<byte> {
    w => if exportChunk(w).Success? then exportChunk(w).value else []
  }

  /** The texts collected from the first pieces and the error that ended the loop, if one did. */
  datatype Collected = Collected(texts: seq<string>, failure: Option<Error>)

  /**
   * After `i` pieces: each piece is exported and, when that works, sent;
   * the first export or call that raises ends the loop with its error.
   */
  function CollectPrefix(ws: seq<Window>, exportChunk: Exporter, api: Window -> AsrReply, i: nat): (c: Collected)
    requires i <= |ws|
    ensures c.failure.None? ==> |c.texts| == i
    ensures c.failure.Some? ==> |c.texts| < i
  {
    if i == 0 then Collected([], None)
    else
      var prev := CollectPrefix(ws, exportChunk, api, i - 1);
      if prev.failure.Some? then prev
      else if exportChunk(ws[i - 1]).Failure? then Collected(prev.texts, Some(exportChunk(ws[i - 1]).error))
      else match TranscribeSingleChunk(api(ws[i - 1]))
        case Success(t) => Collected(prev.texts + [t], None)
        case Failure(e) => Collected(prev.texts, Some(e))
  }

  /** The pieces given a temporary file: all of them, or up to and including the one that failed. */
  function Attempted(c: Collected, n: nat): nat {
    if c.failure.Some? then |c.texts| + 1 else n
  }

  /** The loop ended because the export of the next piece raised, before its file was appended to `temp_files`. */
  predicate ExportFailed(ws: seq<Window>, exportChunk: Exporter, c: Collected) {
    c.failure.Some? && |c.texts| < |ws| && exportChunk(ws[|c.texts|]).Failure?
  }

  /** The pieces recorded in `temp_files`, which are also the pieces sent to the API. */
  function Recorded(ws: seq<Window>, exportChunk: Exporter, c: Collected, n: nat): nat {
    if ExportFailed(ws, exportChunk, c) then |c.texts| else Attempted(c, n)
  }

  /** The job goes as far as the piece loop with its pieces of `chunkSeconds` seconds. */
  predicate Proceeds(token: Option<string>, audioLength: Option<nat>, chunkSeconds: int) {
    token.Some? && token.value != "" && audioLength.Some? && chunkSeconds > 0
  }

  /**
   * The result of `hf_transcript`, step by step as the source checks. A zero
   * setting makes `len(audio) // 0` raise, which the catch-all turns into a
   * `RuntimeError`; a negative one makes `range` empty, so the text is "".
   */
  function HfSpec(token: Option<string>, audioLength: Option<nat>, chunkSeconds: int,
                  exportChunk: Exporter, api: Window -> AsrReply): Result<string, Error> {
    if token.None? || token.value == "" then Failure(Error(ValueError, TokenMissingMessage))
    else if audioLength.None? then Failure(Error(OSError, LoadFailureMessage))
    else if chunkSeconds == 0 then Failure(Error(RuntimeError, UnexpectedMessage))
    else if chunkSeconds < 0 then Success("")
    else
      var ws := Windows(audioLength.value, chunkSeconds * 1000);
      var c := CollectPrefix(ws, exportChunk, api, |ws|);
      if c.failure.Some? then Failure(Reraise(c.failure.value)) else Success(Join(c.texts, " "))
  }

  lemma {:induction false} CollectMeaning(ws: seq<Window>, exportChunk: Exporter, api: Window -> AsrReply, i: nat)
    requires i <= |ws|
    ensures var c := CollectPrefix(ws, exportChunk, api, i);
      var m := |c.texts|;
      && m <= i
      && (c.failure.None? ==> m == i)
      && (forall k :: 0 <= k < m ==>
            exportChunk(ws[k]).Success? && api(ws[k]).Transcribed? && c.texts[k] == api(ws[k]).text.GetOr(""))
      && (c.failure.Some? ==>
            && m < i
            && (exportChunk(ws[m]).Failure? ==> c.failure == Some(exportChunk(ws[m]).error))
            && (exportChunk(ws[m]).Success? ==>
                  api(ws[m]).Raised? && c.failure == Some(TranscribeSingleChunk(api(ws[m])).error)))
  {
    if i > 0 {
      CollectMeaning(ws, exportChunk, api, i - 1);
    }
  }

  /** Exporting and sending one more piece after `i` successful ones. */
  lemma CollectStep(ws: seq<Window>, exportChunk: Exporter, api: Window -> AsrReply, i: nat)
    requires i < |ws| && CollectPrefix(ws, exportChunk, api, i).failure.None?
    ensures var prev := CollectPrefix(ws, exportChunk, api, i).texts;
      var reply := TranscribeSingleChunk(api(ws[i]));
      && (exportChunk(ws[i]).Failure? ==>
            CollectPrefix(ws, exportChunk, api, i + 1) == Collected(prev, Some(exportChunk(ws[i]).error)))
      && (exportChunk(ws[i]).Success? && reply.Success? ==>
            CollectPrefix(ws, exportChunk, api, i + 1) == Collected(prev + [reply.value], None))
      && (exportChunk(ws[i]).Success? && reply.Failure? ==>
            CollectPrefix(ws, exportChunk, api, i + 1) == Collected(prev, Some(reply.error)))
  {
  }

  lemma {:induction false} CollectStaysFailed(ws: seq<Window>, exportChunk: Exporter, api: Window -> AsrReply, i: nat, j: nat)
    requires i <= j <= |ws|
    requires CollectPrefix(ws, exportChunk, api, i).failure.Some?
    ensures CollectPrefix(ws, exportChunk, api, j) == CollectPrefix(ws, exportChunk, api, i)
    decreases j
  {
    if j > i {
      CollectStaysFailed(ws, exportChunk, api, i, j - 1);
    }
  }

  /**
   * The transcription succeeds exactly when the token is set, the audio
   * loads, the setting is non-zero and, when it is positive, every piece is
   * exported and gets a reply; the text is then the pieces' texts in order,
   * joined by single spaces, or "" for a negative setting.
   */
  lemma HfSuccessIff(token: Option<string>, audioLength: Option<nat>, chunkSeconds: int,
                     exportChunk: Exporter, api: Window -> AsrReply)
    ensures var r := HfSpec(token, audioLength, chunkSeconds, exportChunk, api);
      r.Success? <==>
        && token.Some? && token.value != ""
        && audioLength.Some? && chunkSeconds != 0
        && (chunkSeconds > 0 ==>
             forall k :: 0 <= k < |Windows(audioLength.value, chunkSeconds * 1000)| ==>
               var w := Windows(audioLength.value, chunkSeconds * 1000)[k];
               exportChunk(w).Success? && api(w).Transcribed?)
    ensures var r := HfSpec(token, audioLength, chunkSeconds, exportChunk, api);
      r.Success? && chunkSeconds < 0 ==> r.value == ""
    ensures var r := HfSpec(token, audioLength, chunkSeconds, exportChunk, api);
      r.Success? && chunkSeconds > 0 ==>
        var ws := Windows(audioLength.value, chunkSeconds * 1000);
        r.value == Join(seq(|ws|, k requires 0 <= k < |ws| => api(ws[k]).text.GetOr("")), " ")
  {
    if Proceeds(token, audioLength, chunkSeconds) {
      var ws := Windows(audioLength.value, chunkSeconds * 1000);
      CollectMeaning(ws, exportChunk, api, |ws|);
      var c := CollectPrefix(ws, exportChunk, api, |ws|);
      if c.failure.None? {
        assert c.texts == seq(|ws|, k requires 0 <= k < |ws| => api(ws[k]).text.GetOr(""));
      }
    }
  }

  /**
   * Whatever goes wrong surfaces as a `ValueError`, an `OSError` or a
   * `RuntimeError`; the hub's own HTTP error never surfaces from a call to
   * the API, only from an export that raised it.
   */
  lemma HfErrorKinds(token: Option<string>, audioLength: Option<nat>, chunkSeconds: int,
                     exportChunk: Exporter, api: Window -> AsrReply)
    ensures var r := HfSpec(token, audioLength, chunkSeconds, exportChunk, api);
      r.Failure? ==> r.error.kind == ValueError || IsOSError(r.error.kind) || r.error.kind == RuntimeError
    ensures var r := HfSpec(token, audioLength, chunkSeconds, exportChunk, api);
      r.Failure? && r.error.kind == HfHubHttpError ==>
        && Proceeds(token, audioLength, chunkSeconds)
        && var ws := Windows(audioLength.value, chunkSeconds * 1000);
           ExportFailed(ws, exportChunk, CollectPrefix(ws, exportChunk, api, |ws|))
  {
    if Proceeds(token, audioLength, chunkSeconds) {
      var ws := Windows(audioLength.value, chunkSeconds * 1000);
      CollectMeaning(ws, exportChunk, api, |ws|);
    }
  }

  /** Python's `//`: the floor of the quotient, for either sign of the divisor. */
  function FloorDiv(a: int, b: int): int
    requires b != 0
  {
    if b > 0 then a / b else (-a) / (-b)
  }

  /**
   * The number of pieces announced in the log, as written: one more than the
   * whole pieces, which overcounts whenever the piece size divides the length.
   */
  function LoggedChunkCount(len: nat, chunkMs: int): int
    requires chunkMs != 0
  {
    FloorDiv(len, chunkMs) + 1
  }

  /** The announcement is off by one for 45 seconds of audio cut into 15-second pieces. */
  lemma LoggedChunkCountOverstates()
    ensures LoggedChunkCount(45000, 15000) == 4
    ensures |Windows(45000, 15000)| == 3
  {
    WindowAt(45000, 15000, 0);
  }

  /** The count the log evidently means: the number of pieces the loop visits. */
  function AnnouncedChunkCount(len: nat, chunkMs: nat): (r: nat)
    requires chunkMs > 0
    ensures r == |Windows(len, chunkMs)|
  {
    WindowAt(len, chunkMs, 0);
    NumChunks(len, chunkMs)
  }

  /** The as-written count agrees with the pieces visited exactly when the piece size does not divide the length. */
  lemma LoggedChunkCountIff(len: nat, chunkMs: nat)
    requires chunkMs > 0
    ensures LoggedChunkCount(len, chunkMs) == AnnouncedChunkCount(len, chunkMs) <==> len % chunkMs != 0
  {
    var q := len / chunkMs;
    var r := len % chunkMs;
    assert len == q * chunkMs + r;
    if r == 0 {
      DivUnique(len + chunkMs - 1, chunkMs, q);
    } else {
      assert (q + 1) * chunkMs == q * chunkMs + chunkMs;
      DivUnique(len + chunkMs - 1, chunkMs, q + 1);
    }
  }

  /**
   * The loop of `hf_transcript`: give each piece its own temporary file,
   * export it there and send it, until the pieces run out or an export or a
   * call raises. A file whose export raised exists but is not recorded.
   */
  method SendChunks(fs: FileSystem, len: nat, chunkMs: nat, exportChunk: Exporter, api: Window -> AsrReply)
    returns (texts: seq<string>, failure: Option<Error>, attempted: seq<Window>, tempFiles: seq<Path>)
    requires fs.Valid() && chunkMs > 0
    modifies fs
    ensures fs.Valid() && fs.locked == old(fs.locked)
    ensures var ws := Windows(len, chunkMs);
      var c := Collected(texts, failure);
      && CollectPrefix(ws, exportChunk, api, |ws|) == c
      && |attempted| == Attempted(c, |ws|) <= |ws|
      && attempted == ws[..|attempted|]
      && fs.files == old(fs.files) + ChunkFiles(old(fs.nextTemp), attempted, 0, Written(exportChunk))
      && tempFiles == ChunkPaths(old(fs.nextTemp), Recorded(ws, exportChunk, c, |ws|))
    ensures fs.nextTemp == old(fs.nextTemp) + |attempted|
  {
    ghost var ws := Windows(len, chunkMs);
    ghost var base := fs.nextTemp;
    ghost var before := fs.files;
    texts := [];
    tempFiles := [];
    attempted := [];
    failure := None;
    var start := 0;
    while start < len && failure.None?
      invariant attempted + WindowsFrom(start, len, chunkMs) == ws
      invariant CollectPrefix(ws, exportChunk, api, |attempted|) == Collected(texts, failure)
      invariant |attempted| == Attempted(Collected(texts, failure), |attempted|)
      invariant tempFiles == ChunkPaths(base, Recorded(ws, exportChunk, Collected(texts, failure), |attempted|))
      invariant fs.Valid() && fs.locked == old(fs.locked) && fs.nextTemp == base + |attempted|
      invariant fs.files == before + ChunkFiles(base, attempted, 0, Written(exportChunk))
      decreases len - start
    {
      texts, failure, attempted, tempFiles, start :=
        SendNext(fs, base, before, len, chunkMs, start, ws, texts, attempted, tempFiles, exportChunk, api);
    }
    if failure.None? {
      assert WindowsFrom(start, len, chunkMs) == [];
    }
    assert attempted == ws[..|attempted|];
    SendDone(ws, exportChunk, api, |attempted|, texts, failure);
  }

  /** When the loop stops, at the end or after a failure, the collection is complete. */
  lemma SendDone(ws: seq<Window>, exportChunk: Exporter, api: Window -> AsrReply, n: nat, texts: seq<string>, failure: Option<Error>)
    requires n <= |ws| && (failure.None? ==> n == |ws|)
    requires CollectPrefix(ws, exportChunk, api, n) == Collected(texts, failure)
    ensures CollectPrefix(ws, exportChunk, api, |ws|) == Collected(texts, failure)
    ensures Recorded(ws, exportChunk, Collected(texts, failure), n) == Recorded(ws, exportChunk, Collected(texts, failure), |ws|)
  {
    if failure.Some? {
      CollectStaysFailed(ws, exportChunk, api, n, |ws|);
    }
  }

  /**
   * `with NamedTemporaryFile(delete=False, suffix=".wav")` and the export
   * inside it: a fresh file that holds the piece, or stays empty when the
   * export raises.
   */
  method ExportForApi(fs: FileSystem, ghost base: nat, ghost before: map<Path, seq<byte>>, ghost done: seq<Window>,
                      chunk: Window, exportChunk: Exporter)
    returns (tmp: Path, exported: Result<seq<byte>, Error>)
    requires fs.Valid() && fs.nextTemp == base + |done|
    requires fs.files == before + ChunkFiles(base, done, 0, Written(exportChunk))
    modifies fs
    ensures fs.Valid() && fs.locked == old(fs.locked) && fs.nextTemp == base + |done| + 1
    ensures tmp == ChunkPath(base + |done|) && exported == exportChunk(chunk)
    ensures fs.files == before + ChunkFiles(base, done + [chunk], 0, Written(exportChunk))
  {
    tmp := fs.CreateTemp("tmp", ".wav");
    exported := exportChunk(chunk);
    if exported.Success? {
      fs.Write(tmp, exported.value);
    }
    assert fs.files == old(fs.files)[tmp := Written(exportChunk)(chunk)];
    ChunkFilesAdd(before, base, done, chunk, Written(exportChunk));
  }

  /** After one more piece, every piece so far was attempted, and it is recorded unless its export raised. */
  lemma RecordedStep(ws: seq<Window>, exportChunk: Exporter, api: Window -> AsrReply, i: nat)
    requires i < |ws| && CollectPrefix(ws, exportChunk, api, i).failure.None?
    ensures var c := CollectPrefix(ws, exportChunk, api, i + 1);
      && Attempted(c, i + 1) == i + 1
      && Recorded(ws, exportChunk, c, i + 1) == if exportChunk(ws[i]).Failure? then i else i + 1
  {
  }

  /**
   * One turn of the loop: draw a temporary file for the piece starting at
   * `start` and export the piece to it; when the export works, record the
   * file and send the piece.
   */
  method SendNext(fs: FileSystem, ghost base: nat, ghost before: map<Path, seq<byte>>, len: nat, chunkMs: nat, start: nat,
                  ghost ws: seq<Window>, texts: seq<string>, attempted: seq<Window>, tempFiles: seq<Path>,
                  exportChunk: Exporter, api: Window -> AsrReply)
    returns (texts': seq<string>, failure': Option<Error>, attempted': seq<Window>, tempFiles': seq<Path>, next: nat)
    requires chunkMs > 0 && start < len
    requires attempted + WindowsFrom(start, len, chunkMs) == ws
    requires tempFiles == ChunkPaths(base, |attempted|)
    requires CollectPrefix(ws, exportChunk, api, |attempted|) == Collected(texts, None)
    requires fs.Valid() && fs.nextTemp == base + |attempted|
    requires fs.files == before + ChunkFiles(base, attempted, 0, Written(exportChunk))
    modifies fs
    ensures next == start + chunkMs
    ensures attempted' + WindowsFrom(next, len, chunkMs) == ws
    ensures CollectPrefix(ws, exportChunk, api, |attempted'|) == Collected(texts', failure')
    ensures |attempted'| == Attempted(Collected(texts', failure'), |attempted'|)
    ensures tempFiles' == ChunkPaths(base, Recorded(ws, exportChunk, Collected(texts', failure'), |attempted'|))
    ensures fs.Valid() && fs.locked == old(fs.locked) && fs.nextTemp == base + |attempted'|
    ensures fs.files == before + ChunkFiles(base, attempted', 0, Written(exportChunk))
  {
    next := start + chunkMs;
    var chunk := Window(start, Min(next, len));
    WindowsNext(attempted, start, len, chunkMs, ws);
    var tmp, exported := ExportForApi(fs, base, before, attempted, chunk, exportChunk);
    attempted' := attempted + [chunk];
    assert attempted' == attempted + [ws[|attempted|]];
    CollectStep(ws, exportChunk, api, |attempted|);
    RecordedStep(ws, exportChunk, api, |attempted|);
    ghost var c := CollectPrefix(ws, exportChunk, api, |attempted'|);
    if exported.Failure? {
      texts', failure', tempFiles' := texts, Some(exported.error), tempFiles;
      assert c == Collected(texts', failure');
      assert Recorded(ws, exportChunk, c, |attempted'|) == |attempted|;
      return;
    }
    tempFiles' := tempFiles + [tmp];
    assert tempFiles' == ChunkPaths(base, |attempted| + 1);
    assert Recorded(ws, exportChunk, c, |attempted'|) == |attempted| + 1;
    var reply := TranscribeSingleChunk(api(chunk));
    if reply.Success? {
      texts' := texts + [reply.value];
      failure' := None;
    } else {
      texts' := texts;
      failure' := Some(reply.error);
    }
    assert c == Collected(texts', failure');
  }

  /**
   * The `finally` of `hf_transcript`: try to remove every recorded file, in
   * order, passing over the `OSError` of a file that is missing or
   * protected.
   */
  method RemoveTempFiles(fs: FileSystem, tempFiles: seq<Path>)
    requires fs.Valid()
    modifies fs
    ensures fs.Valid() && fs.locked == old(fs.locked) && fs.nextTemp == old(fs.nextTemp)
    ensures fs.files == old(fs.files) - (PathSet(tempFiles) - fs.locked)
  {
    var j := 0;
    while j < |tempFiles|
      invariant j <= |tempFiles|
      invariant fs.Valid() && fs.locked == old(fs.locked) && fs.nextTemp == old(fs.nextTemp)
      invariant fs.files == old(fs.files) - (PathSet(tempFiles[..j]) - fs.locked)
    {
      assert tempFiles[..j + 1] == tempFiles[..j] + [tempFiles[j]];
      PathSetSnoc(tempFiles[..j], tempFiles[j]);
      RemovedNext(old(fs.files), PathSet(tempFiles[..j]), tempFiles[j], fs.locked);
      var _ := fs.Remove(tempFiles[j]);
      j := j + 1;
    }
    assert tempFiles[..j] == tempFiles;
  }

  /** What stays of the pieces' files once the first `k` are removed: none, or the last one. */
  lemma LeftBehind(m: map<Path, seq<byte>>, base: nat, ws: seq<Window>, k: nat, written: Window -> seq<byte>)
    requires k == |ws| || k + 1 == |ws|
    ensures k == |ws| ==> m + ChunkFiles(base, ws, k, written) == m
    ensures k + 1 == |ws| ==> m + ChunkFiles(base, ws, k, written) == m[ChunkPath(base + k) := written(ws[k])]
  {
    assert ChunkFiles(base, ws, |ws|, written) == map[];
    if k + 1 == |ws| {
      assert ChunkFiles(base, ws, k, written) == map[ChunkPath(base + k) := written(ws[k])];
    }
  }

  /**
   * The piece loop and its `finally` together: the texts and error of the
   * collection, the pieces sent, and the files, which are the earlier ones
   * plus the empty file of a piece whose export raised.
   */
  method TranscribePieces(fs: FileSystem, len: nat, chunkMs: nat, exportChunk: Exporter, api: Window -> AsrReply)
    returns (texts: seq<string>, failure: Option<Error>, sent: seq<Window>)
    requires fs.Valid() && chunkMs > 0
    modifies fs
    ensures fs.Valid() && fs.locked == old(fs.locked)
    ensures var ws := Windows(len, chunkMs);
      var c := CollectPrefix(ws, exportChunk, api, |ws|);
      && c == Collected(texts, failure)
      && sent == ws[..Recorded(ws, exportChunk, c, |ws|)]
      && fs.nextTemp == old(fs.nextTemp) + Attempted(c, |ws|)
      && fs.files == if ExportFailed(ws, exportChunk, c) then old(fs.files)[ChunkPath(old(fs.nextTemp) + |sent|) := []]
                     else old(fs.files)
  {
    ghost var base := fs.nextTemp;
    ghost var before := fs.files;
    var attempted, tempFiles;
    texts, failure, attempted, tempFiles := SendChunks(fs, len, chunkMs, exportChunk, api);
    ghost var ws := Windows(len, chunkMs);
    sent := attempted[..|tempFiles|];
    FinallyRemove(fs, tempFiles, base, before, ws, attempted, exportChunk, api, Collected(texts, failure));
  }

  /** The `finally` after the loop, from the state the loop leaves. */
  method FinallyRemove(fs: FileSystem, tempFiles: seq<Path>, ghost base: nat, ghost before: map<Path, seq<byte>>,
                       ghost ws: seq<Window>, ghost attempted: seq<Window>, ghost exportChunk: Exporter,
                       ghost api: Window -> AsrReply, ghost c: Collected)
    requires fs.Valid()
    requires forall p | p in before :: p.Temp? ==> p.id < base
    requires forall p | p in fs.locked :: p.Temp? ==> p.id < base
    requires CollectPrefix(ws, exportChunk, api, |ws|) == c
    requires |attempted| == Attempted(c, |ws|) <= |ws| && attempted == ws[..|attempted|]
    requires fs.files == before + ChunkFiles(base, attempted, 0, Written(exportChunk))
    requires tempFiles == ChunkPaths(base, Recorded(ws, exportChunk, c, |ws|))
    modifies fs
    ensures fs.Valid() && fs.locked == old(fs.locked) && fs.nextTemp == old(fs.nextTemp)
    ensures fs.files == if ExportFailed(ws, exportChunk, c) then before[ChunkPath(base + |tempFiles|) := []] else before
  {
    ghost var k := Recorded(ws, exportChunk, c, |ws|);
    ghost var exported := fs.files;
    RemoveTempFiles(fs, tempFiles);
    assert fs.files == exported - (ChunkPathSet(base, k) - fs.locked);
    PiecesLeft(before, base, ws, attempted, exportChunk, api, c, fs.locked);
  }

  /** The files after the `finally`, given what the loop left. */
  lemma PiecesLeft(before: map<Path, seq<byte>>, base: nat, ws: seq<Window>, attempted: seq<Window>,
                   exportChunk: Exporter, api: Window -> AsrReply, c: Collected, locked: set<Path>)
    requires CollectPrefix(ws, exportChunk, api, |ws|) == c
    requires |attempted| == Attempted(c, |ws|) <= |ws| && attempted == ws[..|attempted|]
    requires forall p | p in before :: p.Temp? ==> p.id < base
    requires forall p | p in locked :: p.Temp? ==> p.id < base
    ensures var k := Recorded(ws, exportChunk, c, |ws|);
      var files := (before + ChunkFiles(base, attempted, 0, Written(exportChunk))) - (ChunkPathSet(base, k) - locked);
      && k <= |attempted|
      && files == if ExportFailed(ws, exportChunk, c) then before[ChunkPath(base + k) := []] else before
  {
    var k := Recorded(ws, exportChunk, c, |ws|);
    ChunkPathSetUnprotected(base, k, locked);
    ChunkFilesRemoved(before, base, attempted, k, Written(exportChunk));
    LeftBehind(before, base, attempted, k, Written(exportChunk));
    if ExportFailed(ws, exportChunk, c) {
      assert attempted[k] == ws[k];
    }
  }

  /**
   * `hf_transcript` with its temporary files: the result is `HfSpec`; the
   * API receives the pieces in order up to the first failure; the log
   * announces `len // L + 1` pieces; at the end no recorded temporary file
   * remains, and the only file left behind is the empty one of a piece whose
   * export raised.
   */
  method HfTranscript(fs: FileSystem, token: Option<string>, audioLength: Option<nat>, chunkSeconds: int,
                      exportChunk: Exporter, api: Window -> AsrReply)
    returns (r: Result<string, Error>, sent: seq<Window>, announced: Option<int>)
    requires fs.Valid()
    modifies fs
    ensures fs.Valid() && fs.locked == old(fs.locked)
    ensures r == HfSpec(token, audioLength, chunkSeconds, exportChunk, api)
    ensures Proceeds(token, audioLength, chunkSeconds) ==>
      var ws := Windows(audioLength.value, chunkSeconds * 1000);
      var c := CollectPrefix(ws, exportChunk, api, |ws|);
      && sent == ws[..Recorded(ws, exportChunk, c, |ws|)]
      && fs.nextTemp == old(fs.nextTemp) + Attempted(c, |ws|)
      && fs.files == if ExportFailed(ws, exportChunk, c) then old(fs.files)[ChunkPath(old(fs.nextTemp) + |sent|) := []]
                     else old(fs.files)
    ensures !Proceeds(token, audioLength, chunkSeconds) ==>
      sent == [] && fs.files == old(fs.files) && fs.nextTemp == old(fs.nextTemp)
    ensures announced.Some? <==> token.Some? && token.value != "" && audioLength.Some? && chunkSeconds != 0
    ensures announced.Some? ==> announced.value == LoggedChunkCount(audioLength.value, chunkSeconds * 1000)
  {
    sent := [];
    announced := None;
    if token.None? || token.value == "" {
      return Failure(Error(ValueError, TokenMissingMessage)), sent, announced;
    }
    if audioLength.None? {
      return Failure(Error(OSError, LoadFailureMessage)), sent, announced;
    }
    var len := audioLength.value;
    var chunkMs := chunkSeconds * 1000;
    if chunkMs == 0 {
      return Failure(Error(RuntimeError, UnexpectedMessage)), sent, announced;
    }
    announced := Some(LoggedChunkCount(len, chunkMs));
    if chunkMs < 0 {
      return Success(Join([], " ")), sent, announced;
    }
    var texts, failure;
    texts, failure, sent := TranscribePieces(fs, len, chunkMs, exportChunk, api);
    if failure.Some? {
      r := Failure(Reraise(failure.value));
    } else {
      r := Success(Join(texts, " "));
    }
  }
}
