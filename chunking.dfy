/**
 * How both transcription paths cut audio into consecutive pieces:
 * `for start_ms in range(0, len(audio), chunk_length_ms)` with the pydub
 * slice `audio[start_ms:start_ms + chunk_length_ms]`, which stops at the end
 * of the audio. Lengths and positions are milliseconds.
 */
module Chunking {
  import opened Files

  function Min(a: int, b: int): int { if a <= b then a else b }

  /** The number of pieces: the length divided by the piece size, rounded up. */
  function NumChunks(len: nat, size: nat): nat
    requires size > 0
  {
    (len + size - 1) / size
  }

  /** One piece of audio: milliseconds `start` (inclusive) to `end` (exclusive). */
  datatype Window = Window(start: nat, end: nat)

  /**
   * The pieces from position `start` on: one per value of
   * `range(start, len, size)`, each slice clipped at the end of the audio.
   */
  function WindowsFrom(start: nat, len: nat, size: nat): seq<Window>
    requires size > 0
    decreases if start < len then len - start else 0
  {
    if start >= len then [] else [Window(start, Min(start + size, len))] + WindowsFrom(start + size, len, size)
  }

  /** The pieces the loop visits, in order. */
  function Windows(len: nat, size: nat): seq<Window>
    requires size > 0
  {
    WindowsFrom(0, len, size)
  }

  /** Taking the next piece off the pieces still to visit. */
  lemma WindowsNext(done: seq<Window>, start: nat, len: nat, size: nat, ws: seq<Window>)
    requires size > 0 && start < len
    requires done + WindowsFrom(start, len, size) == ws
    ensures |done| < |ws| && ws[|done|] == Window(start, Min(start + size, len))
    ensures (done + [ws[|done|]]) + WindowsFrom(start + size, len, size) == ws
  {
    var w := Window(start, Min(start + size, len));
    assert WindowsFrom(start, len, size) == [w] + WindowsFrom(start + size, len, size);
    assert done + ([w] + WindowsFrom(start + size, len, size)) == (done + [w]) + WindowsFrom(start + size, len, size);
  }

  lemma DivStep(d: nat, step: nat)
    requires step > 0 && d > 0
    ensures (d + step - 1) / step == 1 + (if d > step then (d - step + step - 1) / step else 0)
  {
    if d > step {
      var x := d - 1;
      var q := x / step;
      assert x == q * step + x % step;
      assert (q + 1) * step == q * step + step;
      DivUnique(x + step, step, q + 1);
      assert d - step + step - 1 == x;
    } else {
      DivUnique(d + step - 1, step, 1);
    }
  }

  /** The pieces from `start` on number `ceil((len - start) / size)`; the k-th starts at `start + k * size`. */
  lemma {:induction false} WindowsFromShape(start: nat, len: nat, size: nat)
    requires size > 0
    ensures |WindowsFrom(start, len, size)| == if start < len then (len - start + size - 1) / size else 0
    ensures forall k :: 0 <= k < |WindowsFrom(start, len, size)| ==>
      WindowsFrom(start, len, size)[k] == Window(start + k * size, Min(start + k * size + size, len))
    decreases if start < len then len - start else 0
  {
    if start < len {
      WindowsFromShape(start + size, len, size);
      DivStep(len - start, size);
      var r := WindowsFrom(start, len, size);
      forall k | 0 <= k < |r| ensures r[k] == Window(start + k * size, Min(start + k * size + size, len)) {
        if k > 0 {
          assert r[k] == WindowsFrom(start + size, len, size)[k - 1];
          assert start + size + (k - 1) * size == start + k * size;
        }
      }
    }
  }

  /** The k-th piece starts at `k * size` exactly when that position lies inside the audio. */
  lemma BelowNumChunks(len: nat, size: nat, k: nat)
    requires size > 0
    ensures k < NumChunks(len, size) <==> k * size < len
  {
    var n := NumChunks(len, size);
    var t := len + size - 1;
    assert t == n * size + t % size;
    assert n * size <= t;
    assert t < n * size + size;
    if k < n {
      MulLe(k + 1, n, size);
      assert (k + 1) * size == k * size + size;
    } else {
      MulLe(n, k, size);
    }
  }

  /** Facts about the k-th piece of `Windows`. */
  lemma WindowAt(len: nat, size: nat, k: nat)
    requires size > 0
    ensures |Windows(len, size)| == NumChunks(len, size)
    ensures k < |Windows(len, size)| <==> k * size < len
    ensures k < |Windows(len, size)| ==> Windows(len, size)[k] == Window(k * size, Min(k * size + size, len))
  {
    WindowsFromShape(0, len, size);
    BelowNumChunks(len, size, k);
    if len == 0 {
      assert NumChunks(len, size) == 0;
    }
  }

  /**
   * The pieces tile the audio: none is empty or longer than `size`, each
   * starts where the previous ended, the first starts at 0, the last ends at
   * the audio's length, and all but the last are exactly `size` long.
   */
  lemma WindowsTile(len: nat, size: nat)
    requires size > 0
    ensures var ws := Windows(len, size);
      && |ws| == NumChunks(len, size)
      && (|ws| == 0 <==> len == 0)
      && (forall k :: 0 <= k < |ws| ==> ws[k].start < ws[k].end <= len && ws[k].end - ws[k].start <= size)
      && (forall k :: 0 <= k < |ws| - 1 ==> ws[k].end == ws[k + 1].start && ws[k].end - ws[k].start == size)
      && (len > 0 ==> ws[0].start == 0 && ws[|ws| - 1].end == len)
  {
    var ws := Windows(len, size);
    WindowAt(len, size, 0);
    forall k | 0 <= k < |ws|
      ensures ws[k].start < ws[k].end <= len && ws[k].end - ws[k].start <= size
    {
      WindowAt(len, size, k);
    }
    forall k | 0 <= k < |ws| - 1
      ensures ws[k].end == ws[k + 1].start && ws[k].end - ws[k].start == size
    {
      WindowAt(len, size, k);
      WindowAt(len, size, k + 1);
      assert (k + 1) * size == k * size + size;
    }
    if len > 0 {
      var n := |ws|;
      WindowAt(len, size, n - 1);
      WindowAt(len, size, n);
      assert n * size == (n - 1) * size + size;
    }
  }

  lemma MulLe(a: nat, b: nat, c: nat)
    requires a <= b
    ensures a * c <= b * c
  {
    assert b * c == a * c + (b - a) * c;
  }

  lemma DivUnique(t: nat, size: nat, j: nat)
    requires size > 0 && j * size <= t < j * size + size
    ensures j == t / size
  {
    var q := t / size;
    assert t == q * size + t % size;
    if j < q {
      MulLe(j + 1, q, size);
      assert false;
    } else if j > q {
      MulLe(q + 1, j, size);
      assert false;
    }
  }

  /** Every millisecond of the audio lies in exactly one piece. */
  lemma ChunkOf(len: nat, size: nat, t: nat) returns (k: nat)
    requires size > 0 && t < len
    ensures k < |Windows(len, size)| && Windows(len, size)[k].start <= t < Windows(len, size)[k].end
    ensures forall j :: 0 <= j < |Windows(len, size)| && Windows(len, size)[j].start <= t < Windows(len, size)[j].end ==> j == k
  {
    k := t / size;
    assert k * size <= t < k * size + size by {
      assert t == k * size + t % size;
    }
    WindowAt(len, size, k);
    var ws := Windows(len, size);
    forall j | 0 <= j < |ws| && ws[j].start <= t < ws[j].end
      ensures j == k
    {
      WindowAt(len, size, j);
      DivUnique(t, size, j);
    }
  }

  /** The temporary `.wav` file of a piece. */
  function ChunkPath(id: nat): Path {
    Temp(id, "tmp", ".wav")
  }

  /** The names of the temporary files of the first `n` pieces. */
  function ChunkPaths(base: nat, n: nat): (r: seq<Path>)
    ensures |r| == n
  {
    if n == 0 then [] else ChunkPaths(base, n - 1) + [ChunkPath(base + n - 1)]
  }

  lemma {:induction false} ChunkPathsIndex(base: nat, n: nat, k: nat)
    requires k < n
    ensures ChunkPaths(base, n)[k] == ChunkPath(base + k)
  {
    if k < n - 1 {
      ChunkPathsIndex(base, n - 1, k);
    } else if n > 1 {
      ChunkPathsIndex(base, n - 1, 0);
    }
  }

  /** The temporary files of pieces `from` to `to - 1`, the first piece's file being number `base`. */
  function ChunkFiles(base: nat, ws: seq<Window>, from: nat, exportChunk: Window -> seq<byte>): map<Path, seq<byte>>
    decreases if from < |ws| then |ws| - from else 0
  {
    if from >= |ws| then map[]
    else ChunkFiles(base, ws, from + 1, exportChunk)[ChunkPath(base + from) := exportChunk(ws[from])]
  }

  predicate IsChunkPath(p: Path, base: nat, from: nat, to: nat) {
    p.Temp? && p.prefix == "tmp" && p.suffix == ".wav" && base + from <= p.id < base + to
  }

  lemma {:induction false} ChunkFilesIn(base: nat, ws: seq<Window>, from: nat, exportChunk: Window -> seq<byte>, p: Path)
    ensures p in ChunkFiles(base, ws, from, exportChunk) <==> IsChunkPath(p, base, from, |ws|)
    ensures IsChunkPath(p, base, from, |ws|) ==> ChunkFiles(base, ws, from, exportChunk)[p] == exportChunk(ws[p.id - base])
    decreases if from < |ws| then |ws| - from else 0
  {
    if from < |ws| {
      ChunkFilesIn(base, ws, from + 1, exportChunk, p);
    }
  }

  lemma ChunkFilesAdd(m: map<Path, seq<byte>>, base: nat, ws: seq<Window>, w: Window, exportChunk: Window -> seq<byte>)
    ensures (m + ChunkFiles(base, ws, 0, exportChunk))[ChunkPath(base + |ws|) := exportChunk(w)]
         == m + ChunkFiles(base, ws + [w], 0, exportChunk)
  {
    var lhs := (m + ChunkFiles(base, ws, 0, exportChunk))[ChunkPath(base + |ws|) := exportChunk(w)];
    var rhs := m + ChunkFiles(base, ws + [w], 0, exportChunk);
    forall p ensures (p in lhs <==> p in rhs) && (p in lhs ==> lhs[p] == rhs[p]) {
      ChunkFilesIn(base, ws, 0, exportChunk, p);
      ChunkFilesIn(base, ws + [w], 0, exportChunk, p);
      if IsChunkPath(p, base, 0, |ws|) {
        assert (ws + [w])[p.id - base] == ws[p.id - base];
      }
    }
    assert lhs == rhs;
  }

  lemma ChunkFilesDrop(m: map<Path, seq<byte>>, base: nat, ws: seq<Window>, i: nat, exportChunk: Window -> seq<byte>)
    requires i < |ws|
    requires forall p | p in m :: p.Temp? ==> p.id < base
    ensures ChunkPath(base + i) in m + ChunkFiles(base, ws, i, exportChunk)
    ensures (m + ChunkFiles(base, ws, i, exportChunk)) - {ChunkPath(base + i)}
         == m + ChunkFiles(base, ws, i + 1, exportChunk)
  {
    var lhs := (m + ChunkFiles(base, ws, i, exportChunk)) - {ChunkPath(base + i)};
    var rhs := m + ChunkFiles(base, ws, i + 1, exportChunk);
    ChunkFilesIn(base, ws, i, exportChunk, ChunkPath(base + i));
    forall p ensures (p in lhs <==> p in rhs) && (p in lhs ==> lhs[p] == rhs[p]) {
      ChunkFilesIn(base, ws, i, exportChunk, p);
      ChunkFilesIn(base, ws, i + 1, exportChunk, p);
    }
    assert lhs == rhs;
  }

  /** `with NamedTemporaryFile(delete=False, suffix=".wav") as tmp: chunk.export(tmp.name)`. */
  method ExportChunk(fs: FileSystem, chunk: Window, exportChunk: Window -> seq<byte>) returns (tmp: Path)
    requires fs.Valid()
    modifies fs
    ensures fs.Valid() && fs.locked == old(fs.locked) && fs.nextTemp == old(fs.nextTemp) + 1
    ensures tmp == ChunkPath(old(fs.nextTemp))
    ensures fs.files == old(fs.files)[tmp := exportChunk(chunk)]
  {
    tmp := fs.CreateTemp("tmp", ".wav");
    fs.Write(tmp, exportChunk(chunk));
  }

  /** Export the next piece, keeping the files equal to the earlier ones plus one file per piece so far. */
  method ExportNext(fs: FileSystem, ghost base: nat, ghost before: map<Path, seq<byte>>, ghost done: seq<Window>,
                    chunk: Window, exportChunk: Window -> seq<byte>) returns (tmp: Path)
    requires fs.Valid() && fs.nextTemp == base + |done|
    requires fs.files == before + ChunkFiles(base, done, 0, exportChunk)
    modifies fs
    ensures fs.Valid() && fs.locked == old(fs.locked) && fs.nextTemp == base + |done| + 1
    ensures tmp == ChunkPath(base + |done|)
    ensures fs.files == before + ChunkFiles(base, done + [chunk], 0, exportChunk)
  {
    tmp := ExportChunk(fs, chunk, exportChunk);
    ChunkFilesAdd(before, base, done, chunk, exportChunk);
  }

  /**
   * `if path: try: os.remove(path) except OSError: pass` for a piece's file:
   * the file goes when the path is non-empty and not protected, and a path
   * that is missing or protected is left as it is.
   */
  method RemoveChunkFile(fs: FileSystem, tmp: Path)
    requires fs.Valid()
    modifies fs
    ensures fs.Valid() && fs.locked == old(fs.locked) && fs.nextTemp == old(fs.nextTemp)
    ensures fs.files == if PathText(tmp) != "" && tmp !in fs.locked then old(fs.files) - {tmp} else old(fs.files)
  {
    if PathText(tmp) != "" {
      var _ := fs.Remove(tmp);
    }
  }

  /** The paths a sequence of paths names. */
  function PathSet(paths: seq<Path>): set<Path> {
    set p | p in paths
  }

  lemma PathSetSnoc(paths: seq<Path>, p: Path)
    ensures PathSet(paths + [p]) == PathSet(paths) + {p}
  {
    assert forall q :: q in paths + [p] <==> q in paths || q == p;
  }

  /** The set of the first `n` pieces' temporary paths. */
  function ChunkPathSet(base: nat, n: nat): set<Path> {
    PathSet(ChunkPaths(base, n))
  }

  lemma ChunkPathSetIn(base: nat, n: nat, p: Path)
    ensures p in ChunkPathSet(base, n) <==> IsChunkPath(p, base, 0, n)
  {
    if p in ChunkPathSet(base, n) {
      var k :| 0 <= k < n && ChunkPaths(base, n)[k] == p;
      ChunkPathsIndex(base, n, k);
    }
    if IsChunkPath(p, base, 0, n) {
      ChunkPathsIndex(base, n, p.id - base);
    }
  }

  lemma ChunkPathSetNext(base: nat, n: nat)
    ensures ChunkPathSet(base, n + 1) == ChunkPathSet(base, n) + {ChunkPath(base + n)}
  {
    PathSetSnoc(ChunkPaths(base, n), ChunkPath(base + n));
  }

  /** A piece's temporary path is never empty, so the `if path:` guard always lets its removal through. */
  lemma ChunkPathNonEmpty(id: nat)
    ensures PathText(ChunkPath(id)) != ""
  {
    assert PathText(ChunkPath(id))[0] == '/';
  }

  /**
   * Removing the paths of a set `done` not in `locked`, then one path more,
   * is removing the paths of `done` plus that one not in `locked`.
   */
  lemma RemovedNext(m: map<Path, seq<byte>>, done: set<Path>, t: Path, locked: set<Path>)
    ensures (if t !in locked then (m - (done - locked)) - {t} else m - (done - locked)) == m - ((done + {t}) - locked)
  {
    if t in locked {
      assert (done + {t}) - locked == done - locked;
    } else {
      assert (done + {t}) - locked == (done - locked) + {t};
    }
  }

  /**
   * Once the first `k` pieces' files are removed, the files that remain are
   * the other files and those of pieces `k` onwards.
   */
  lemma ChunkFilesRemoved(m: map<Path, seq<byte>>, base: nat, ws: seq<Window>, k: nat, exportChunk: Window -> seq<byte>)
    requires k <= |ws|
    requires forall p | p in m :: p.Temp? ==> p.id < base
    ensures (m + ChunkFiles(base, ws, 0, exportChunk)) - ChunkPathSet(base, k) == m + ChunkFiles(base, ws, k, exportChunk)
  {
    var lhs := (m + ChunkFiles(base, ws, 0, exportChunk)) - ChunkPathSet(base, k);
    var rhs := m + ChunkFiles(base, ws, k, exportChunk);
    forall p ensures (p in lhs <==> p in rhs) && (p in lhs ==> lhs[p] == rhs[p]) {
      ChunkPathSetIn(base, k, p);
      ChunkFilesIn(base, ws, 0, exportChunk, p);
      ChunkFilesIn(base, ws, k, exportChunk, p);
    }
    assert lhs == rhs;
  }

  /** Paths protected before the first piece's file was drawn do not touch the pieces' files. */
  lemma ChunkPathSetUnprotected(base: nat, k: nat, locked: set<Path>)
    requires forall p | p in locked :: p.Temp? ==> p.id < base
    ensures ChunkPathSet(base, k) - locked == ChunkPathSet(base, k)
  {
    forall p | p in ChunkPathSet(base, k) ensures p !in locked {
      ChunkPathSetIn(base, k, p);
    }
  }
}
