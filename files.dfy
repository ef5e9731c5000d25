/**
 * The local file system as the services see it: a map from paths to bytes,
 * a set of paths the process may not delete, and the counter that makes
 * every `tempfile.NamedTemporaryFile` name fresh.
 */
module Files {
  import Decimal

  type byte = b: int | 0 <= b < 256

  /**
   * A path is either one the caller named, or one `tempfile` generated: the
   * generated part of the name is the counter value, so two temporary files
   * never share a name.
   */
  datatype Path = Named(text: string) | Temp(id: nat, prefix: string, suffix: string)

  const TempDir: string := "/tmp"

  /** The path as the string handed to `os` and to external tools. */
  function PathText(p: Path): string {
    match p
    case Named(t) => t
    case Temp(id, prefix, suffix) => TempDir + "/" + prefix + Decimal.NatToString(id) + suffix
  }

  class FileSystem {
    var files: map<Path, seq<byte>>
    var locked: set<Path>
    var nextTemp: nat

    /** No temporary name at or beyond the counter exists or is protected yet. */
    ghost predicate Valid()
      reads this
    {
      (forall p | p in files :: p.Temp? ==> p.id < nextTemp) &&
      (forall p | p in locked :: p.Temp? ==> p.id < nextTemp)
    }

    constructor (initial: map<Path, seq<byte>>, protected: set<Path>)
      requires forall p | p in initial :: p.Named?
      requires forall p | p in protected :: p.Named?
      ensures Valid()
      ensures files == initial && locked == protected && nextTemp == 0
    {
      files := initial;
      locked := protected;
      nextTemp := 0;
    }

    /** `os.path.exists`. */
    predicate Exists(p: Path)
      reads this
    {
      p in files
    }

    /** `tempfile.NamedTemporaryFile(delete=False, prefix=…, suffix=…)`: a new, empty file. */
    method CreateTemp(prefix: string, suffix: string) returns (p: Path)
      requires Valid()
      modifies this
      ensures Valid()
      ensures p == Temp(old(nextTemp), prefix, suffix) && p !in old(files) && p !in locked
      ensures files == old(files)[p := []]
      ensures locked == old(locked) && nextTemp == old(nextTemp) + 1
    {
      p := Temp(nextTemp, prefix, suffix);
      files := files[p := []];
      nextTemp := nextTemp + 1;
    }

    /** `open(p, "wb").write(content)`: creates or overwrites. */
    method Write(p: Path, content: seq<byte>)
      requires Valid() && (p.Temp? ==> p.id < nextTemp)
      modifies this
      ensures Valid()
      ensures files == old(files)[p := content]
      ensures locked == old(locked) && nextTemp == old(nextTemp)
    {
      files := files[p := content];
    }

    /** `os.remove` / `os.unlink`: fails, with `OSError`, when the path is missing or protected. */
    method Remove(p: Path) returns (ok: bool)
      requires Valid()
      modifies this
      ensures Valid()
      ensures ok == (p in old(files) && p !in locked)
      ensures files == if ok then old(files) - {p} else old(files)
      ensures locked == old(locked) && nextTemp == old(nextTemp)
    {
      ok := p in files && p !in locked;
      if ok {
        files := files - {p};
      }
    }
  }
}
