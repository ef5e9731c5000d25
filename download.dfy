/**
 * AudioScribe's `download_to_temp_async`: fetch a `file:`, scheme-less,
 * `http:` or `https:` URI into a fresh temporary file. The URI is taken
 * apart as `urllib.parse.urlparse` does.
 */
module Download {
  import opened Wrappers
  import opened Text
  import opened Decimal
  import opened Errors
  import opened Files
  import ScribeFiles

  /** The components `urlparse` returns. */
  datatype Url = Url(scheme: string, netloc: string, path: string, params: string, query: string, fragment: string)

  predicate IsAsciiAlpha(c: char) { 'a' <= c <= 'z' || 'A' <= c <= 'Z' }

  /** `urllib.parse.scheme_chars`. */
  predicate SchemeChar(c: char) {
    IsAsciiAlpha(c) || '0' <= c <= '9' || c == '+' || c == '-' || c == '.'
  }

  /** A scheme `urlsplit` accepts: a letter, then scheme characters. */
  predicate ValidScheme(s: string) {
    s != [] && IsAsciiAlpha(s[0]) && forall k :: 0 <= k < |s| ==> SchemeChar(s[k])
  }

  /** `urllib.parse.uses_params`: the schemes whose last path segment may carry `;params`. */
  const UsesParams: set<string> :=
    {"", "ftp", "hdl", "prospero", "http", "imap", "https", "shttp", "rtsp", "rtsps", "rtspu",
     "sip", "sips", "mms", "sftp", "tel"}

  /** The text before the first `:` is the scheme when it is a valid one; it is lowercased. */
  function SplitScheme(url: string): (r: (string, string))
    ensures r.0 == "" ==> r.1 == url
    ensures r.0 != "" ==> exists i :: 0 < i < |url| && url[i] == ':' && ValidScheme(url[..i])
                                      && r.0 == Lower(url[..i]) && r.1 == url[i + 1..]
  {
    var i := IndexOf(url, ':');
    if i > 0 && ValidScheme(url[..i]) then (Lower(url[..i]), url[i + 1..]) else ("", url)
  }

  /** The characters that end a netloc. */
  predicate NetlocDelim(c: char) { c == '/' || c == '?' || c == '#' }

  /** The first position holding one of `/?#` (the end of a netloc), or the length. */
  function NetlocEnd(s: string): (r: nat)
    ensures r <= |s|
    ensures r < |s| ==> NetlocDelim(s[r])
    ensures forall k :: 0 <= k < r ==> !NetlocDelim(s[k])
  {
    if s == [] || NetlocDelim(s[0]) then 0 else 1 + NetlocEnd(s[1..])
  }

  /** `_splitnetloc(url, 2)` after a leading `//`; no `//`, no netloc. */
  function SplitNetloc(rest: string): (r: (string, string))
    ensures forall k :: 0 <= k < |r.0| ==> !NetlocDelim(r.0[k])
  {
    if |rest| >= 2 && rest[0] == '/' && rest[1] == '/' then
      var d := NetlocEnd(rest[2..]);
      (rest[2..2 + d], rest[2 + d..])
    else ("", rest)
  }

  /** `url.split(c, 1)` when `c in url`; otherwise the whole text and "". */
  function SplitOnce(s: string, c: char): (r: (string, string))
    ensures c !in r.0
    ensures c !in s ==> r == (s, "")
    ensures c in s ==> s == r.0 + [c] + r.1
  {
    var i := IndexOf(s, c);
    if i >= 0 then
      assert s == s[..i] + [c] + s[i + 1..];
      (s[..i], s[i + 1..])
    else (s, "")
  }

  /** `_splitparams`: `;` in the last path segment starts the parameters. */
  function SplitParams(url: string): (r: (string, string))
    requires ';' in url
    ensures |r.0| <= |url| && r.0 == url[..|r.0|]
  {
    var j := LastIndexOf(url, '/');
    if j >= 0 then
      var k := IndexOf(url[j..], ';');
      if k < 0 then (url, "") else (url[..j + k], url[j + k + 1..])
    else
      var i := IndexOf(url, ';');
      (url[..i], url[i + 1..])
  }

  function PathAndParams(scheme: string, path0: string): (r: (string, string))
    ensures ';' !in path0 ==> r == (path0, "")
    ensures |r.0| <= |path0| && r.0 == path0[..|r.0|]
  {
    if scheme in UsesParams && ';' in path0 then SplitParams(path0) else (path0, "")
  }

  const InvalidIpv6Message: string := "Invalid IPv6 URL"

  /**
   * `urlparse(url)`: scheme, `//netloc`, `#fragment`, `?query` and
   * `;params` are split off in that order; a netloc with an unbalanced
   * bracket is a `ValueError`.
   */
  function UrlParse(url: string): Result<Url, Error> {
    var (scheme, rest) := SplitScheme(url);
    var (netloc, rest1) := SplitNetloc(rest);
    if ('[' in netloc) != (']' in netloc) then Failure(Error(ValueError, InvalidIpv6Message))
    else
      var (rest2, fragment) := SplitOnce(rest1, '#');
      var (path0, query) := SplitOnce(rest2, '?');
      var (path, params) := PathAndParams(scheme, path0);
      Success(Url(scheme, netloc, path, params, query, fragment))
  }

  /** What `urlparse` guarantees about the parts it returns. */
  lemma UrlParseParts(url: string)
    ensures var r := UrlParse(url);
      r.Success? ==>
        && (forall k :: 0 <= k < |r.value.scheme| ==> !IsUpper(r.value.scheme[k]))
        && (forall k :: 0 <= k < |r.value.netloc| ==> !NetlocDelim(r.value.netloc[k]))
        && '?' !in r.value.path && '#' !in r.value.path && '#' !in r.value.query
  {
    var (scheme, rest) := SplitScheme(url);
    if scheme != "" {
      var i :| 0 < i < |url| && url[i] == ':' && ValidScheme(url[..i]) && scheme == Lower(url[..i]);
      LowerHasNoUpper(url[..i]);
    }
    var (netloc, rest1) := SplitNetloc(rest);
    var (rest2, fragment) := SplitOnce(rest1, '#');
    var (path0, query) := SplitOnce(rest2, '?');
    var (path, params) := PathAndParams(scheme, path0);
    NotInSplit(rest2, '?', '#');
    NotInPrefix(path0, path, '?');
    NotInPrefix(path0, path, '#');
  }

  lemma NotInPrefix(s: string, t: string, c: char)
    requires c !in s && |t| <= |s| && t == s[..|t|]
    ensures c !in t
  {
  }

  lemma NotInSplit(s: string, c: char, d: char)
    requires d !in s
    ensures d !in SplitOnce(s, c).0 && d !in SplitOnce(s, c).1
  {
  }

  lemma LowerHasNoUpper(s: string)
    ensures forall k :: 0 <= k < |Lower(s)| ==> !IsUpper(Lower(s)[k])
  {
  }

  lemma LowerOfLower(s: string)
    requires forall k :: 0 <= k < |s| ==> !IsUpper(s[k])
    ensures Lower(s) == s
  {
  }

  /** The first occurrence of `c` in `a + b`, when `a` has none and `b` starts with `c`. */
  lemma IndexOfAfter(a: string, b: string, c: char)
    requires c !in a && b != [] && b[0] == c
    ensures IndexOf(a + b, c) == |a|
  {
    var s := a + b;
    assert s[|a|] == c;
  }

  lemma NetlocEndAfter(h: string, p: string)
    requires forall k :: 0 <= k < |h| ==> !NetlocDelim(h[k])
    requires p == [] || p[0] == '/'
    ensures NetlocEnd(h + p) == |h|
    decreases |h|
  {
    if h != [] {
      assert (h + p)[1..] == h[1..] + p;
      NetlocEndAfter(h[1..], p);
    } else {
      assert h + p == p;
    }
  }

  /** A netloc with no delimiter and no bracket. */
  predicate PlainNetloc(netloc: string) {
    forall k :: 0 <= k < |netloc| ==> !NetlocDelim(netloc[k]) && netloc[k] != '[' && netloc[k] != ']'
  }

  lemma SchemeOfComposed(scheme: string, tail: string)
    requires ValidScheme(scheme) && forall k :: 0 <= k < |scheme| ==> !IsUpper(scheme[k])
    requires tail != [] && tail[0] == ':'
    ensures SplitScheme(scheme + tail) == (scheme, tail[1..])
  {
    var url := scheme + tail;
    assert !SchemeChar(':');
    IndexOfAfter(scheme, tail, ':');
    assert url[..|scheme|] == scheme;
    assert url[|scheme| + 1..] == tail[1..];
    LowerOfLower(scheme);
  }

  lemma NetlocOfComposed(netloc: string, path: string)
    requires forall k :: 0 <= k < |netloc| ==> !NetlocDelim(netloc[k])
    requires path == [] || path[0] == '/'
    ensures SplitNetloc("//" + netloc + path) == (netloc, path)
  {
    var rest := "//" + netloc + path;
    assert rest[2..] == netloc + path;
    NetlocEndAfter(netloc, path);
    assert rest[2..2 + |netloc|] == netloc;
    assert rest[2 + |netloc|..] == path;
  }

  /**
   * Parsing inverts composition: `scheme://netloc/path` with a lowercase
   * scheme, a plain netloc and a path free of `?`, `#` and `;` gives back
   * exactly those parts.
   */
  lemma ParseComposed(scheme: string, netloc: string, path: string)
    requires ValidScheme(scheme) && forall k :: 0 <= k < |scheme| ==> !IsUpper(scheme[k])
    requires PlainNetloc(netloc)
    requires path == [] || path[0] == '/'
    requires '?' !in path && '#' !in path && ';' !in path
    ensures UrlParse(scheme + (":" + ("//" + netloc + path))) == Success(Url(scheme, netloc, path, "", "", ""))
  {
    var rest := "//" + netloc + path;
    SchemeOfComposed(scheme, ":" + rest);
    ScribeFiles.DropStem(":", rest);
    NetlocOfComposed(netloc, path);
    assert '[' !in netloc && ']' !in netloc;
  }

  /** Where `download_to_temp_async` sends a URI. */
  datatype Route =
    | BadUri(error: Error)
    | LocalFile(sourcePath: string)
    | Remote(urlPath: string)
    | Unsupported(scheme: string)

  /**
   * The dispatch on the (lowercased) scheme: `file` or none is a local
   * path, decoded by `url2pathname`; `http` and `https` are downloads;
   * anything else is unsupported.
   */
  function Dispatch(parsed: Result<Url, Error>, url2pathname: string -> string): Route {
    match parsed
    case Failure(e) => BadUri(e)
    case Success(u) =>
      var scheme := Lower(u.scheme);
      if scheme == "file" || scheme == "" then LocalFile(url2pathname(u.path))
      else if scheme == "http" || scheme == "https" then Remote(u.path)
      else Unsupported(scheme)
  }

  function RouteOf(uri: string, url2pathname: string -> string): Route {
    Dispatch(UrlParse(uri), url2pathname)
  }

  lemma DispatchIff(parsed: Result<Url, Error>, url2pathname: string -> string)
    requires parsed.Success? ==> forall k :: 0 <= k < |parsed.value.scheme| ==> !IsUpper(parsed.value.scheme[k])
    ensures var r := Dispatch(parsed, url2pathname);
      && (r.BadUri? <==> parsed.Failure?)
      && (r.LocalFile? <==> parsed.Success? && parsed.value.scheme in {"file", ""})
      && (r.Remote? <==> parsed.Success? && parsed.value.scheme in {"http", "https"})
      && (r.Unsupported? ==> r.scheme == parsed.value.scheme && r.scheme !in {"file", "", "http", "https"})
  {
    if parsed.Success? {
      LowerOfLower(parsed.value.scheme);
    }
  }

  /**
   * Each route is taken exactly for its schemes: a parse error, `file` or
   * none, `http` or `https`, and every other scheme, which is named as parsed.
   */
  lemma RouteIff(uri: string, url2pathname: string -> string)
    ensures var r := RouteOf(uri, url2pathname);
      var u := UrlParse(uri);
      && (r.BadUri? <==> u.Failure?)
      && (r.LocalFile? <==> u.Success? && u.value.scheme in {"file", ""})
      && (r.Remote? <==> u.Success? && u.value.scheme in {"http", "https"})
      && (r.Unsupported? ==> r.scheme == u.value.scheme && r.scheme !in {"file", "", "http", "https"})
  {
    UrlParseParts(uri);
    DispatchIff(UrlParse(uri), url2pathname);
  }

  /** The schemes named by the tests are valid and already lowercase. */
  lemma KnownScheme(scheme: string)
    requires scheme == "ftp" || scheme == "http" || scheme == "https"
    ensures ValidScheme(scheme) && (forall k :: 0 <= k < |scheme| ==> !IsUpper(scheme[k])) && Lower(scheme) == scheme
  {
    LowerOfLower(scheme);
  }

  /** The `ftp` URI of the tests is refused with its scheme named. */
  lemma FtpUnsupported(netloc: string, path: string, url2pathname: string -> string)
    requires PlainNetloc(netloc)
    requires path == [] || path[0] == '/'
    requires '?' !in path && '#' !in path && ';' !in path
    ensures RouteOf("ftp" + (":" + ("//" + netloc + path)), url2pathname) == Unsupported("ftp")
  {
    KnownScheme("ftp");
    ParseComposed("ftp", netloc, path);
  }

  /**
   * An `http` or `https` URI is downloaded with its path as the name the
   * temporary file's suffix is taken from.
   */
  lemma RemoteRoute(scheme: string, netloc: string, path: string, url2pathname: string -> string)
    requires scheme == "http" || scheme == "https"
    requires PlainNetloc(netloc)
    requires path == [] || path[0] == '/'
    requires '?' !in path && '#' !in path && ';' !in path
    ensures RouteOf(scheme + (":" + ("//" + netloc + path)), url2pathname) == Remote(path)
  {
    KnownScheme(scheme);
    ParseComposed(scheme, netloc, path);
  }

  function NotFoundMessage(sourcePath: string): string { "File not found: " + sourcePath }

  function DownloadFailedMessage(uri: string, status: int): string {
    "Failed to download from " + uri + ": " + IntToString(status)
  }

  function UnsupportedMessage(scheme: string): string { "Unsupported URI scheme: " + scheme }

  /** What the HTTP client does for a GET: a response, or an exception raised from inside `aiohttp`. */
  datatype HttpReply = Response(status: int, body: seq<byte>) | ClientFailure(error: Error)

  /**
   * The local branch: a missing source is a `ValueError`; otherwise a
   * byte-for-byte copy into a fresh temporary file with the given suffix.
   */
  method CopyLocal(fs: FileSystem, src: string, suffix: string) returns (r: Result<Path, Error>)
    requires fs.Valid()
    modifies fs
    ensures fs.Valid() && fs.locked == old(fs.locked)
    ensures Named(src) !in old(fs.files) ==>
      && r == Failure(Error(ValueError, NotFoundMessage(src)))
      && fs.files == old(fs.files) && fs.nextTemp == old(fs.nextTemp)
    ensures Named(src) in old(fs.files) ==>
      && r == Success(Temp(old(fs.nextTemp), "tmp", suffix)) && fs.nextTemp == old(fs.nextTemp) + 1
      && fs.files == old(fs.files)[Temp(old(fs.nextTemp), "tmp", suffix) := old(fs.files)[Named(src)]]
  {
    var source := Named(src);
    if !fs.Exists(source) {
      return Failure(Error(ValueError, NotFoundMessage(src)));
    }
    var tempPath := fs.CreateTemp("tmp", suffix);
    var content := fs.files[source];
    fs.Write(tempPath, content);
    r := Success(tempPath);
  }

  /**
   * The download branch: the temporary file is created first; a client
   * exception leaves it empty, a status other than 200 removes it, and 200
   * fills it with the body.
   */
  method FetchRemote(fs: FileSystem, uri: string, suffix: string, httpGet: string -> HttpReply)
    returns (r: Result<Path, Error>)
    requires fs.Valid()
    modifies fs
    ensures fs.Valid() && fs.locked == old(fs.locked) && fs.nextTemp == old(fs.nextTemp) + 1
    ensures var t := Temp(old(fs.nextTemp), "tmp", suffix);
      match httpGet(uri)
      case ClientFailure(e) => r == Failure(e) && fs.files == old(fs.files)[t := []]
      case Response(status, body) =>
        if status != 200 then
          r == Failure(Error(ValueError, DownloadFailedMessage(uri, status))) && fs.files == old(fs.files)
        else
          r == Success(t) && fs.files == old(fs.files)[t := body]
  {
    var tempPath := fs.CreateTemp("tmp", suffix);
    match httpGet(uri) {
      case ClientFailure(e) =>
        r := Failure(e);
      case Response(status, body) =>
        if status != 200 {
          if fs.Exists(tempPath) {
            var _ := fs.Remove(tempPath);
          }
          return Failure(Error(ValueError, DownloadFailedMessage(uri, status)));
        }
        fs.Write(tempPath, body);
        r := Success(tempPath);
    }
  }

  /**
   * `download_to_temp_async`: the URI's route decides the branch. A bad URI
   * and an unsupported scheme create no file.
   */
  method DownloadToTemp(fs: FileSystem, uri: string, url2pathname: string -> string, httpGet: string -> HttpReply)
    returns (r: Result<Path, Error>)
    requires fs.Valid()
    modifies fs
    ensures fs.Valid() && fs.locked == old(fs.locked)
    ensures match RouteOf(uri, url2pathname)
      case BadUri(e) => r == Failure(e) && fs.files == old(fs.files) && fs.nextTemp == old(fs.nextTemp)
      case Unsupported(scheme) =>
        && r == Failure(Error(ValueError, UnsupportedMessage(scheme)))
        && fs.files == old(fs.files) && fs.nextTemp == old(fs.nextTemp)
      case LocalFile(src) =>
        if Named(src) !in old(fs.files) then
          && r == Failure(Error(ValueError, NotFoundMessage(src)))
          && fs.files == old(fs.files) && fs.nextTemp == old(fs.nextTemp)
        else
          var t := Temp(old(fs.nextTemp), "tmp", ScribeFiles.SafeSuffixFromFilename(ScribeFiles.PyStr(src)));
          && r == Success(t) && fs.nextTemp == old(fs.nextTemp) + 1
          && fs.files == old(fs.files)[t := old(fs.files)[Named(src)]]
      case Remote(path) =>
        var t := Temp(old(fs.nextTemp), "tmp", ScribeFiles.SafeSuffixFromFilename(ScribeFiles.PyStr(path)));
        && fs.nextTemp == old(fs.nextTemp) + 1
        && match httpGet(uri)
           case ClientFailure(e) => r == Failure(e) && fs.files == old(fs.files)[t := []]
           case Response(status, body) =>
             if status != 200 then
               r == Failure(Error(ValueError, DownloadFailedMessage(uri, status))) && fs.files == old(fs.files)
             else
               r == Success(t) && fs.files == old(fs.files)[t := body]
  {
    var route := RouteOf(uri, url2pathname);
    match route
    case BadUri(e) =>
      r := Failure(e);
    case Unsupported(scheme) =>
      r := Failure(Error(ValueError, UnsupportedMessage(scheme)));
    case LocalFile(src) =>
      r := CopyLocal(fs, src, ScribeFiles.SafeSuffixFromFilename(ScribeFiles.PyStr(src)));
    case Remote(path) =>
      r := FetchRemote(fs, uri, ScribeFiles.SafeSuffixFromFilename(ScribeFiles.PyStr(path)), httpGet);
  }
}
