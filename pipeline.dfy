/**
 * The ingestion pipelines: how a file arriving from S3 is routed to the
 * Markdown or the Unstructured flow, and the two flows' transforms — the
 * current streaming pipeline, which hands the stream to `IngestionService`,
 * and the older pipeline, which downloads the file, converts it itself and
 * deletes the local copy afterwards.
 */
module Pipeline {
  import opened Wrappers
  import opened Text
  import opened Files
  import opened Markdown
  import opened Documents
  import opened Ingestion

  /** The message channels a file can be routed to. */
  datatype Channel = MarkdownChannel | UnstructuredChannel | NullChannel

  /** Message headers: name to string value. */
  type Headers = map<string, string>

  /** Spring Integration's `FileHeaders.REMOTE_FILE`. */
  const RemoteFileHeader := "file_remoteFile"
  /** The header name the router falls back to. */
  const FallbackFileHeader := "file_remoteFile"

  const DefaultObsidianFolder := "obsidian/"
  const DefaultDocumentsFolder := "documents/"

  /** `getHeaders().get(name)`, `null` as `None`. */
  function Header(headers: Headers, name: string): Option<string> {
    if name in headers then Some(headers[name]) else None
  }

  /** The file name the router reads: the remote-file header, else the fallback header. */
  function RoutedFilename(headers: Headers): (r: Option<string>)
    ensures r.Some? <==> RemoteFileHeader in headers || FallbackFileHeader in headers
    ensures RemoteFileHeader in headers ==> r == Some(headers[RemoteFileHeader])
  {
    var filename := Header(headers, RemoteFileHeader);
    if filename.None? then Header(headers, FallbackFileHeader) else filename
  }

  /** `routeFile`, with the configured folder names (which it does not lower-case). */
  function RouteFile(headers: Headers, obsidianFolder: string, documentsFolder: string): Channel {
    match RoutedFilename(headers)
    case None => NullChannel
    case Some(filename) =>
      var path := Lower(filename);
      if EndsWith(path, ".md") || Contains(path, obsidianFolder) then MarkdownChannel
      else if Contains(path, documentsFolder) then UnstructuredChannel
      else NullChannel
  }

  /**
   * Routing in full: without a file name the message is dropped; a name
   * whose lower-cased form ends in `.md` or contains the Obsidian folder
   * goes to the Markdown flow, whatever else it contains; otherwise one
   * containing the documents folder goes to the Unstructured flow; anything
   * else is dropped.
   */
  lemma RouteFileIff(headers: Headers, obsidianFolder: string, documentsFolder: string)
    ensures RoutedFilename(headers).None? ==> RouteFile(headers, obsidianFolder, documentsFolder) == NullChannel
    ensures RoutedFilename(headers).Some? ==>
      var path := Lower(RoutedFilename(headers).value);
      && (RouteFile(headers, obsidianFolder, documentsFolder) == MarkdownChannel <==>
            EndsWith(path, ".md") || Contains(path, obsidianFolder))
      && (RouteFile(headers, obsidianFolder, documentsFolder) == UnstructuredChannel <==>
            !EndsWith(path, ".md") && !Contains(path, obsidianFolder) && Contains(path, documentsFolder))
  {
  }

  /** The name header alone decides the route: the fallback names the same header. */
  lemma FallbackIsRemoteFile(headers: Headers)
    ensures RoutedFilename(headers) == if RemoteFileHeader in headers then Some(headers[RemoteFileHeader]) else None
  {
  }

  /** A suffix survives lower-casing when it has no capitals. */
  lemma LowerKeepsSuffix(s: string, suffix: string)
    requires EndsWith(s, suffix) && Lower(suffix) == suffix
    ensures EndsWith(Lower(s), suffix)
  {
    var pre := s[..|s| - |suffix|];
    assert s == pre + suffix;
    LowerAppend(pre, suffix);
    assert Lower(s)[|Lower(s)| - |suffix|..] == Lower(suffix);
  }

  /** The older pipeline's router on the downloaded file's absolute path: `obsidian` first, then `documents`. */
  function LegacyRoute(absolutePath: string): (r: Channel)
    ensures r == MarkdownChannel <==> Contains(absolutePath, "obsidian")
    ensures r == UnstructuredChannel <==> !Contains(absolutePath, "obsidian") && Contains(absolutePath, "documents")
  {
    if Contains(absolutePath, "obsidian") then MarkdownChannel
    else if Contains(absolutePath, "documents") then UnstructuredChannel
    else NullChannel
  }

  /** The file name the current transforms pass on: the remote-file header, or a fixed default. */
  function TransformFilename(headers: Headers, default: string): (r: string)
    ensures RemoteFileHeader in headers ==> r == headers[RemoteFileHeader]
    ensures RemoteFileHeader !in headers ==> r == default
  {
    if RemoteFileHeader in headers then headers[RemoteFileHeader] else default
  }

  const UnknownMarkdownName := "unknown.md"
  const UnknownName := "unknown"

  /**
   * `processMarkdownMessage`: the service's result for the named file, any
   * exception becoming an `IngestionException` of the Markdown stream.
   */
  method ProcessMarkdownMessage(headers: Headers, read: Result<string, string>, parse: string -> Parsed)
    returns (r: Result<seq<Document>, JavaError>)
    ensures r.Failure? <==> read.Failure?
    ensures r.Failure? ==> r.error == IngestionException("Error processing markdown stream")
    ensures r.Success? ==>
      var filename := TransformFilename(headers, UnknownMarkdownName);
      var doc := parse(read.value);
      r.value == [Document(doc.text, MarkdownMetadata(filename, MarkdownTitle(doc.headings, filename)))]
      && HasSource(r.value[0], filename)
  {
    var filename := if RemoteFileHeader in headers then headers[RemoteFileHeader] else UnknownMarkdownName;
    var docs := ProcessMarkdown(read, filename, parse);
    if docs.Failure? {
      return Failure(IngestionException("Error processing markdown stream"));
    }
    return docs;
  }

  /**
   * `processUnstructuredMessage`: the service's result for the named file,
   * any exception becoming an `IngestionException` of the Unstructured stream.
   */
  method ProcessUnstructuredMessage(headers: Headers, reply: HttpReply, readTree: string -> JsonParse)
    returns (r: Result<seq<Document>, JavaError>)
    ensures r.Failure? ==> r.error == IngestionException("Error processing unstructured stream")
    ensures r.Success? <==> reply.Body? && reply.content.Some? && readTree(reply.content.value).Parsed?
    ensures r.Success? ==>
      var filename := TransformFilename(headers, UnknownName);
      r.value == match readTree(reply.content.value).root
        case JsonArray(nodes) => UnstructuredDocs(TextsOf(nodes, ElementSeparator), filename)
        case JsonValue(_) => []
  {
    var filename := if RemoteFileHeader in headers then headers[RemoteFileHeader] else UnknownName;
    var docs := ProcessUnstructured(reply, filename, readTree);
    if docs.Failure? {
      return Failure(IngestionException("Error processing unstructured stream"));
    }
    return docs;
  }

  /** `File.getName()`: what follows the last `/` of the path. */
  function JavaFileName(path: string): (r: string)
    ensures forall k :: 0 <= k < |r| ==> r[k] != '/'
    ensures EndsWith(path, r)
  {
    var j := LastIndexOf(path, '/');
    assert |path| - |path[j + 1..]| == j + 1;
    path[j + 1..]
  }

  /** The document the older Markdown transform builds from the file's bytes. */
  function LegacyMarkdownDocument(name: string, doc: Parsed, lastModified: string): (d: Document)
    ensures HasSource(d, name)
    ensures KeyType in d.metadata && d.metadata[KeyType] == Str(TypeMarkdown)
    ensures KeyTitle in d.metadata && d.metadata[KeyTitle] == Str(LegacyTitle(doc.headings, name))
  {
    Document(doc.text, map[KeySource := Str(name), KeyType := Str(TypeMarkdown),
      KeyTitle := Str(LegacyTitle(doc.headings, name)), "last_modified" := Str(lastModified)])
  }

  /**
   * The older `processMarkdown`: the downloaded file is read and decoded,
   * titled by the older visitor, and deleted in the `finally` block whether
   * or not the read succeeded (when it exists and may be deleted).
   */
  method LegacyProcessMarkdown(fs: FileSystem, absolutePath: string, decode: seq<byte> -> string,
                               parse: string -> Parsed, lastModified: string)
    returns (r: Result<seq<Document>, JavaError>)
    requires fs.Valid()
    modifies fs
    ensures fs.Valid() && fs.locked == old(fs.locked) && fs.nextTemp == old(fs.nextTemp)
    ensures fs.files == if Named(absolutePath) in fs.locked then old(fs.files) else old(fs.files) - {Named(absolutePath)}
    ensures Named(absolutePath) !in old(fs.files) ==> r == Failure(RuntimeException("Failed to read markdown file"))
    ensures Named(absolutePath) in old(fs.files) ==>
      r == Success([LegacyMarkdownDocument(JavaFileName(absolutePath),
        parse(decode(old(fs.files)[Named(absolutePath)])), lastModified)])
  {
    var file := Named(absolutePath);
    var name := JavaFileName(absolutePath);
    if file in fs.files {
      var content := decode(fs.files[file]);
      var document := parse(content);
      var title := LegacyExtractTitle(document, name);
      r := Success([Document(document.text, map[KeySource := Str(name), KeyType := Str(TypeMarkdown),
        KeyTitle := Str(title), "last_modified" := Str(lastModified)])]);
    } else {
      r := Failure(RuntimeException("Failed to read markdown file"));
    }
    if fs.Exists(file) {
      var deleted := fs.Remove(file);
    }
  }

  const LegacySeparator := "\n\n"

  /**
   * The older text extraction: an array's element texts each followed by a
   * blank line; another value's own text, with no separator; "" without one.
   */
  function LegacyText(root: JsonRoot): (t: string)
    ensures root.JsonValue? ==> t == root.text.GetOr("")
    ensures root.JsonArray? ==> t == TextsOf(root.nodes, LegacySeparator)
  {
    match root
    case JsonArray(nodes) => TextsOf(nodes, LegacySeparator)
    case JsonValue(text) => if text.Some? then text.value else ""
  }

  const LegacyUnstructuredFailure := "Failed to call Unstructured API or parse response"

  /**
   * The older `processUnstructured`: the file (which must exist to be sent),
   * the exchange and the parse may each fail, all as one `RuntimeException`;
   * otherwise always exactly one document, even with empty text. The local
   * file is deleted afterwards either way.
   */
  method LegacyProcessUnstructured(fs: FileSystem, absolutePath: string, reply: HttpReply,
                                   readTree: string -> JsonParse, lastModified: string)
    returns (r: Result<seq<Document>, JavaError>)
    requires fs.Valid()
    modifies fs
    ensures fs.Valid() && fs.locked == old(fs.locked) && fs.nextTemp == old(fs.nextTemp)
    ensures fs.files == if Named(absolutePath) in fs.locked then old(fs.files) else old(fs.files) - {Named(absolutePath)}
    ensures r.Failure? ==> r.error == RuntimeException(LegacyUnstructuredFailure)
    ensures r.Success? <==>
      Named(absolutePath) in old(fs.files) && reply.Body? && reply.content.Some? && readTree(reply.content.value).Parsed?
    ensures r.Success? ==>
      r.value == [Document(LegacyText(readTree(reply.content.value).root),
        map[KeySource := Str(JavaFileName(absolutePath)), KeyType := Str(TypeUnstructured),
          "last_modified" := Str(lastModified)])]
  {
    var file := Named(absolutePath);
    var name := JavaFileName(absolutePath);
    r := Failure(RuntimeException(LegacyUnstructuredFailure));
    if file in fs.files && reply.Body? && reply.content.Some? {
      var parsed := readTree(reply.content.value);
      if parsed.Parsed? {
        var fullText := "";
        if parsed.root.JsonArray? {
          fullText := CollectTexts(parsed.root.nodes, LegacySeparator);
        } else if parsed.root.text.Some? {
          fullText := parsed.root.text.value;
        }
        r := Success([Document(fullText, map[KeySource := Str(name), KeyType := Str(TypeUnstructured),
          "last_modified" := Str(lastModified)])]);
      }
    }
    if fs.Exists(file) {
      var deleted := fs.Remove(file);
    }
  }
}
