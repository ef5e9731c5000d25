/**
 * The upload endpoint `POST /api/ingestion/upload` of both Orchestrator
 * versions: where in the bucket an uploaded file is put, the HTTP answer,
 * and how the key it is stored under is then routed by the pipeline of the
 * same version.
 */
module Upload {
  import opened Wrappers
  import opened Text
  import opened Files
  import opened Pipeline

  /**
   * A `MultipartFile`: its original name (possibly `null`), its bytes, and
   * the message of the `IOException` that `getInputStream` throws, if it does.
   */
  datatype MultipartFile = MultipartFile(originalFilename: Option<string>, content: seq<byte>, streamError: Option<string>)

  datatype Response = Response(status: int, body: string)

  const BadRequest := 400
  const Ok := 200
  const InternalServerError := 500

  /** The S3 buckets: an object per bucket and key. */
  class ObjectStore {
    var objects: map<(string, string), seq<byte>>

    constructor (initial: map<(string, string), seq<byte>>)
      ensures objects == initial
    {
      objects := initial;
    }

    /** `putObject`: creates or replaces the object. */
    method PutObject(bucket: string, key: string, content: seq<byte>)
      modifies this
      ensures objects == old(objects)[(bucket, key) := content]
    {
      objects := objects[(bucket, key) := content];
    }
  }

  /** `determineFolder`: the Obsidian folder for a name ending (case-sensitively) in `.md`, else the documents folder. */
  function DetermineFolder(obsidianFolder: string, documentsFolder: string, filename: Option<string>): (r: string)
    ensures filename.Some? && EndsWith(filename.value, ".md") ==> r == obsidianFolder + "/"
    ensures !(filename.Some? && EndsWith(filename.value, ".md")) ==> r == documentsFolder + "/"
  {
    if filename.Some? && EndsWith(filename.value, ".md") then obsidianFolder + "/" else documentsFolder + "/"
  }

  const UnknownFile := "unknown_file"

  /** The object key: the folder, then the original name or `unknown_file`. */
  function UploadKey(obsidianFolder: string, documentsFolder: string, filename: Option<string>): string {
    DetermineFolder(obsidianFolder, documentsFolder, filename) + filename.GetOr(UnknownFile)
  }

  /**
   * With the folders configured with their trailing slash (the defaults
   * `obsidian/` and `documents/`), the key holds a doubled slash.
   */
  lemma DefaultFolderKey(filename: string)
    ensures EndsWith(filename, ".md") ==> UploadKey(DefaultObsidianFolder, DefaultDocumentsFolder, Some(filename)) == "obsidian//" + filename
    ensures !EndsWith(filename, ".md") ==> UploadKey(DefaultObsidianFolder, DefaultDocumentsFolder, Some(filename)) == "documents//" + filename
  {
  }

  const StorageFailure := "Failed to upload file to S3"

  /**
   * `uploadDocument`: an empty file is refused with 400; a stream that cannot
   * be opened, or any S3 failure (which `StorageService` rethrows as an
   * `IOException` with a fixed message), is a 500 and nothing is stored;
   * otherwise the file is stored under its key and the answer names it.
   */
  method UploadDocument(store: ObjectStore, bucket: string, obsidianFolder: string, documentsFolder: string,
                        file: MultipartFile, s3Fails: bool)
    returns (resp: Response)
    modifies store
    ensures |file.content| == 0 ==> resp == Response(BadRequest, "File is empty") && store.objects == old(store.objects)
    ensures |file.content| > 0 && file.streamError.Some? ==>
      resp == Response(InternalServerError, "Failed to upload file: " + file.streamError.value) && store.objects == old(store.objects)
    ensures |file.content| > 0 && file.streamError.None? && s3Fails ==>
      resp == Response(InternalServerError, "Failed to upload file: " + StorageFailure) && store.objects == old(store.objects)
    ensures |file.content| > 0 && file.streamError.None? && !s3Fails ==>
      var key := UploadKey(obsidianFolder, documentsFolder, file.originalFilename);
      resp == Response(Ok, "File uploaded to: " + key) && store.objects == old(store.objects)[(bucket, key) := file.content]
  {
    if |file.content| == 0 {
      return Response(BadRequest, "File is empty");
    }
    var folder := DetermineFolder(obsidianFolder, documentsFolder, file.originalFilename);
    var key := folder + (if file.originalFilename.Some? then file.originalFilename.value else UnknownFile);
    if file.streamError.Some? {
      return Response(InternalServerError, "Failed to upload file: " + file.streamError.value);
    }
    if s3Fails {
      return Response(InternalServerError, "Failed to upload file: " + StorageFailure);
    }
    store.PutObject(bucket, key, file.content);
    return Response(Ok, "File uploaded to: " + key);
  }

  /**
   * An uploaded Markdown file is routed to the Markdown flow, whatever
   * folders either side is configured with.
   */
  lemma MarkdownUploadIsMarkdown(obsidianFolder: string, documentsFolder: string, name: string,
                                 routeObsidian: string, routeDocuments: string)
    requires EndsWith(name, ".md")
    ensures RouteFile(map[RemoteFileHeader := UploadKey(obsidianFolder, documentsFolder, Some(name))],
      routeObsidian, routeDocuments) == MarkdownChannel
  {
    var key := UploadKey(obsidianFolder, documentsFolder, Some(name));
    var pre := obsidianFolder + "/";
    assert key == pre + name;
    assert key[|key| - 3..] == name[|name| - 3..];
    LowerKeepsSuffix(key, ".md");
  }

  /** A name whose lower-cased form does not end in `.md` does not end in `.md` itself. */
  lemma NotMarkdownName(name: string)
    requires !EndsWith(Lower(name), ".md")
    ensures !EndsWith(name, ".md")
  {
    if EndsWith(name, ".md") {
      LowerKeepsSuffix(name, ".md");
    }
  }

  /** After a `/`, a suffix `.md` can only come from the name. */
  lemma SlashThenName(pre: string, name: string)
    requires pre != [] && pre[|pre| - 1] == '/' && !EndsWith(name, ".md")
    ensures !EndsWith(pre + name, ".md")
  {
    var s := pre + name;
    if |s| >= 3 {
      if |name| >= 3 {
        assert s[|s| - 3..] == name[|name| - 3..];
      } else {
        var k := |pre| - 1 - (|s| - 3);
        assert s[|s| - 3..][k] == '/';
      }
    }
  }

  /** A lower-case folder survives lower-casing of the key it starts. */
  lemma LowerFolderKey(folder: string, name: string)
    requires Lower(folder) == folder
    ensures Lower(folder + "/" + name) == folder + "/" + Lower(name)
    ensures Contains(Lower(folder + "/" + name), folder)
  {
    LowerAppend(folder + "/", name);
    LowerAppend(folder, "/");
    var path := folder + "/" + Lower(name);
    assert path[..|folder|] == folder;
    assert OccursAt(path, folder, 0);
    ContainsAt(path, folder, 0);
  }

  /**
   * Any other upload lands in the documents folder and, when that folder's
   * name is lower-case and the key does not mention the Obsidian folder,
   * is routed to the Unstructured flow.
   */
  lemma DocumentUploadIsUnstructured(obsidianFolder: string, documentsFolder: string, name: string)
    requires !EndsWith(Lower(name), ".md") && Lower(documentsFolder) == documentsFolder
    requires !Contains(Lower(documentsFolder + "/" + name), obsidianFolder)
    ensures UploadKey(obsidianFolder, documentsFolder, Some(name)) == documentsFolder + "/" + name
    ensures RouteFile(map[RemoteFileHeader := UploadKey(obsidianFolder, documentsFolder, Some(name))],
      obsidianFolder, documentsFolder) == UnstructuredChannel
  {
    NotMarkdownName(name);
    LowerFolderKey(documentsFolder, name);
    SlashThenName(documentsFolder + "/", Lower(name));
  }

  /**
   * A name ending in `.MD` is stored in the documents folder by the
   * controller, whose test is case-sensitive, yet routed to the Markdown
   * flow by the pipeline, whose test is not.
   */
  lemma UpperCaseMarkdownCrossesOver(obsidianFolder: string, documentsFolder: string,
                                     routeObsidian: string, routeDocuments: string)
    ensures UploadKey(obsidianFolder, documentsFolder, Some("notes.MD")) == documentsFolder + "/notes.MD"
    ensures RouteFile(map[RemoteFileHeader := UploadKey(obsidianFolder, documentsFolder, Some("notes.MD"))],
      routeObsidian, routeDocuments) == MarkdownChannel
  {
    var key := documentsFolder + "/notes.MD";
    UpperCaseKey(obsidianFolder, documentsFolder);
    assert EndsWith(Lower(key), ".md") by {
      var pre := documentsFolder + "/notes";
      assert key == pre + ".MD";
      LowerAppend(pre, ".MD");
      var low := Lower(".MD");
      assert low == ".md" by {
        assert low[0] == '.' && low[1] == 'm' && low[2] == 'd';
      }
      assert (Lower(pre) + ".md")[|Lower(pre)|..] == ".md";
    }
  }

  lemma UpperCaseKey(obsidianFolder: string, documentsFolder: string)
    ensures UploadKey(obsidianFolder, documentsFolder, Some("notes.MD")) == documentsFolder + "/notes.MD"
  {
    assert !EndsWith("notes.MD", ".md") by {
      assert "notes.MD"[7] == 'D';
    }
    assert documentsFolder + "/" + "notes.MD" == documentsFolder + "/notes.MD";
  }

  const LegacyBucket := "knowledge-base"

  /** The older controller's key: `obsidian/` for a `.md` name, else `documents/` (a `null` name printed as `null`). */
  function LegacyKey(filename: Option<string>): (key: string)
    ensures filename.Some? && EndsWith(filename.value, ".md") ==> key == "obsidian/" + filename.value
    ensures filename.Some? && !EndsWith(filename.value, ".md") ==> key == "documents/" + filename.value
    ensures filename.None? ==> key == "documents/null"
  {
    if filename.Some? && EndsWith(filename.value, ".md") then "obsidian/" + filename.value
    else "documents/" + (if filename.Some? then filename.value else "null")
  }

  /**
   * The older `uploadDocument`: 400 for an empty file; a stream that cannot
   * be opened is a 500; an S3 failure is not an `IOException` and escapes
   * the handler (`Failure`); otherwise the file is put in `knowledge-base`.
   */
  method LegacyUploadDocument(store: ObjectStore, file: MultipartFile, s3Failure: Option<string>)
    returns (r: Result<Response, string>)
    modifies store
    ensures |file.content| == 0 ==> r == Success(Response(BadRequest, "File is empty")) && store.objects == old(store.objects)
    ensures |file.content| > 0 && file.streamError.Some? ==>
      r == Success(Response(InternalServerError, "Failed to upload file: " + file.streamError.value)) &&
      store.objects == old(store.objects)
    ensures |file.content| > 0 && file.streamError.None? && s3Failure.Some? ==>
      r == Failure(s3Failure.value) && store.objects == old(store.objects)
    ensures |file.content| > 0 && file.streamError.None? && s3Failure.None? ==>
      var key := LegacyKey(file.originalFilename);
      r == Success(Response(Ok, "File uploaded to S3: " + key)) &&
      store.objects == old(store.objects)[(LegacyBucket, key) := file.content]
  {
    if |file.content| == 0 {
      return Success(Response(BadRequest, "File is empty"));
    }
    var key := LegacyKey(file.originalFilename);
    if file.streamError.Some? {
      return Success(Response(InternalServerError, "Failed to upload file: " + file.streamError.value));
    }
    if s3Failure.Some? {
      return Failure(s3Failure.value);
    }
    store.PutObject(LegacyBucket, key, file.content);
    return Success(Response(Ok, "File uploaded to S3: " + key));
  }

  /**
   * In the older version a `.md` upload, downloaded under any local
   * directory, is routed to the Markdown flow.
   */
  lemma LegacyMarkdownUploadIsMarkdown(localDir: string, name: string)
    requires EndsWith(name, ".md")
    ensures LegacyRoute(localDir + LegacyKey(Some(name))) == MarkdownChannel
  {
    var path := localDir + ("obsidian/" + name);
    assert path[|localDir|..|localDir| + 8] == "obsidian";
    ContainsAt(path, "obsidian", |localDir|);
  }

  /**
   * The older router tests substrings of the whole path, so a document whose
   * name mentions `obsidian` is stored under `documents/` but handed to the
   * Markdown flow.
   */
  lemma LegacyObsidianNamedDocument(localDir: string)
    ensures LegacyKey(Some("obsidian.pdf")) == "documents/obsidian.pdf"
    ensures LegacyRoute(localDir + LegacyKey(Some("obsidian.pdf"))) == MarkdownChannel
  {
    assert !EndsWith("obsidian.pdf", ".md") by {
      assert "obsidian.pdf"[9] == 'p';
    }
    assert "documents/obsidian.pdf" == "documents/" + ("obsidian" + ".pdf");
    ContainsMiddle(localDir + "documents/", "obsidian", ".pdf");
    assert localDir + "documents/obsidian.pdf" == (localDir + "documents/") + "obsidian" + ".pdf";
  }
}
