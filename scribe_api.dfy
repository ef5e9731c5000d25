/**
 * AudioScribe's HTTP endpoints (`main.py`): the two response builders, the
 * language default, and the three transcription endpoints with their
 * configuration checks, their mapping of exceptions to HTTP status codes
 * and the removal of the uploaded file's temporary copy in `finally`.
 *
 * The transcription services behind the endpoints are parameters that
 * receive the bytes of the saved upload; settings are parameters too.
 */
module ScribeApi {
  import opened Wrappers
  import opened Errors
  import opened Files
  import opened Text
  import opened ScribeFiles
  import opened LocalTranscription

  /** One item of the timestamp response: `{"text": …, "timestamp": (start, end)}`. */
  datatype TimedText = TimedText(text: string, timestamp: (real, real))

  /** The `transcription` field: the timestamp list or the single text. */
  datatype Transcription = Timestamped(items: seq<TimedText>) | TextOnly(text: string)

  /** The third field of a successful reply: `language`, or `provider` for Hugging Face. */
  datatype Setting = Language(language: string) | Provider(provider: string)

  datatype Body = Body(source: string, model: string, setting: Setting, transcription: Transcription)

  /** A JSON reply, or the `HTTPException` raised instead. */
  datatype Reply = Ok(body: Body) | HttpError(status: nat, detail: string)

  /** `_build_timestamp_response`: one item per segment, in order. */
  function BuildTimestampResponse(segments: seq<Segment>): (r: seq<TimedText>)
    ensures |r| == |segments|
    ensures forall i :: 0 <= i < |segments| ==>
      r[i].text == segments[i].text && r[i].timestamp == (segments[i].start, segments[i].end)
  {
    if segments == [] then []
    else [TimedText(segments[0].text, (segments[0].start, segments[0].end))] + BuildTimestampResponse(segments[1..])
  }

  /** The segment an item of the timestamp response describes. */
  function ItemSegment(t: TimedText): Segment {
    Segment(t.text, t.timestamp.0, t.timestamp.1)
  }

  /** The timestamp response loses nothing: the segments can be read back from it. */
  lemma TimestampRoundTrip(segments: seq<Segment>)
    ensures var items := BuildTimestampResponse(segments);
      seq(|items|, i requires 0 <= i < |items| => ItemSegment(items[i])) == segments
  {
    var items := BuildTimestampResponse(segments);
    var back := seq(|items|, i requires 0 <= i < |items| => ItemSegment(items[i]));
    forall i | 0 <= i < |segments| ensures back[i] == segments[i] {
      assert items[i].text == segments[i].text;
    }
  }

  function Texts(segments: seq<Segment>): (r: seq<string>)
    ensures |r| == |segments| && forall i :: 0 <= i < |segments| ==> r[i] == segments[i].text
  {
    if segments == [] then [] else [segments[0].text] + Texts(segments[1..])
  }

  /** `_build_text_only_response`: the segment texts joined by single spaces. */
  function BuildTextOnlyResponse(segments: seq<Segment>): string {
    Join(Texts(segments), " ")
  }

  /**
   * When no segment text holds a space, splitting the text-only response on
   * spaces gives the segment texts back, in order.
   */
  lemma TextOnlySplits(segments: seq<Segment>)
    requires segments != []
    requires forall i :: 0 <= i < |segments| ==> ' ' !in segments[i].text
    ensures Split(BuildTextOnlyResponse(segments), ' ') == Texts(segments)
  {
    JoinSplit(Texts(segments), ' ');
  }

  /** `with_timestamps` picks exactly one of the two builders. */
  function ResponseFor(segments: seq<Segment>, withTimestamps: bool): (r: Transcription)
    ensures r.Timestamped? <==> withTimestamps
    ensures r.Timestamped? ==> r.items == BuildTimestampResponse(segments)
    ensures r.TextOnly? ==> r.text == BuildTextOnlyResponse(segments)
  {
    if withTimestamps then Timestamped(BuildTimestampResponse(segments))
    else TextOnly(BuildTextOnlyResponse(segments))
  }

  /** `language if language else settings.TRANSCRIPTION_LANGUAGE`. */
  function ChooseLanguage(language: Option<string>, default: string): (r: string)
    ensures language.Some? && language.value != "" ==> r == language.value
    ensures language.None? || language.value == "" ==> r == default
  {
    if language.Some? && language.value != "" then language.value else default
  }

  const UnexpectedPrefix: string := "An unexpected error occurred: "

  /** The status the OpenAI and Hugging Face endpoints answer an exception with. */
  function StatusOf(k: Kind): (status: nat)
    ensures status == 404 <==> k == ValueError
    ensures status == 400 <==> k == OSError || k == HfHubHttpError
    ensures status == 500 <==> k in {RuntimeError, TypeError, ForgeError, OtherError}
  {
    if k == ValueError then 404
    else if IsOSError(k) then 400
    else 500
  }

  /**
   * The `except` chain of the OpenAI and Hugging Face endpoints: `ValueError`
   * is 404 and `IOError` (any `OSError`) is 400, both with the message;
   * anything else is 500 with the message behind `UnexpectedPrefix`.
   */
  function ApiErrorReply(e: Error): (r: Reply)
    ensures r.HttpError? && r.status == StatusOf(e.kind)
    ensures r.status != 500 ==> r.detail == e.message
    ensures r.status == 500 ==> r.detail == UnexpectedPrefix + e.message
  {
    if e.kind == ValueError then HttpError(404, e.message)
    else if IsOSError(e.kind) then HttpError(400, e.message)
    else HttpError(500, UnexpectedPrefix + e.message)
  }

  /** The local endpoint answers every exception with 500. */
  function LocalErrorReply(e: Error): (r: Reply)
    ensures r.HttpError? && r.status == 500 && r.detail == UnexpectedPrefix + e.message
  {
    HttpError(500, UnexpectedPrefix + e.message)
  }

  /** What the local endpoint answers, given what the transcription of the upload gives. */
  function LocalReply(model: string, lang: string, withTimestamps: bool, result: Result<seq<Segment>, Error>): (r: Reply)
    ensures r.HttpError? ==> r.status == 500
    ensures result.Success? <==> r.Ok?
    ensures r.Ok? ==> r.body == Body("local", model, Language(lang), ResponseFor(result.value, withTimestamps))
  {
    match result
    case Failure(e) => LocalErrorReply(e)
    case Success(segments) => Ok(Body("local", model, Language(lang), ResponseFor(segments, withTimestamps)))
  }

  /** What the OpenAI or Hugging Face endpoint answers, given the service's result. */
  function ApiReply(source: string, model: string, setting: Setting, result: Result<string, Error>): (r: Reply)
    ensures result.Success? <==> r.Ok?
    ensures r.Ok? ==> r.body == Body(source, model, setting, TextOnly(result.value))
    ensures r.HttpError? ==> r == ApiErrorReply(result.error)
  {
    match result
    case Failure(e) => ApiErrorReply(e)
    case Success(text) => Ok(Body(source, model, setting, TextOnly(text)))
  }

  /** Python truthiness of an optional setting. */
  predicate Configured(setting: Option<string>) { setting.Some? && setting.value != "" }

  const OpenAiKeyMissing: string := "OPENAI_API_KEY is not configured on the server."
  const HfTokenMissing: string := "HF_TOKEN is not configured on the server."

  /** A generated temporary path is never the empty string, so `finally` always cleans it. */
  lemma TempPathNonEmpty(p: Path)
    requires p.Temp?
    ensures PathText(p) != ""
  {
    assert PathText(p)[0] == '/';
  }

  /**
   * The upload saved, handed to the service, and its temporary copy removed
   * again: the file system ends as it began, but for the counter.
   */
  method WithSavedUpload<T>(fs: FileSystem, upload: Upload, service: seq<byte> -> T) returns (result: T)
    requires fs.Valid()
    modifies fs
    ensures fs.Valid() && fs.locked == old(fs.locked)
    ensures fs.files == old(fs.files) && fs.nextTemp == old(fs.nextTemp) + 1
    ensures result == service(upload.content)
  {
    var p := SaveUploadToTemp(fs, upload);
    ghost var saved := fs.files;
    result := service(fs.files[p]);
    TempPathNonEmpty(p);
    var attempted := CleanupTempFile(fs, Some(p));
    assert fs.files == saved - {p};
    assert fs.files == old(fs.files);
  }

  /** `transcribe_local_endpoint`. */
  method TranscribeLocalEndpoint(fs: FileSystem, upload: Upload, model: string, language: Option<string>,
                                 withTimestamps: bool, defaultLanguage: string,
                                 transcribe: seq<byte> -> Result<seq<Segment>, Error>)
    returns (reply: Reply)
    requires fs.Valid()
    modifies fs
    ensures fs.Valid() && fs.locked == old(fs.locked)
    ensures fs.files == old(fs.files) && fs.nextTemp == old(fs.nextTemp) + 1
    ensures reply == LocalReply(model, ChooseLanguage(language, defaultLanguage), withTimestamps, transcribe(upload.content))
  {
    var lang := if language.Some? && language.value != "" then language.value else defaultLanguage;
    var result := WithSavedUpload(fs, upload, transcribe);
    match result {
      case Failure(e) =>
        reply := HttpError(500, UnexpectedPrefix + e.message);
      case Success(segments) =>
        var transcription;
        if withTimestamps {
          transcription := Timestamped(BuildTimestampResponse(segments));
        } else {
          transcription := TextOnly(BuildTextOnlyResponse(segments));
        }
        reply := Ok(Body("local", model, Language(lang), transcription));
    }
  }

  /**
   * `transcribe_openai_endpoint`: without an API key, 500 and nothing is
   * saved; otherwise the service's text or the mapped exception.
   */
  method TranscribeOpenAiEndpoint(fs: FileSystem, apiKey: Option<string>, upload: Upload, model: string,
                                  language: Option<string>, defaultLanguage: string,
                                  transcribe: (seq<byte>, string) -> Result<string, Error>)
    returns (reply: Reply)
    requires fs.Valid()
    modifies fs
    ensures fs.Valid() && fs.locked == old(fs.locked) && fs.files == old(fs.files)
    ensures !Configured(apiKey) ==> reply == HttpError(500, OpenAiKeyMissing) && fs.nextTemp == old(fs.nextTemp)
    ensures Configured(apiKey) ==>
      var lang := ChooseLanguage(language, defaultLanguage);
      && fs.nextTemp == old(fs.nextTemp) + 1
      && reply == ApiReply("openai", model, Language(lang), transcribe(upload.content, lang))
  {
    if apiKey.None? || apiKey.value == "" {
      return HttpError(500, OpenAiKeyMissing);
    }
    var lang := if language.Some? && language.value != "" then language.value else defaultLanguage;
    var result := WithSavedUpload(fs, upload, content => transcribe(content, lang));
    match result {
      case Failure(e) =>
        if e.kind == ValueError {
          reply := HttpError(404, e.message);
        } else if e.kind == OSError || e.kind == HfHubHttpError {
          reply := HttpError(400, e.message);
        } else {
          reply := HttpError(500, UnexpectedPrefix + e.message);
        }
      case Success(text) =>
        reply := Ok(Body("openai", model, Language(lang), TextOnly(text)));
    }
  }

  /**
   * `transcribe_hf_endpoint`: without a token, 500 and nothing is saved;
   * otherwise the service's text or the mapped exception.
   */
  method TranscribeHfEndpoint(fs: FileSystem, token: Option<string>, upload: Upload, model: string,
                              provider: string, transcribe: (seq<byte>, string) -> Result<string, Error>)
    returns (reply: Reply)
    requires fs.Valid()
    modifies fs
    ensures fs.Valid() && fs.locked == old(fs.locked) && fs.files == old(fs.files)
    ensures !Configured(token) ==> reply == HttpError(500, HfTokenMissing) && fs.nextTemp == old(fs.nextTemp)
    ensures Configured(token) ==>
      && fs.nextTemp == old(fs.nextTemp) + 1
      && reply == ApiReply("huggingface", model, Provider(provider), transcribe(upload.content, provider))
  {
    if token.None? || token.value == "" {
      return HttpError(500, HfTokenMissing);
    }
    var result := WithSavedUpload(fs, upload, content => transcribe(content, provider));
    match result {
      case Failure(e) =>
        if e.kind == ValueError {
          reply := HttpError(404, e.message);
        } else if e.kind == OSError || e.kind == HfHubHttpError {
          reply := HttpError(400, e.message);
        } else {
          reply := HttpError(500, UnexpectedPrefix + e.message);
        }
      case Success(text) =>
        reply := Ok(Body("huggingface", model, Provider(provider), TextOnly(text)));
    }
  }
}
