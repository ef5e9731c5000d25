# AscendAI core, modelled in Dafny

AscendAI is a set of small services. They are:

- **AudioScribe**: transcription over HTTP. Audio is cut into pieces, and each piece is sent to faster-whisper or to a hosted API.
- **AudioForge**: audio conversion with FFmpeg and SoX.
- **Orchestrator**: a Spring ingestion pipeline. It routes files from S3 into Markdown or Unstructured flows and indexes the resulting documents in a vector store.
- **WeatherMCP and MCP**: weather tools.
- **OpenMemory**: categorisation of memories by an LLM.
- **BitScribe**: a duration formatter.
- **patch_config.py**: a one-off script that patches a configuration class.

This project models the deterministic rules at the heart of each service and proves what they guarantee. Those rules are:

- how audio is cut into pieces, and how the transcripts are stitched back together;
- which exception becomes which HTTP status;
- the file-name and extension helpers;
- when a file must be converted, and the exact FFmpeg and SoX command lines;
- how the ingestion router picks a flow;
- how a Markdown title is chosen, and how Unstructured texts are joined;
- how an upload key is built;
- how old documents of a source are removed;
- the weather query rules;
- how an LLM reply is parsed into categories;
- the `Duration: HH:MM:SS` text;
- where the configuration block is inserted.

Everything outside the program is a parameter of the model: the transcription engines, the Hugging Face and OpenAI clients, pydub, mutagen, `mimetypes`, FFmpeg/SoX, commonmark, Jackson, the HTTP clients and the LLM. Each such parameter is a function from its input to what it returns or raises. Exceptions are values of the `Result` and `Error` datatypes.

File systems are classes whose methods change them:

- `Files.FileSystem` has a map of files, the set of paths whose removal fails, and a counter for fresh temporary names.
- `Documents.VectorStore` is the vector store.
- `Upload.ObjectStore` is the S3 bucket.
- `PatchConfig.Disk` is the disk the script patches.

The loops of the source are `while` loops with invariants. Each is proved equal to a specification function, and the lemmas about those functions state what the source promises.

The modules follow the source:

| module | source |
|---|---|
| Chunking, LocalTranscription | `AudioScribe/src/transcription/speech_to_text.py` (the piece windows are shared with the Hugging Face path) |
| HfTranscription | `AudioScribe/src/transcription/huggingface_api_speach_to_text.py` |
| ScribeApi | `AudioScribe/main.py` |
| ScribeFiles | `AudioScribe/src/io/file_service.py` |
| Download | `AudioScribe/src/io/download_service.py` |
| LogFormat | `AudioScribe/src/config/logging_config.py` |
| ForgeFiles | `AudioForge/src/io/file_service.py` |
| Analyzer | `AudioForge/src/audio/analyzer.py` |
| Forge | `AudioForge/src/forge.py` |
| Markdown | both `TitleExtractionVisitor.java` files, which are identical and are modelled by one class |
| Ingestion | `IngestionService.java` |
| Pipeline | both `IngestionPipelineConfig.java` files. The current one is under `com/lukk/ascend`; the older one is under `com/lukk/ai` and is called "legacy" here |
| Upload | both `IngestionController.java` files |
| Documents | `DocumentService.java`, and the older pipeline's `removeOldDocuments` |
| Weather, WeatherStub | the two `WeatherToolService.java` files |
| Categorization, OpenMemoryCategorization | `categorization.py` and `OpenMemory/categorization.py` |
| Duration | `calculate_duration` of `BitScribe/src/transcription/speech_to_text.py` |
| PatchConfig | `patch_config.py` |
| Wrappers, Errors, Files, Text, Decimal | shared vocabulary: `Option`/`Result`; the Python exception kinds; the file system; ASCII string helpers; decimal text |

Some behaviours of the source are worth knowing. The model keeps them, and lemmas state them:

- Spring Integration's `FileHeaders.REMOTE_FILE` is the header `file_remoteFile`, so the router's fallback lookup reads the same header again (`Pipeline.FallbackIsRemoteFile`).
- The current controller appends `/` to its configured folder. With the default folder `obsidian/`, a key is `obsidian//notes.md` (`Upload.DefaultFolderKey`).
- The controller treats `.md` case-sensitively, while the router lower-cases the key. So `notes.MD` is stored under the documents folder but still reaches the Markdown flow (`Upload.UpperCaseMarkdownCrossesOver`).
- The older router looks for `obsidian` anywhere in the local path, so `obsidian.pdf` lands in the Markdown flow (`Upload.LegacyObsidianNamedDocument`).
- A categorisation reply made only of commas gives no category at all, not the fallback (`Categorization.BlankReplyGivesNone`).
- In `hf_transcript`, a piece whose export raises already has its temporary file, but the file is not yet recorded for the `finally`, so it stays behind (`HfTranscription.HfTranscript`).
- A zero `HF_CHUNK_LENGTH_SECONDS` fails with the generic RuntimeError from `len(audio) // 0`; a negative one gives "" with no piece sent (`HfTranscription.HfSuccessIff`).
- `_run_command` catches only `CalledProcessError`, so a missing `ffmpeg` or `sox` escapes as `FileNotFoundError`, not `ForgeError` (`Forge.RunCommand`).
- Running `patch_config.py` twice inserts the block twice (`PatchConfig.PatchTwice`).
- `calculate_duration` on a negative interval gives a negative hour field, following Python's floor division (`Duration.NegativeDuration`).

## Model

| member | source | states |
|---|---|---|
| Chunking.WindowsFromShape | AudioScribe/src/transcription/speech_to_text.py:65-67 | the windows from `start` number ceil((len-start)/L); the k-th is [start+kL, min(start+kL+L, len)) |
| Chunking.BelowNumChunks | AudioScribe/src/transcription/speech_to_text.py:65 | k is below the piece count exactly when kL < len, so the starts are exactly 0, L, 2L, … below the length |
| Chunking.WindowAt | AudioScribe/src/transcription/speech_to_text.py:65-67 | there are ceil(len/L) windows; window k exists iff kL < len and is [kL, min(kL+L, len)) |
| Chunking.WindowsTile | AudioScribe/src/transcription/speech_to_text.py:65-67 | the windows tile [0, len): none when the audio is empty, each non-empty and at most L long, consecutive ones touching, all but the last exactly L, the first starting at 0 and the last ending at len |
| Chunking.ChunkOf | AudioScribe/src/transcription/speech_to_text.py:65-67 | every position of the audio lies in exactly one window |
| Chunking.ChunkPaths | AudioScribe/src/transcription/speech_to_text.py:70-72 | one temporary path per piece |
| Chunking.ChunkPathsIndex | AudioScribe/src/transcription/speech_to_text.py:70-73 | piece k's temporary file is the k-th fresh name drawn |
| Chunking.ChunkFilesIn | AudioScribe/src/transcription/speech_to_text.py:70-73 | the files exported are exactly the temporary names of the pieces, each holding its own piece's export |
| Chunking.ExportChunk | AudioScribe/src/transcription/speech_to_text.py:70-72 | exporting a piece creates one fresh temporary file holding that piece and changes nothing else |
| Chunking.ExportNext | AudioScribe/src/transcription/speech_to_text.py:70-73 | after one more export, the files are the earlier ones plus one export per piece so far |
| Chunking.RemoveChunkFile | AudioScribe/src/transcription/speech_to_text.py:106-113 | a non-empty path that is not protected is removed; a missing or protected one is passed over and nothing changes |
| Chunking.ChunkPathSetIn | AudioScribe/src/transcription/speech_to_text.py:70-72 | the first n pieces' temporary paths are exactly the fresh `.wav` names numbered base to base+n-1 |
| Chunking.ChunkFilesRemoved | AudioScribe/src/transcription/speech_to_text.py:106-113 | once the first k pieces' files are removed, exactly the other files and the files of pieces k onwards remain |
| LocalTranscription.Offsets | AudioScribe/src/transcription/speech_to_text.py:77-80 | one offset is recorded per scheduled piece |
| LocalTranscription.OffsetsIndex | AudioScribe/src/transcription/speech_to_text.py:80 | piece k's offset is its start in seconds |
| LocalTranscription.OffsetOfPiece | AudioScribe/src/transcription/speech_to_text.py:80 | the k-th 15-minute piece is shifted by exactly 900·k seconds |
| LocalTranscription.StitchMeaning | AudioScribe/src/transcription/speech_to_text.py:84-105 | after awaiting i pieces, the output holds the shifted segments of the pieces before the first failure, in piece order; a failure is recorded only at the first piece that failed |
| LocalTranscription.StitchStep | AudioScribe/src/transcription/speech_to_text.py:91-105 | awaiting one more piece either appends its segments shifted by its offset, or records the failure with nothing appended |
| LocalTranscription.StitchStaysFailed | AudioScribe/src/transcription/speech_to_text.py:102-105 | once a piece has failed, no later piece changes the output |
| LocalTranscription.StreamSegmentAt | AudioScribe/src/transcription/speech_to_text.py:91-100 | segment j of piece k (all pieces up to k succeeding) appears after all earlier pieces' segments, with its text kept and start and end each moved by 900·k seconds |
| LocalTranscription.PieceSegmentAt | AudioScribe/src/transcription/speech_to_text.py:91-100 | for any windows, segment j of a piece (all pieces up to it succeeding) follows the earlier pieces' segments, shifted by that piece's offset |
| LocalTranscription.StreamFailsIff | AudioScribe/src/transcription/speech_to_text.py:84-105 | the stream fails iff some piece fails; it then raises RuntimeError naming the first failing piece's 1-based number, having yielded exactly the earlier pieces' segments |
| LocalTranscription.ScheduleChunks | AudioScribe/src/transcription/speech_to_text.py:65-80 | the scheduling loop visits exactly the windows, drawing one fresh temporary file and one offset per piece |
| LocalTranscription.ScheduleNext | AudioScribe/src/transcription/speech_to_text.py:66-80 | one iteration of the scheduling loop extends the windows, files and offsets by the next piece |
| LocalTranscription.AwaitChunks | AudioScribe/src/transcription/speech_to_text.py:84-113 | the await loop yields the stitched segments and stops at the first failure; the files of the awaited pieces go, except those that are protected, and nothing else changes; the files of later pieces stay |
| LocalTranscription.LocalSpeechTranscriptionStream | AudioScribe/src/transcription/speech_to_text.py:51-113 | an unloadable file creates nothing and fails with IOError; otherwise the output equals the stitching specification, and exactly the files of pieces after the first failure remain |
| HfTranscription.TranscribeSingleChunk | AudioScribe/src/transcription/huggingface_api_speach_to_text.py:15-25 | a reply without text gives "", an HfHubHTTPError becomes ValueError, and any other exception passes through unchanged |
| HfTranscription.Reraise | AudioScribe/src/transcription/huggingface_api_speach_to_text.py:73-78 | ValueError and IOError (OSError) pass unchanged; anything else becomes RuntimeError |
| HfTranscription.CollectPrefix | AudioScribe/src/transcription/huggingface_api_speach_to_text.py:56-69 | after i pieces, one text per piece without a failure, fewer once an export or a call has raised |
| HfTranscription.CollectMeaning | AudioScribe/src/transcription/huggingface_api_speach_to_text.py:56-69 | the texts collected are those of the pieces before the first failing export or call, in order; on a failure, the error is that export's exception, or the call's mapped error when the export worked |
| HfTranscription.CollectStep | AudioScribe/src/transcription/huggingface_api_speach_to_text.py:61-68 | one more piece stops with its export's error when the export raises; otherwise the call appends its text or stops with its error |
| HfTranscription.CollectStaysFailed | AudioScribe/src/transcription/huggingface_api_speach_to_text.py:56-69 | after a failed export or call no later piece is exported or sent |
| HfTranscription.HfSuccessIff | AudioScribe/src/transcription/huggingface_api_speach_to_text.py:28-78 | the job succeeds iff the token is set, the audio loads, the setting is non-zero and, when it is positive, every piece is exported and transcribed; the result is then the piece texts in order joined by single spaces, or "" for a negative setting, whose `range` is empty |
| HfTranscription.HfErrorKinds | AudioScribe/src/transcription/huggingface_api_speach_to_text.py:33-78 | a failure is always ValueError, IOError (OSError) or RuntimeError; the hub's HTTP error surfaces only when an export raised it, never from an API call |
| HfTranscription.LoggedChunkCountOverstates | AudioScribe/src/transcription/huggingface_api_speach_to_text.py:53-54 | the count logged for 45 s in 15 s pieces is 4, while 3 pieces are sent |
| HfTranscription.AnnouncedChunkCount | AudioScribe/src/transcription/huggingface_api_speach_to_text.py:53-56 | the corrected count equals the number of pieces the loop visits |
| HfTranscription.LoggedChunkCountIff | AudioScribe/src/transcription/huggingface_api_speach_to_text.py:53-56 | the logged count is right exactly when the piece length does not divide the audio length |
| HfTranscription.SendChunks | AudioScribe/src/transcription/huggingface_api_speach_to_text.py:56-69 | the loop gives the windows in order, up to and including the first failing one, a fresh temporary file each; every file holds its piece's export, or stays empty when the export raised; the recorded files are those of the pieces whose export worked; its texts and error equal the collection specification |
| HfTranscription.SendNext | AudioScribe/src/transcription/huggingface_api_speach_to_text.py:57-68 | one iteration draws the next piece's file and exports into it; a raising export ends the loop with its error and leaves the file unrecorded; otherwise the file is recorded and the call's result collected |
| HfTranscription.ExportForApi | AudioScribe/src/transcription/huggingface_api_speach_to_text.py:61-63 | one fresh temporary file per piece, holding the export, or empty when the export raised |
| HfTranscription.RecordedStep | AudioScribe/src/transcription/huggingface_api_speach_to_text.py:61-64 | after one more piece, all pieces so far were given a file, and the last is recorded unless its export raised |
| HfTranscription.RemoveTempFiles | AudioScribe/src/transcription/huggingface_api_speach_to_text.py:79-84 | the finally loop removes every recorded file that is not protected; missing and protected ones are passed over, and nothing else changes |
| HfTranscription.PiecesLeft | AudioScribe/src/transcription/huggingface_api_speach_to_text.py:61-84 | after the finally, the files are the earlier ones, plus the empty file of a piece whose export raised |
| HfTranscription.FinallyRemove | AudioScribe/src/transcription/huggingface_api_speach_to_text.py:79-84 | from the state the loop leaves, the finally leaves only the unrecorded file of a raising export |
| HfTranscription.TranscribePieces | AudioScribe/src/transcription/huggingface_api_speach_to_text.py:52-84 | the loop with its finally: the collection specification's texts and error, the pieces sent, and the files left |
| HfTranscription.HfTranscript | AudioScribe/src/transcription/huggingface_api_speach_to_text.py:28-85 | the result equals the specification; the pieces sent to the API are the windows up to the first failure, without a piece whose export raised; the only file left afterwards is the empty temporary file of such a piece; the log announces `len // L + 1` pieces, as written (floor division, either sign of L) |
| ScribeApi.BuildTimestampResponse | AudioScribe/main.py:25-27 | one item per segment, in order, each with the segment's text and (start, end) |
| ScribeApi.TimestampRoundTrip | AudioScribe/main.py:25-27 | the segments can be read back from the timestamp response |
| ScribeApi.Texts | AudioScribe/main.py:30-32 | the texts of the segments, in order |
| ScribeApi.TextOnlySplits | AudioScribe/main.py:30-32 | the text-only response splits at spaces back into the segment texts when these hold no space |
| ScribeApi.ResponseFor | AudioScribe/main.py:58-61 | `with_timestamps` selects exactly one of the two builders |
| ScribeApi.ChooseLanguage | AudioScribe/main.py:47 | a non-empty language is used as given, otherwise the server default |
| ScribeApi.StatusOf | AudioScribe/main.py:101-106 | ValueError gives 404, IOError (OSError and HfHubHTTPError) gives 400, anything else 500 |
| ScribeApi.ApiErrorReply | AudioScribe/main.py:101-106 | the status follows the exception kind; 404 and 400 carry the message, 500 carries it after "An unexpected error occurred: " |
| ScribeApi.LocalErrorReply | AudioScribe/main.py:70-71 | on the local endpoint every exception is 500 with the prefixed message |
| ScribeApi.LocalReply | AudioScribe/main.py:56-71 | a successful transcription gives the local body with the chosen response; any failure gives 500 |
| ScribeApi.ApiReply | AudioScribe/main.py:95-106 | success gives the text-only body; a failure gives the kind's status |
| ScribeApi.TempPathNonEmpty | AudioScribe/main.py:72-74 | a generated temporary path is never empty, so `finally` always removes it |
| ScribeApi.WithSavedUpload | AudioScribe/main.py:63-74 | the service sees the upload's bytes; the temporary copy is gone afterwards and nothing else changes |
| ScribeApi.TranscribeLocalEndpoint | AudioScribe/main.py:35-74 | the reply is the local reply for the chosen language and the service's result; the file system is as before |
| ScribeApi.TranscribeOpenAiEndpoint | AudioScribe/main.py:77-110 | without a key, 500 before any upload is saved; otherwise the reply for the service's result, with the temporary copy removed |
| ScribeApi.TranscribeHfEndpoint | AudioScribe/main.py:113-145 | without a token, 500 before any upload is saved; otherwise the reply for the service's result, with the temporary copy removed |
| ScribeFiles.PathName | AudioScribe/src/io/file_service.py:25 | `Path(filename).name`: the last component, never "." and free of `/` |
| ScribeFiles.SuffixShape | AudioScribe/src/io/file_service.py:25-26 | the suffix is "" or the name's ending from its last dot, with no further dot, and never the whole name |
| ScribeFiles.SuffixOfName | AudioScribe/src/io/file_service.py:25-26 | `dir/stem.ext` has suffix `.ext`, so "archive.tar.gz" gives ".gz" |
| ScribeFiles.NoDotNoSuffix | AudioScribe/src/io/file_service.py:25-26 | a name with no dot after its first character has no suffix |
| ScribeFiles.SafeSuffixFromFilename | AudioScribe/src/io/file_service.py:17-28 | an empty or None name gives ""; a string gives its `Path` suffix; a non-string gives "" |
| ScribeFiles.SaveUploadToTemp | AudioScribe/src/io/file_service.py:31-44 | a fresh temporary file with the upload's suffix holds exactly the upload's bytes |
| ScribeFiles.CleanupTempFile | AudioScribe/src/io/file_service.py:47-55 | removal is attempted exactly for an existing non-empty path; a failed removal leaves the files unchanged |
| Files.FileSystem.CreateTemp | AudioScribe/src/io/file_service.py:9-14 | `NamedTemporaryFile(delete=False)` makes a fresh empty file that is neither an existing nor a protected path |
| Files.FileSystem.Remove | AudioScribe/src/io/file_service.py:52-55 | `os.remove` succeeds exactly for an existing path whose removal is allowed, and deletes only it |
| Download.SplitScheme | AudioScribe/src/io/download_service.py:17-18 | the scheme is the lower-cased valid prefix before the first `:`, or empty with the whole URL left |
| Download.SplitNetloc | AudioScribe/src/io/download_service.py:17 | the netloc holds none of `/?#` |
| Download.NetlocEnd | AudioScribe/src/io/download_service.py:17 | the netloc ends at the first of `/?#`, or at the end of the text |
| Download.SplitOnce | AudioScribe/src/io/download_service.py:17 | split at the first occurrence of the character, which the head never contains; no occurrence leaves the whole text |
| Download.PathAndParams | AudioScribe/src/io/download_service.py:17 | `;` parameters are cut off the front of the path only when the path has a `;`; the path is always a prefix |
| Download.SchemeOfComposed | AudioScribe/src/io/download_service.py:17 | a lower-case valid scheme followed by `:` is read back as that scheme |
| Download.NetlocOfComposed | AudioScribe/src/io/download_service.py:17 | `//netloc/path` is read back as that netloc and path |
| Download.UrlParseParts | AudioScribe/src/io/download_service.py:17-18 | a parsed scheme has no capital; the netloc has no delimiter; the path has no `?` or `#` |
| Download.ParseComposed | AudioScribe/src/io/download_service.py:17 | `scheme://netloc/path` parses back into its parts |
| Download.DispatchIff | AudioScribe/src/io/download_service.py:18-62 | a bad URL fails; `file` or an empty scheme is local; `http`/`https` is remote; any other scheme is unsupported |
| Download.RouteIff | AudioScribe/src/io/download_service.py:17-62 | the same dispatch, stated for the URI text |
| Download.FtpUnsupported | AudioScribe/src/io/download_service.py:61-62 | an `ftp://` URI is unsupported |
| Download.RemoteRoute | AudioScribe/src/io/download_service.py:41-43 | an `http(s)://host/path` URI is fetched remotely, with its suffix taken from the path |
| Download.UnsupportedMessage | AudioScribe/src/io/download_service.py:62 | the message names the scheme |
| Download.CopyLocal | AudioScribe/src/io/download_service.py:20-39 | a missing source is ValueError "File not found: …" and creates nothing; otherwise a fresh temporary file holds the same bytes |
| Download.FetchRemote | AudioScribe/src/io/download_service.py:41-59 | a client error leaves the empty temporary file; a non-200 status removes it and raises ValueError with the status; a 200 writes the body into it |
| Download.DownloadToTemp | AudioScribe/src/io/download_service.py:10-62 | each route's outcome and file-system effect, as dispatched |
| LogFormat.WordEnd | AudioScribe/src/config/logging_config.py:11 | `\w+` from i: the longest run of word characters |
| LogFormat.Search | AudioScribe/src/config/logging_config.py:11 | the leftmost "- <word> -" match at or after `from`, or none |
| LogFormat.Center | AudioScribe/src/config/logging_config.py:15 | `str.center(8)`: a word of 8 or more is unchanged; a shorter one gets (8-n)/2 spaces on the left and the rest on the right |
| LogFormat.Splice | AudioScribe/src/config/logging_config.py:16 | the text outside the word is unchanged and the length grows by max(0, 8-n) |
| LogFormat.FormatLevel | AudioScribe/src/config/logging_config.py:6-17 | with no match the record is unchanged; otherwise only the leftmost match's word is centred |
| ForgeFiles.ExtDot | AudioForge/src/io/file_service.py:23 | the dot `splitext` splits at is the last dot of the path, in its last component |
| ForgeFiles.SplitExt | AudioForge/src/io/file_service.py:23 | the two halves make up the path; the extension is "" or a dot followed by no dot or `/` |
| ForgeFiles.GetFileExtension | AudioForge/src/io/file_service.py:18-24 | the lower-cased extension without its dot, or "" when there is none |
| ForgeFiles.ExtensionOfName | AudioForge/src/io/file_service.py:18-24 | `dir/stem.ext` has extension `ext` lower-cased |
| ForgeFiles.RetrieveExtension | AudioForge/src/io/file_service.py:38-39 | everything after the last dot, or the whole path when it has no dot |
| ForgeFiles.RemoveExtension | AudioForge/src/io/file_service.py:42-43 | everything before the last dot, or the whole name when it has no dot |
| ForgeFiles.ExtensionRoundTrip | AudioForge/src/io/file_service.py:38-43 | the two halves around the last dot give the path back |
| ForgeFiles.RemoveLastExtension | AudioForge/src/io/file_service.py:42-43 | only the final `.x` is stripped |
| ForgeFiles.BuildFilenameOf | AudioForge/src/io/file_service.py:27-35 | `prefix_base.ext`, for example "converted_audio.mp3" |
| ForgeFiles.SafeSuffixFromFilename | AudioForge/src/io/file_service.py:46-55 | agrees with AudioScribe's helper on every argument |
| ForgeFiles.TempSuffix | AudioForge/src/io/file_service.py:77-82 | an explicit suffix wins; no or empty extension gives ""; otherwise it starts with a dot |
| ForgeFiles.TempSuffixDot | AudioForge/src/io/file_service.py:79 | "mp3" and ".mp3" give the same ".mp3" |
| ForgeFiles.CreateTempPath | AudioForge/src/io/file_service.py:70-90 | a fresh name with the chosen suffix, and no file left behind |
| ForgeFiles.Given | AudioForge/src/io/file_service.py:98 | a path counts only when present and non-empty |
| ForgeFiles.Deletable | AudioForge/src/io/file_service.py:97-104 | only existing, removable paths are ever deleted |
| ForgeFiles.DeletableMeans | AudioForge/src/io/file_service.py:97-104 | a path is deleted exactly when it exists, is removable and is given somewhere in the list |
| ForgeFiles.CleanupPaths | AudioForge/src/io/file_service.py:93-104 | None, empty and missing paths are skipped, failures are ignored, and every other listed path is deleted |
| ForgeFiles.AudioTypesAreAudio | AudioForge/src/io/file_service.py:130-142 | every entry of the fallback table is an `audio/` type |
| ForgeFiles.GetMediaTypeFromPath | AudioForge/src/io/file_service.py:115-144 | an `audio/` guess is kept; otherwise the table entry for the lower-cased suffix, else "audio/octet-stream"; the result always starts with "audio/" |
| Analyzer.SameExtensionIgnoresCase | AudioForge/src/audio/analyzer.py:9-10 | the comparison is an equivalence and ignores the case of either side |
| Analyzer.RemoveLeadingDot | AudioForge/src/audio/analyzer.py:41-42 | exactly one leading dot is removed, and nothing otherwise |
| Analyzer.DotRoundTrip | AudioForge/src/audio/analyzer.py:41-42 | adding a dot and removing it gives the extension back |
| Analyzer.RateConversionIff | AudioForge/src/audio/analyzer.py:83-87 | resampling is needed iff the target is not 0 (preserve), the rate is known and it differs |
| Analyzer.CreateAudioMimeToExtensionMap | AudioForge/src/audio/analyzer.py:13-27 | the loop builds the specified map |
| Analyzer.MimeMapKeys | AudioForge/src/audio/analyzer.py:21-27 | a type is a key exactly when it is an `audio/` type of some pair of the table |
| Analyzer.MimeMapLastPair | AudioForge/src/audio/analyzer.py:22-25 | an `audio/` type is mapped to the dot-less extension of its last pair, a later pair overwriting an earlier one |
| Analyzer.LastPair | AudioForge/src/audio/analyzer.py:22-25 | every key's value comes from a pair of the table |
| Analyzer.ExtractFormat | AudioForge/src/audio/analyzer.py:67-80 | an empty or unmapped type gives ""; otherwise the dot-less extension of an `audio/` pair with that type |
| Analyzer.AudioInfo | AudioForge/src/audio/analyzer.py:45-64 | an unrecognised file or a probe exception gives (None, 0); otherwise the lower-cased format and the rate, defaulting to 0 |
| Analyzer.ConversionRequiredIff | AudioForge/src/audio/analyzer.py:90-105 | no conversion exactly when the probe recognises the file, the format matches ignoring case, and the rate needs no change |
| Analyzer.UnreadableIsConverted | AudioForge/src/audio/analyzer.py:96-97 | a file the probe cannot read is always converted |
| Forge.FfmpegConvertCmd | AudioForge/src/forge.py:32-45 | seven arguments: `ffmpeg -y -i in -ar rate out`, with the rate in decimal that reads back as the rate |
| Forge.SoxRemoveSilenceCmd | AudioForge/src/forge.py:48-73 | eleven arguments, `sox in out silence -l 1 d t -1 d t`, with the same duration and threshold at both ends |
| Forge.FailureDetail | AudioForge/src/forge.py:28 | the stripped stderr, or the stripped stdout when stderr is blank; empty only when both are |
| Forge.RunCommand | AudioForge/src/forge.py:16-29 | success iff the process completes; a failed command gives ForgeError "Command `argv[0]` failed: " followed by the detail; a program that cannot be found gives the uncaught FileNotFoundError (an OSError) naming it |
| Forge.EnvOf | AudioForge/src/forge.py:84 | the conversion decision is `is_conversion_required` on the probe's report |
| Forge.ConvertAudio | AudioForge/src/forge.py:76-96 | the method's result, commands and names drawn equal the conversion specification |
| Forge.ConvertOutcome | AudioForge/src/forge.py:84-96 | no command and the input path itself exactly when nothing needs changing; otherwise one FFmpeg run into a fresh name with the output format, succeeding iff that run completes |
| Forge.TempNameExtension | AudioForge/src/forge.py:89 | a fresh name made for a format has that format as its extension |
| Forge.TempNameLayout | AudioForge/src/forge.py:89 | the fresh name is the temporary directory, `/`, a decimal id, a dot and the format |
| Forge.RemoveSilence | AudioForge/src/forge.py:99-137 | the method's result, commands and names drawn equal the silence-removal specification |
| Forge.KeepsWav | AudioForge/src/forge.py:122-131 | without converting back, the result is the fresh WAV that SoX wrote, and SoX is the last command |
| Forge.RemoveSilenceIsWav | AudioForge/src/forge.py:128-131 | without converting back, a successful result is a fresh WAV name |
| Forge.ConvertsBack | AudioForge/src/forge.py:132-137 | converting back ends in a fresh name with the input's extension, or in the SoX output when it already has that format |
| Forge.ExtensionOrDefaultShape | AudioForge/src/forge.py:117 | the format converted back to is the input's extension, or `wav` when it has none, and is never empty |
| Forge.ProcessFull | AudioForge/src/forge.py:140-170 | the method's result, commands and names drawn equal `convert_audio` followed by `remove_silence` without converting back |
| Forge.ProcessFullIsWav | AudioForge/src/forge.py:160-170 | as written, the result is always a fresh WAV name, whatever output format was asked for |
| Forge.WavNameIsNotMp3 | AudioForge/src/forge.py:160-170 | that name's extension is `wav`, not the requested `mp3` |
| Forge.ProcessFullInFormatKeepsFormat | AudioForge/src/forge.py:140-156 | the corrected pipeline ends in the requested format |
| Markdown.VisitStepMeans | Orchestrator/src/main/java/com/lukk/ascend/ai/orchestrator/service/TitleExtractionVisitor.java:13-20 | a title once set never changes; other headings leave it unchanged; the first level-1 heading with a Text first child sets it to that literal |
| Markdown.FirstH1TextMeans | Orchestrator/src/main/java/com/lukk/ascend/ai/orchestrator/service/ingestion/TitleExtractionVisitor.java:15-22 | after a document, the title is the literal of the first qualifying heading, or null when there is none |
| Markdown.TitleExtractionVisitor.constructor | Orchestrator/src/main/java/com/lukk/ascend/ai/orchestrator/service/ingestion/TitleExtractionVisitor.java:12 | the title starts as null |
| Markdown.TitleExtractionVisitor.Visit | Orchestrator/src/main/java/com/lukk/ascend/ai/orchestrator/service/ingestion/TitleExtractionVisitor.java:15-22 | one visit updates the title by the visit rule |
| Markdown.ExtractTitle | Orchestrator/src/main/java/com/lukk/ascend/ai/orchestrator/service/ingestion/IngestionService.java:130-137 | visiting every heading in order leaves the first qualifying literal |
| Markdown.LegacyTitleKeepsName | Orchestrator/src/main/java/com/lukk/ai/orchestrator/config/IngestionPipelineConfig.java:223-233 | without a renaming heading, the title stays the file name |
| Markdown.LegacyTitleMeans | Orchestrator/src/main/java/com/lukk/ai/orchestrator/config/IngestionPipelineConfig.java:223-233 | the first renaming level-1 heading decides the title |
| Markdown.LegacyExtractTitle | Orchestrator/src/main/java/com/lukk/ai/orchestrator/config/IngestionPipelineConfig.java:223-236 | the older visitor loop computes the specified title |
| Ingestion.MarkdownTitleMeans | Orchestrator/src/main/java/com/lukk/ascend/ai/orchestrator/service/ingestion/IngestionService.java:74-78 | the title is the first level-1 heading's literal, or the file name when there is none or it is blank; it is never blank unless the name is |
| Ingestion.ProcessMarkdown | Orchestrator/src/main/java/com/lukk/ascend/ai/orchestrator/service/ingestion/IngestionService.java:70-92 | one document with the rendered text and source, title and type "markdown"; a read failure is an IngestionException naming the file |
| Ingestion.TextsEmptyIff | Orchestrator/src/main/java/com/lukk/ascend/ai/orchestrator/service/ingestion/IngestionService.java:143-151 | the joined text is empty exactly when no element carries a text |
| Ingestion.TextsAppear | Orchestrator/src/main/java/com/lukk/ascend/ai/orchestrator/service/ingestion/IngestionService.java:145-149 | every element's text appears in the joined text, followed by the separator |
| Ingestion.CollectTexts | Orchestrator/src/main/java/com/lukk/ascend/ai/orchestrator/service/ingestion/IngestionService.java:144-149 | the StringBuilder loop builds the specified joined text |
| Ingestion.UnstructuredDocIff | Orchestrator/src/main/java/com/lukk/ascend/ai/orchestrator/service/ingestion/IngestionService.java:151-156 | an array yields one document iff some element carries a text, and that document contains every text |
| Ingestion.ParseUnstructuredResponse | Orchestrator/src/main/java/com/lukk/ascend/ai/orchestrator/service/ingestion/IngestionService.java:139-162 | a parse error is an IngestionException; a non-array root gives no document; an array gives its joined document or none |
| Ingestion.ProcessUnstructured | Orchestrator/src/main/java/com/lukk/ascend/ai/orchestrator/service/ingestion/IngestionService.java:101-117 | a failed exchange or a null body escapes; succeeds iff the body parses |
| Pipeline.RoutedFilename | Orchestrator/src/main/java/com/lukk/ascend/ai/orchestrator/config/IngestionPipelineConfig.java:170-174 | the remote-file header, else the fallback header |
| Pipeline.RouteFileIff | Orchestrator/src/main/java/com/lukk/ascend/ai/orchestrator/config/IngestionPipelineConfig.java:169-192 | no name routes to null; a lower-cased `.md` name or one containing the obsidian folder routes to Markdown, before the documents check; else one containing the documents folder routes to Unstructured; else null |
| Pipeline.FallbackIsRemoteFile | Orchestrator/src/main/java/com/lukk/ascend/ai/orchestrator/config/IngestionPipelineConfig.java:170-174 | the fallback lookup never changes the name read |
| Pipeline.LegacyRoute | Orchestrator/src/main/java/com/lukk/ai/orchestrator/config/IngestionPipelineConfig.java:142-150 | a path containing `obsidian` routes to Markdown; else `documents` routes to Unstructured; else null |
| Pipeline.TransformFilename | Orchestrator/src/main/java/com/lukk/ascend/ai/orchestrator/config/IngestionPipelineConfig.java:217 | the remote-file header, or the default name |
| Pipeline.ProcessMarkdownMessage | Orchestrator/src/main/java/com/lukk/ascend/ai/orchestrator/config/IngestionPipelineConfig.java:215-222 | the service's document under the header name or "unknown.md"; a failure becomes an IngestionException of the Markdown stream |
| Pipeline.ProcessUnstructuredMessage | Orchestrator/src/main/java/com/lukk/ascend/ai/orchestrator/config/IngestionPipelineConfig.java:245-252 | the service's documents under the header name or "unknown"; a failure becomes an IngestionException of the Unstructured stream |
| Pipeline.JavaFileName | Orchestrator/src/main/java/com/lukk/ai/orchestrator/config/IngestionPipelineConfig.java:218 | `File.getName()`: a slash-free ending of the path |
| Pipeline.LegacyMarkdownDocument | Orchestrator/src/main/java/com/lukk/ai/orchestrator/config/IngestionPipelineConfig.java:236-243 | source is the file name, type "markdown", and the older title |
| Pipeline.LegacyProcessMarkdown | Orchestrator/src/main/java/com/lukk/ai/orchestrator/config/IngestionPipelineConfig.java:213-253 | an unreadable file fails; otherwise one titled document; the local file is deleted either way |
| Pipeline.LegacyText | Orchestrator/src/main/java/com/lukk/ai/orchestrator/config/IngestionPipelineConfig.java:275-286 | an array's texts, each followed by a blank line; another value's own text with no separator |
| Pipeline.LegacyProcessUnstructured | Orchestrator/src/main/java/com/lukk/ai/orchestrator/config/IngestionPipelineConfig.java:255-303 | exactly one document iff the file, exchange and parse succeed, any failure being one RuntimeException; the local file is deleted either way |
| Documents.Without | Orchestrator/src/main/java/com/lukk/ascend/ai/orchestrator/service/DocumentService.java:49-52 | filtering by source never adds documents |
| Documents.WithoutMeans | Orchestrator/src/main/java/com/lukk/ascend/ai/orchestrator/service/DocumentService.java:49-52 | the delete removes exactly the documents of that source |
| Documents.WithoutIdempotent | Orchestrator/src/main/java/com/lukk/ascend/ai/orchestrator/service/DocumentService.java:49-52 | deleting twice is deleting once, and deleting an absent source changes nothing |
| Documents.WithoutAppend | Orchestrator/src/main/java/com/lukk/ascend/ai/orchestrator/service/DocumentService.java:49-52 | the delete keeps the order of the remaining documents |
| Documents.VectorStore.DeleteBySource | Orchestrator/src/main/java/com/lukk/ascend/ai/orchestrator/service/DocumentService.java:49-52 | the store loses exactly that source's documents, and the delete is recorded |
| Documents.VectorStore.Add | Orchestrator/src/main/java/com/lukk/ascend/ai/orchestrator/config/IngestionPipelineConfig.java:208-211 | the document is appended |
| Documents.SourceToRemove | Orchestrator/src/main/java/com/lukk/ascend/ai/orchestrator/service/DocumentService.java:42-47 | a source exactly when the list is present and non-empty and the first document's source is a string |
| Documents.RemoveOldDocuments | Orchestrator/src/main/java/com/lukk/ascend/ai/orchestrator/service/DocumentService.java:41-54 | a null or empty list, or a non-string source, issues no delete; otherwise one delete of the first document's source |
| Documents.LegacyRemoveOldDocuments | Orchestrator/src/main/java/com/lukk/ai/orchestrator/config/IngestionPipelineConfig.java:197-211 | the same delete rule; a source that is not a string is a ClassCastException |
| Documents.IndexChunks | Orchestrator/src/main/java/com/lukk/ascend/ai/orchestrator/config/IngestionPipelineConfig.java:197-213 | the old documents of the source are removed, then every chunk is added in order |
| Documents.ReindexReplaces | Orchestrator/src/main/java/com/lukk/ascend/ai/orchestrator/config/IngestionPipelineConfig.java:197-213 | re-ingesting a file replaces its earlier version |
| Documents.AllFromVanishes | Orchestrator/src/main/java/com/lukk/ascend/ai/orchestrator/service/DocumentService.java:49-52 | deleting a source empties a list of its own documents |
| Upload.ObjectStore.PutObject | Orchestrator/src/main/java/com/lukk/ai/orchestrator/controller/IngestionController.java:44-48 | one object is stored under the bucket and key |
| Upload.DetermineFolder | Orchestrator/src/main/java/com/lukk/ascend/ai/orchestrator/controller/IngestionController.java:71-77 | a case-sensitive `.md` name gets the obsidian folder plus `/`; anything else, null included, the documents folder plus `/` |
| Upload.DefaultFolderKey | Orchestrator/src/main/java/com/lukk/ascend/ai/orchestrator/controller/IngestionController.java:35-39 | with the default folders a key has a double slash |
| Upload.UploadDocument | Orchestrator/src/main/java/com/lukk/ascend/ai/orchestrator/controller/IngestionController.java:47-63 | an empty file is 400 and stores nothing; an IOException is 500; otherwise exactly one object, stored under the key, and "File uploaded to: " + key |
| Upload.MarkdownUploadIsMarkdown | Orchestrator/src/main/java/com/lukk/ascend/ai/orchestrator/controller/IngestionController.java:53-54 | an uploaded `.md` file reaches the Markdown flow |
| Upload.DocumentUploadIsUnstructured | Orchestrator/src/main/java/com/lukk/ascend/ai/orchestrator/controller/IngestionController.java:53-54 | any other upload lands under the documents folder and reaches the Unstructured flow |
| Upload.UpperCaseMarkdownCrossesOver | Orchestrator/src/main/java/com/lukk/ascend/ai/orchestrator/controller/IngestionController.java:71-77 | "notes.MD" is stored under documents but routed to Markdown |
| Upload.LegacyKey | Orchestrator/src/main/java/com/lukk/ai/orchestrator/controller/IngestionController.java:35-42 | "obsidian/" + name for `.md`, "documents/" + name otherwise, "documents/null" without a name |
| Upload.LegacyUploadDocument | Orchestrator/src/main/java/com/lukk/ai/orchestrator/controller/IngestionController.java:28-54 | an empty file is 400; a stream IOException is 500; an S3 failure escapes; otherwise one object in `knowledge-base` and "File uploaded to S3: " + key |
| Upload.LegacyMarkdownUploadIsMarkdown | Orchestrator/src/main/java/com/lukk/ai/orchestrator/controller/IngestionController.java:38-39 | a legacy `.md` upload reaches the older Markdown flow |
| Upload.LegacyObsidianNamedDocument | Orchestrator/src/main/java/com/lukk/ai/orchestrator/controller/IngestionController.java:40-42 | "obsidian.pdf" is stored as a document but routed to Markdown |
| Weather.Language | WeatherMCP/src/main/java/com/lukk/ascend/ai/mcp/weather/service/WeatherToolService.java:25 | the language, or "en" when it is null or empty |
| Weather.TemperatureUnit | WeatherMCP/src/main/java/com/lukk/ascend/ai/mcp/weather/service/WeatherToolService.java:52 | "fahrenheit" iff the unit equals it ignoring case; "celsius" otherwise, null included |
| Weather.ParamTexts | WeatherMCP/src/main/java/com/lukk/ascend/ai/mcp/weather/service/WeatherToolService.java:37-43 | one `name=value` text per parameter, in order |
| Weather.GeocodingQueryRoundTrip | WeatherMCP/src/main/java/com/lukk/ascend/ai/mcp/weather/service/WeatherToolService.java:37-43 | the geocoding query splits back into name, count=1, language and format=json |
| Weather.ForecastUnitLast | WeatherMCP/src/main/java/com/lukk/ascend/ai/mcp/weather/service/WeatherToolService.java:53-59 | the forecast URL ends with the chosen unit |
| Weather.GetCurrentWeather | WeatherMCP/src/main/java/com/lukk/ascend/ai/mcp/weather/service/WeatherToolService.java:21-65 | a geocoding request that throws ends the call with its RestClientException and no forecast call; with no usable match, "City not found: " + city and no forecast call; otherwise the first match's forecast body, unchanged, or the forecast request's exception |
| WeatherStub.GetCurrentWeather | MCP/src/main/java/com/lukk/ai/mcp/service/WeatherToolService.java:12-17 | (117, "solar apocalypse") iff the location contains "warsaw" ignoring case; (0, "whatever") otherwise, null included |
| WeatherStub.StubIgnoresCase | MCP/src/main/java/com/lukk/ai/mcp/service/WeatherToolService.java:13 | the answer ignores the case of the location |
| WeatherStub.WarsawAnywhere | MCP/src/main/java/com/lukk/ai/mcp/service/WeatherToolService.java:13-14 | any location mentioning Warsaw matches, for example "Warsaw, Poland" |
| Categorization.CleanShape | categorization.py:30 | a piece gives at most one category: none when blank, else it stripped and lower-cased |
| Categorization.CleanAllShape | categorization.py:30 | the cleaned list keeps only non-blank, stripped, lower-case items |
| Categorization.CleanAllAppend | categorization.py:30 | cleaning preserves the order of the pieces |
| Categorization.ParseCategoriesShape | categorization.py:30 | at most commas + 1 categories, each non-blank, stripped, lower-case and comma-free; none iff every piece is blank |
| Categorization.ParseCategoriesOfJoin | categorization.py:30 | comma-joined pieces parse to their cleaned forms, in order |
| Categorization.ParseCategoriesSingle | categorization.py:30 | a reply without a comma is one cleaned piece |
| Categorization.BlankReplyGivesNone | categorization.py:30 | a reply of only commas gives no category |
| Categorization.Fallback | categorization.py:33-35 | exactly ["uncategorized"] |
| Categorization.CategoriesFor | categorization.py:28-35 | an exception or a None content gives the fallback; content gives its parse |
| Categorization.MemoryRequest | categorization.py:16-26 | the fixed model, temperature 0, the system prompt and the memory as user message |
| Categorization.GetCategoriesForMemory | categorization.py:14-35 | the parse of the model's reply, or the fallback on any exception |
| OpenMemoryCategorization.ModelName | OpenMemory/categorization.py:22 | LLM_MODEL when set, else "meta-llama-3.1-8b-instruct" |
| OpenMemoryCategorization.GetCategoriesForMemory | OpenMemory/categorization.py:14-38 | the parse of the reply to the configured model, or the fallback on any exception |
| OpenMemoryCategorization.SameAsFixedModel | OpenMemory/categorization.py:22 | without LLM_MODEL it behaves as the fixed-model version |
| Duration.DurationFields | BitScribe/src/transcription/speech_to_text.py:67-69 | minutes and seconds lie in [0, 60); h·3600 + m·60 + s is the whole seconds; hours are non-negative for a non-negative interval |
| Duration.FieldsUnique | BitScribe/src/transcription/speech_to_text.py:67-69 | those fields are the only ones with that property |
| Duration.Field | BitScribe/src/transcription/speech_to_text.py:71 | at least two characters; a non-negative field is zero-padded |
| Duration.CalculateDurationReadsBack | BitScribe/src/transcription/speech_to_text.py:63-71 | "Duration: " then three digit fields separated by `:`, of at least 2, exactly 2 and exactly 2 digits, reading back as the whole seconds |
| Duration.NinetyMinutes | BitScribe/src/transcription/speech_to_text.py:67-69 | 5400.5 s gives 1:30:00 |
| Duration.NegativeDuration | BitScribe/src/transcription/speech_to_text.py:67-69 | -1.5 s gives -1:59:58, by floor division |
| Decimal.NatToStringValue | AudioForge/src/forge.py:43 | `str(n)` reads back as n |
| Decimal.ParseNatToString | AudioForge/src/forge.py:43 | parsing `str(n)` gives n |
| Decimal.NatToStringInjective | AudioForge/src/forge.py:43 | different rates give different texts |
| Decimal.NatToString | AudioForge/src/forge.py:43 | `str(n)`: a non-empty run of digits without a leading zero, one digit below 10 and two below 100 |
| Decimal.Pad2 | BitScribe/src/transcription/speech_to_text.py:71 | `{:02}`: at least two digits, exactly two below 100 |
| Decimal.Pad2Value | BitScribe/src/transcription/speech_to_text.py:71 | `{:02}` reads back as the number |
| PatchConfig.MarkerLinesMeans | patch_config.py:12 | exactly the marker lines' indices, increasing |
| PatchConfig.MarkerLines | patch_config.py:12 | every index found is a line of the file |
| PatchConfig.FindMarkerLines | patch_config.py:12 | the comprehension's loop finds exactly the marker lines |
| PatchConfig.InsertAfter | patch_config.py:13 | `lines.insert(idx + 1, block)`: earlier lines and the marker line unchanged, the block next, later lines shifted by one, one line longer |
| PatchConfig.PatchedAt | patch_config.py:12-13 | the block goes after the first marker line |
| PatchConfig.PatchedMeans | patch_config.py:12-18 | nothing to patch iff no line holds the marker; otherwise the insertion after the first one |
| PatchConfig.PatchTwice | patch_config.py:12-13 | patching twice inserts the block twice |
| PatchConfig.Disk.Write | patch_config.py:14 | the file's lines are replaced |
| PatchConfig.Run | patch_config.py:1-18 | a missing file exits 1 before reading; no marker exits 1 and writes nothing; otherwise exits 0 with the patched lines written |

## Left out

- Concurrency: the process pool of the local stream and the Spring executor channels. The pieces are modelled strictly in order, which is also the order they are awaited in.
- Floating point: timestamps are `real` seconds, BitScribe durations are integer microseconds, and rates and sizes are integers.
- The engines and libraries are uninterpreted parameters of the model. These are faster-whisper, the Hugging Face and OpenAI clients, pydub, mutagen, `mimetypes`, FFmpeg, SoX, commonmark parsing and rendering, Jackson, `TokenTextSplitter`, the S3 client and the LLM client.
- LocalTranscription.LocalSpeechTranscriptionStream: an export failure of a piece is not modelled, because pydub's export is an uninterpreted byte producer here.
- LocalTranscription.LocalSpeechTranscriptionStream: no other process removes or protects a piece's file while the stream runs, so the `OSError` its cleanup passes over cannot arise there. Temporary paths are never protected, because protection is given to caller-named paths only and never changes. Chunking.RemoveChunkFile and LocalTranscription.AwaitChunks state the case where that removal fails.
- HfTranscription.HfTranscript: for the same reason the `OSError` that the `finally` passes over cannot arise there; HfTranscription.RemoveTempFiles states the case where a removal fails.
- HfTranscription.ExportForApi: the bytes an export may already have written before it raised are not modelled. The file is left as `NamedTemporaryFile` created it, empty.
- Files.Path: a caller-named path whose text equals a generated temporary name, such as `/tmp/tmp3.wav` for the temporary file numbered 3, is a different path in the model. A caller's file that aliases a fresh temporary file is therefore not modelled.
- Forge.ConvertAudio, Forge.RemoveSilence, Forge.ProcessFull: the files FFmpeg and SoX write are not modelled, because their contents are produced by external tools. Only the names drawn and the commands run are.
- Download.DownloadToTemp: `url2pathname`'s percent-decoding is a parameter. `urlsplit`'s stripping of control characters and its port validation are not modelled.
- Download: the module imports `create_temp_file` and `safe_suffix_from_filename`, which `file_service.py` does not define. The model uses the underscore helpers it does define.
- Text.Lower, Text.Strip, Text.EqualsIgnoreCase: ASCII case and whitespace only, because Unicode case tables are not part of this model. Java's `equalsIgnoreCase` also matches letters such as the dotless ı to their ASCII partners, so Weather.TemperatureUnit takes "fahrenheıt" for celsius where Java takes it for fahrenheit. The same holds for `\w` in LogFormat.WordEnd.
- Weather.GetCurrentWeather: coordinates are the text Java renders for them, not `double` values. `build()` does not URL-encode, so neither does the model.
- Documents.IndexChunks: the chunks are a parameter, because `splitDocuments` is `TokenTextSplitter`.
- The Spring wiring itself is not modelled: flows, pollers, S3 inbound sources, the metadata store and `initBucket`. The `last_modified` clock is a parameter.
- A `ClassCastException` of a non-string header value is not modelled; header values are strings.
- Categorization.GetCategoriesForMemory: `re.split(r",", …)` is modelled as a split at the literal comma. An empty `choices` list is folded into the raised exception.
- Duration.CalculateDuration: `total_seconds()` float rounding is not modelled, because the interval is exact integer microseconds. The `datetime.now()` clocks are parameters.
- PatchConfig.Run: `readlines` and `writelines` are a list of lines, and the messages `print` shows are returned. The split of file text into lines is not modelled.
- Logging, `print_file_info`, `ensure_parent_dir`, `get_supported_audio_formats` and `get_audio_duration` are left out. They only log, create directories or report.
- `mimetypes.init` is left out; its table is a parameter.
- AudioForge `forge.py` imports `src.constants`, while the constants live in `src/config/constants.py`. The model uses those values.
- ScribeApi: `scribe.py` does not accept the `language` and `provider` arguments that `main.py` passes, so the transcription services are parameters of the endpoints.
- The settings `TRANSCRIPTION_LANGUAGE` and `HF_CHUNK_LENGTH_SECONDS` are not defined in the settings module, so they are parameters. `HF_CHUNK_LENGTH_SECONDS` is any integer, zero and negative values included.

## Findings

| source | as written | input that shows it | evidently intended | confidence | as-written member | corrected member |
|---|---|---|---|---|---|---|
| AudioScribe/src/transcription/huggingface_api_speach_to_text.py:53-54 | the logged piece count is `len // L + 1` | 45 s of audio in 15 s pieces: 4 logged, 3 sent | the number of pieces the loop visits, ceil(len / L) | not executed | HfTranscription.LoggedChunkCountOverstates | HfTranscription.LoggedChunkCountIff |
| AudioForge/src/forge.py:160-170 | `process_full` returns the trimmed WAV from `remove_silence(convert_back=False)` | output_format "mp3": the result ends in `.wav` | the result is in the requested "final output format" | not executed | Forge.ProcessFullIsWav | Forge.ProcessFullInFormatKeepsFormat |
