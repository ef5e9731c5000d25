/**
 * AudioForge's conversion decision: what the audio probe (mutagen, with the
 * `mimetypes` table read backwards) reports about a file, and whether the
 * file must be re-encoded to reach a target format and sample rate.
 */
module Analyzer {
  import opened Wrappers
  import opened Text

  /** `PRESERVE_SAMPLE_RATE`: a target rate of 0 keeps the file's own rate. */
  const PreserveSampleRate: int := 0

  const AudioMimePrefix := "audio/"

  /** `_is_same_extension`: equality after lower-casing both sides. */
  predicate IsSameExtension(inputExt: string, outputFormat: string) {
    Lower(inputExt) == Lower(outputFormat)
  }

  lemma LowerTwice(s: string)
    ensures Lower(Lower(s)) == Lower(s)
  {
  }

  /** Extension comparison is an equivalence that ignores the case of either side. */
  lemma {:induction false} SameExtensionIgnoresCase(a: string, b: string, c: string)
    ensures IsSameExtension(a, a)
    ensures IsSameExtension(a, b) ==> IsSameExtension(b, a)
    ensures IsSameExtension(a, b) && IsSameExtension(b, c) ==> IsSameExtension(a, c)
    ensures IsSameExtension(a, b) <==> IsSameExtension(Lower(a), b)
    ensures IsSameExtension(a, b) <==> IsSameExtension(a, Lower(b))
  {
    LowerTwice(a);
    LowerTwice(b);
  }

  /** `remove_leading_dot`: exactly one leading `.` is dropped. */
  function RemoveLeadingDot(ext: string): (r: string)
    ensures StartsWith(ext, ".") ==> "." + r == ext
    ensures !StartsWith(ext, ".") ==> r == ext
  {
    if StartsWith(ext, ".") then ext[1..] else ext
  }

  /** Adding a dot and removing it again gives back the extension, even one that starts with a dot. */
  lemma DotRoundTrip(e: string)
    ensures RemoveLeadingDot("." + e) == e
  {
    assert StartsWith("." + e, ".");
    assert ("." + e)[1..] == e;
  }

  /** `_sample_rate_conversion_needed`. */
  predicate SampleRateConversionNeeded(actualRate: int, targetRate: int) {
    if targetRate == PreserveSampleRate then false
    else actualRate != 0 && actualRate != targetRate
  }

  /**
   * Resampling is never asked for when the target is "preserve", nor when the
   * file is already at the target rate or its rate is unknown (0); for any
   * other pair it is.
   */
  lemma RateConversionIff(actualRate: int, targetRate: int)
    ensures SampleRateConversionNeeded(actualRate, targetRate) <==>
      targetRate != 0 && actualRate != 0 && actualRate != targetRate
    ensures !SampleRateConversionNeeded(actualRate, PreserveSampleRate)
    ensures !SampleRateConversionNeeded(targetRate, targetRate)
  {
  }

  /** A pair of the `mimetypes.types_map` table: extension (with its dot) and MIME type. */
  type TypesMap = seq<(string, string)>

  /**
   * The dictionary that `_create_audio_mime_to_extension_map` builds from the
   * table read in order: every `audio/` type is mapped to its extension
   * without the dot, a later pair overwriting an earlier one.
   */
  function MimeMap(items: TypesMap): map<string, string>
    decreases |items|
  {
    if items == [] then map[]
    else
      var m := MimeMap(items[..|items| - 1]);
      var (ext, mime) := items[|items| - 1];
      if StartsWith(mime, AudioMimePrefix) then m[mime := RemoveLeadingDot(ext)] else m
  }

  /** `_create_audio_mime_to_extension_map`: the loop over the table. */
  method CreateAudioMimeToExtensionMap(items: TypesMap) returns (mimeToExt: map<string, string>)
    ensures mimeToExt == MimeMap(items)
  {
    mimeToExt := map[];
    var i := 0;
    while i < |items|
      invariant 0 <= i <= |items|
      invariant mimeToExt == MimeMap(items[..i])
    {
      var (ext, mimeType) := items[i];
      assert items[..i + 1][..i] == items[..i];
      if StartsWith(mimeType, AudioMimePrefix) {
        var cleanExt := RemoveLeadingDot(ext);
        mimeToExt := mimeToExt[mimeType := cleanExt];
      }
      i := i + 1;
    }
    assert items[..|items|] == items;
  }

  /** The keys of the map are exactly the `audio/` types of the table. */
  lemma {:induction false} MimeMapKeys(items: TypesMap, mime: string)
    ensures mime in MimeMap(items) <==>
      StartsWith(mime, AudioMimePrefix) && exists i :: 0 <= i < |items| && items[i].1 == mime
    decreases |items|
  {
    if items != [] {
      var init := items[..|items| - 1];
      var n := |items| - 1;
      MimeMapKeys(init, mime);
      if exists i :: 0 <= i < |init| && init[i].1 == mime {
        var i :| 0 <= i < |init| && init[i].1 == mime;
        assert items[i] == init[i];
      }
      if exists i :: 0 <= i < |items| && items[i].1 == mime {
        var i :| 0 <= i < |items| && items[i].1 == mime;
        if i < n {
          assert init[i] == items[i];
        }
      }
    }
  }

  /**
   * An `audio/` type whose pair is the last one with that type is mapped to
   * that pair's extension without the dot.
   */
  lemma {:induction false} MimeMapLastPair(items: TypesMap, i: nat)
    requires i < |items| && StartsWith(items[i].1, AudioMimePrefix)
    requires forall j :: i < j < |items| ==> items[j].1 != items[i].1
    ensures items[i].1 in MimeMap(items) && MimeMap(items)[items[i].1] == RemoveLeadingDot(items[i].0)
    decreases |items|
  {
    var n := |items| - 1;
    if i < n {
      var init := items[..n];
      assert init[i] == items[i];
      MimeMapLastPair(init, i);
    }
  }

  /** What the probe makes of a file: not audio (`None`), an exception, or the file's MIME types and rate. */
  datatype Probe = NotAudio | ProbeFailed | Audio(mimes: seq<string>, sampleRate: Option<int>)

  /**
   * `_extract_format_from_mime_with_mimetypes`: "" for an empty or unknown
   * type, else the extension the map holds for it.
   */
  function ExtractFormat(mimeType: string, items: TypesMap): (r: string)
    ensures mimeType == "" || mimeType !in MimeMap(items) ==> r == ""
    ensures r != "" ==>
      StartsWith(mimeType, AudioMimePrefix) &&
      exists i :: 0 <= i < |items| && items[i].1 == mimeType && r == RemoveLeadingDot(items[i].0)
  {
    var m := MimeMap(items);
    if mimeType == "" then ""
    else if mimeType in m then
      MimeMapKeys(items, mimeType);
      LastPair(items, mimeType);
      m[mimeType]
    else ""
  }

  /** An `audio/` type of the table has a last pair, and the map holds that pair's extension. */
  lemma {:induction false} LastPair(items: TypesMap, mime: string)
    requires mime in MimeMap(items)
    ensures exists i :: 0 <= i < |items| && items[i].1 == mime && MimeMap(items)[mime] == RemoveLeadingDot(items[i].0)
    decreases |items|
  {
    var init := items[..|items| - 1];
    var last := |items| - 1;
    if items[last].1 == mime && StartsWith(mime, AudioMimePrefix) {
      assert MimeMap(items)[mime] == RemoveLeadingDot(items[last].0);
    } else {
      assert mime in MimeMap(init) && MimeMap(items)[mime] == MimeMap(init)[mime];
      LastPair(init, mime);
      var i :| 0 <= i < |init| && init[i].1 == mime && MimeMap(init)[mime] == RemoveLeadingDot(init[i].0);
      assert items[i] == init[i];
    }
  }

  /** The first MIME type mutagen reports, or "". */
  function FirstMime(mimes: seq<string>): string {
    if mimes != [] then mimes[0] else ""
  }

  /**
   * `_get_audio_info_mutagen`: `(None, 0)` when the file is not recognised or
   * the probe raises; otherwise the lower-cased format read from the first
   * MIME type and the reported rate, 0 when the stream has none.
   */
  function AudioInfo(probe: Probe, items: TypesMap): (r: (Option<string>, int))
    ensures !probe.Audio? ==> r == (None, 0)
    ensures probe.Audio? ==> r.0 == Some(Lower(ExtractFormat(FirstMime(probe.mimes), items)))
    ensures probe.Audio? ==> r.1 == probe.sampleRate.GetOr(PreserveSampleRate)
    ensures r.0.Some? ==> forall k :: 0 <= k < |r.0.value| ==> !IsUpper(r.0.value[k])
  {
    match probe
    case Audio(mimes, rate) =>
      var formatName := ExtractFormat(FirstMime(mimes), items);
      (Some(Lower(formatName)), rate.GetOr(PreserveSampleRate))
    case _ => (None, 0)
  }

  /** `is_conversion_required` on the probe's report for the input file. */
  predicate IsConversionRequired(probe: Probe, items: TypesMap, outputFormat: string, targetRate: int) {
    var (actualFormat, actualRate) := AudioInfo(probe, items);
    if actualFormat.None? then true
    else if !IsSameExtension(actualFormat.value, outputFormat) then true
    else SampleRateConversionNeeded(actualRate, targetRate)
  }

  /**
   * A file is left alone exactly when the probe recognised it, its format
   * equals the wanted one ignoring case, and its rate needs no change.
   */
  lemma ConversionRequiredIff(probe: Probe, items: TypesMap, outputFormat: string, targetRate: int)
    ensures !IsConversionRequired(probe, items, outputFormat, targetRate) <==>
      && probe.Audio?
      && Lower(ExtractFormat(FirstMime(probe.mimes), items)) == Lower(outputFormat)
      && (targetRate == 0 || probe.sampleRate.GetOr(0) == 0 || probe.sampleRate.GetOr(0) == targetRate)
  {
    if probe.Audio? {
      LowerTwice(ExtractFormat(FirstMime(probe.mimes), items));
    }
  }

  /** A file the probe cannot read is always converted, whatever the target. */
  lemma UnreadableIsConverted(items: TypesMap, outputFormat: string, targetRate: int)
    ensures IsConversionRequired(NotAudio, items, outputFormat, targetRate)
    ensures IsConversionRequired(ProbeFailed, items, outputFormat, targetRate)
  {
  }
}
