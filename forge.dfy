/**
 * AudioForge's processing steps: the FFmpeg and SoX argument vectors, the
 * error raised when a command fails, and the way `convert_audio`,
 * `remove_silence` and `process_full` chain probes, fresh temporary paths
 * and command runs. The probe and the command runner are oracles; each
 * step is a method over the file system, specified by a function that
 * gives its result, the commands it runs in order, and how many temporary
 * names it draws.
 */
module Forge {
  import opened Wrappers
  import opened Errors
  import opened Text
  import Decimal
  import opened Files
  import opened ForgeFiles
  import opened Analyzer

  const WaveFormat := "wav"
  const DefaultFormat := WaveFormat
  const DefaultSilenceDuration := "0.5"
  const DefaultSilenceThreshold := "0.05"

  /**
   * `_ffmpeg_convert_cmd`: seven arguments, the input after `-i`, the rate
   * in decimal after `-ar` and the output last.
   */
  function FfmpegConvertCmd(inputPath: string, sampleRate: int, outputPath: string): (cmd: seq<string>)
    ensures |cmd| == 7 && cmd[0] == "ffmpeg" && cmd[3] == inputPath && cmd[6] == outputPath
    ensures cmd[2] == "-i" && cmd[4] == "-ar"
    ensures sampleRate >= 0 ==> Decimal.ParseNat(cmd[5]) == Some(sampleRate)
  {
    Decimal.ParseNatToString(if sampleRate >= 0 then sampleRate else 0);
    ["ffmpeg", "-y", "-i", inputPath, "-ar", Decimal.IntToString(sampleRate), outputPath]
  }

  /**
   * `_sox_remove_silence_cmd`: eleven arguments; the same duration and
   * threshold are used for trimming the start (after `-l 1`) and the end
   * (after `-1`).
   */
  function SoxRemoveSilenceCmd(inputPath: string, outputPath: string, silenceDuration: string, silenceThreshold: string): (cmd: seq<string>)
    ensures |cmd| == 11 && cmd[0] == "sox" && cmd[1] == inputPath && cmd[2] == outputPath
    ensures cmd[3] == "silence" && cmd[4] == "-l" && cmd[5] == "1" && cmd[8] == "-1"
    ensures cmd[6] == cmd[9] == silenceDuration && cmd[7] == cmd[10] == silenceThreshold
  {
    ["sox", inputPath, outputPath, "silence", "-l", "1", silenceDuration, silenceThreshold, "-1", silenceDuration, silenceThreshold]
  }

  /**
   * What `subprocess.run(..., check=True)` does: completes, raises
   * `CalledProcessError` with the captured output, or cannot start the
   * program at all because no executable of that name is found.
   */
  datatype RunOutcome = Completed | Failed(stdout: string, stderr: string) | Missing

  /**
   * The detail of a failed command: the stripped error output, or the stripped
   * standard output when the error output is blank. It is blank only when
   * both are.
   */
  function FailureDetail(stdout: string, stderr: string): (d: string)
    ensures !AllSpace(stderr) ==> d == Strip(stderr)
    ensures AllSpace(stderr) ==> d == Strip(stdout)
    ensures d == "" <==> AllSpace(stderr) && AllSpace(stdout)
  {
    StripEmptyIff(stderr);
    StripEmptyIff(stdout);
    if Strip(stderr) != "" then Strip(stderr) else Strip(stdout)
  }

  function FailurePrefix(program: string): string {
    "Command `" + program + "` failed: "
  }

  /** The `FileNotFoundError` that `subprocess` raises for a program it cannot find. */
  function MissingProgramMessage(program: string): string {
    "[Errno 2] No such file or directory: '" + program + "'"
  }

  /**
   * `_run_command`: nothing on success; a failed command becomes a
   * `ForgeError` naming the program, `argv[0]`, followed by the failure
   * detail; a program that cannot be found is not caught, so its
   * `FileNotFoundError` (an `OSError`) passes through.
   */
  function RunCommand(cmd: seq<string>, run: seq<string> -> RunOutcome): (r: Result<(), Error>)
    requires cmd != []
    ensures r.Success? <==> run(cmd).Completed?
    ensures run(cmd).Failed? ==> r.Failure? && r.error.kind == ForgeError && StartsWith(r.error.message, FailurePrefix(cmd[0]))
    ensures run(cmd).Failed? ==>
      r.error.message[|FailurePrefix(cmd[0])|..] == FailureDetail(run(cmd).stdout, run(cmd).stderr)
    ensures run(cmd).Missing? ==> r == Failure(Error(OSError, MissingProgramMessage(cmd[0])))
  {
    match run(cmd)
    case Completed => Success(())
    case Failed(out, err) =>
      var detail := FailureDetail(out, err);
      ScribeFiles.DropStem(FailurePrefix(cmd[0]), detail);
      Failure(Error(ForgeError, FailurePrefix(cmd[0]) + detail))
    case Missing => Failure(Error(OSError, MissingProgramMessage(cmd[0])))
  }

  /** The oracles a step consults: the probe per path, the `mimetypes` table, and the command runner. */
  datatype Tools = Tools(probe: string -> Probe, types: TypesMap, run: seq<string> -> RunOutcome)

  /**
   * What the step functions below need of the tools: whether a file must be
   * converted to a format and rate, and the command runner.
   */
  datatype Env = Env(need: (string, string, int) -> bool, run: seq<string> -> RunOutcome)

  /** The decision `is_conversion_required` takes with these tools. */
  function EnvOf(t: Tools): (e: Env)
    ensures e.run == t.run
    ensures forall p, f, r :: e.need(p, f, r) == IsConversionRequired(t.probe(p), t.types, f, r)
  {
    Env((p: string, f: string, r: int) => IsConversionRequired(t.probe(p), t.types, f, r), t.run)
  }

  /** A step's outcome: the path or error, the commands run in order, the temporary names drawn. */
  datatype Step = Step(result: Result<string, Error>, commands: seq<seq<string>>, temps: nat)

  /** The text of the `id`-th temporary path made by `create_temp_path(extension=ext)`. */
  function TempName(id: nat, ext: string): string {
    PathText(Temp(id, "", TempSuffix(Some(ext), None)))
  }

  /** `convert_audio` with the next temporary name `id`. */
  function ConvertSpec(id: nat, inputPath: string, outputFormat: string, sampleRate: int, e: Env): Step {
    if !e.need(inputPath, outputFormat, sampleRate) then
      Step(Success(inputPath), [], 0)
    else
      var outputPath := TempName(id, outputFormat);
      var cmd := FfmpegConvertCmd(inputPath, sampleRate, outputPath);
      match RunCommand(cmd, e.run)
      case Success(_) => Step(Success(outputPath), [cmd], 1)
      case Failure(err) => Step(Failure(err), [cmd], 1)
  }

  /**
   * `convert_audio`: when the probe finds nothing to change, the input path
   * itself with no command run; otherwise FFmpeg writes a fresh temporary
   * path carrying the output format as extension.
   */
  method ConvertAudio(fs: FileSystem, inputPath: string, outputFormat: string, sampleRate: int, t: Tools)
    returns (result: Result<string, Error>, commands: seq<seq<string>>)
    requires fs.Valid()
    modifies fs
    ensures fs.Valid() && fs.files == old(fs.files) && fs.locked == old(fs.locked)
    ensures var s := ConvertSpec(old(fs.nextTemp), inputPath, outputFormat, sampleRate, EnvOf(t));
      result == s.result && commands == s.commands && fs.nextTemp == old(fs.nextTemp) + s.temps
  {
    if !IsConversionRequired(t.probe(inputPath), t.types, outputFormat, sampleRate) {
      return Success(inputPath), [];
    }
    var path := CreateTempPath(fs, Some(outputFormat), "", None);
    var outputPath := PathText(path);
    var cmd := FfmpegConvertCmd(inputPath, sampleRate, outputPath);
    commands := [cmd];
    var ran := RunCommand(cmd, t.run);
    if ran.Failure? {
      result := Failure(ran.error);
    } else {
      result := Success(outputPath);
    }
  }

  /** What `get_file_extension(path) or DEFAULT_FORMAT` gives. */
  function ExtensionOrDefault(path: string): string {
    var ext := GetFileExtension(path);
    if ext != "" then ext else DefaultFormat
  }

  /**
   * `remove_silence` after the conversion to WAV succeeded: SoX into the
   * temporary name `id`, then, with `convertBack`, the conversion to `inputExt`.
   */
  function SilenceStep(id: nat, wav: Step, inputExt: string, convertBack: bool, silenceDuration: string, silenceThreshold: string, e: Env): Step
    requires wav.result.Success?
  {
    var processed := TempName(id, WaveFormat);
    var sox := SoxRemoveSilenceCmd(wav.result.value, processed, silenceDuration, silenceThreshold);
    var commands := wav.commands + [sox];
    match RunCommand(sox, e.run)
    case Failure(err) => Step(Failure(err), commands, wav.temps + 1)
    case Success(_) =>
      if !convertBack then Step(Success(processed), commands, wav.temps + 1)
      else
        var back := ConvertSpec(id + 1, processed, inputExt, PreserveSampleRate, e);
        Step(back.result, commands + back.commands, wav.temps + 1 + back.temps)
  }

  /** `remove_silence` with the next temporary name `id`. */
  function RemoveSilenceSpec(id: nat, inputPath: string, convertBack: bool, silenceDuration: string, silenceThreshold: string, e: Env): Step {
    var wav := ConvertSpec(id, inputPath, WaveFormat, PreserveSampleRate, e);
    if wav.result.Failure? then wav
    else SilenceStep(id + wav.temps, wav, ExtensionOrDefault(inputPath), convertBack, silenceDuration, silenceThreshold, e)
  }

  /**
   * `remove_silence`: the input brought to WAV, SoX writing a fresh WAV path,
   * and with `convertBack` that path converted to the input's extension.
   */
  method RemoveSilence(fs: FileSystem, inputPath: string, convertBack: bool, silenceDuration: string, silenceThreshold: string, t: Tools)
    returns (result: Result<string, Error>, commands: seq<seq<string>>)
    requires fs.Valid()
    modifies fs
    ensures fs.Valid() && fs.files == old(fs.files) && fs.locked == old(fs.locked)
    ensures var s := RemoveSilenceSpec(old(fs.nextTemp), inputPath, convertBack, silenceDuration, silenceThreshold, EnvOf(t));
      result == s.result && commands == s.commands && fs.nextTemp == old(fs.nextTemp) + s.temps
  {
    var inputExt := ExtensionOrDefault(inputPath);
    var wavPath, c1 := ConvertAudio(fs, inputPath, WaveFormat, PreserveSampleRate, t);
    if wavPath.Failure? {
      return wavPath, c1;
    }
    var path := CreateTempPath(fs, Some(WaveFormat), "", None);
    var processed := PathText(path);
    var sox := SoxRemoveSilenceCmd(wavPath.value, processed, silenceDuration, silenceThreshold);
    commands := c1 + [sox];
    var ran := RunCommand(sox, t.run);
    if ran.Failure? {
      return Failure(ran.error), commands;
    }
    if !convertBack {
      return Success(processed), commands;
    }
    var c2;
    result, c2 := ConvertAudio(fs, processed, inputExt, PreserveSampleRate, t);
    commands := commands + c2;
  }

  /** `process_full` with the next temporary name `id`. */
  function ProcessFullSpec(id: nat, inputPath: string, sampleRate: int, outputFormat: string, silenceDuration: string, silenceThreshold: string, e: Env): Step {
    var conv := ConvertSpec(id, inputPath, outputFormat, sampleRate, e);
    if conv.result.Failure? then conv
    else
      var trimmed := RemoveSilenceSpec(id + conv.temps, conv.result.value, false, silenceDuration, silenceThreshold, e);
      Step(trimmed.result, conv.commands + trimmed.commands, conv.temps + trimmed.temps)
  }

  /** `process_full`: `convert_audio`, then `remove_silence` without converting back. */
  method ProcessFull(fs: FileSystem, inputPath: string, sampleRate: int, outputFormat: string, silenceDuration: string, silenceThreshold: string, t: Tools)
    returns (result: Result<string, Error>, commands: seq<seq<string>>)
    requires fs.Valid()
    modifies fs
    ensures fs.Valid() && fs.files == old(fs.files) && fs.locked == old(fs.locked)
    ensures var s := ProcessFullSpec(old(fs.nextTemp), inputPath, sampleRate, outputFormat, silenceDuration, silenceThreshold, EnvOf(t));
      result == s.result && commands == s.commands && fs.nextTemp == old(fs.nextTemp) + s.temps
  {
    var converted, c1 := ConvertAudio(fs, inputPath, outputFormat, sampleRate, t);
    if converted.Failure? {
      return converted, c1;
    }
    var c2;
    result, c2 := RemoveSilence(fs, converted.value, false, silenceDuration, silenceThreshold, t);
    commands := c1 + c2;
  }

  lemma Regroup(a: string, b: string, d: string, e: string)
    ensures a + b + "" + d + e == (a + b) + (d + e)
  {
  }

  /** A temporary name made with extension `ext` reads as `/tmp/<n>.<ext>`. */
  lemma TempNameLayout(id: nat, ext: string)
    requires ext != "" && ext[0] != '.'
    ensures TempName(id, ext) == (TempDir + "/") + (Decimal.NatToString(id) + ("." + ext))
  {
    TempSuffixDot(ext);
    Regroup(TempDir, "/", Decimal.NatToString(id), "." + ext);
  }

  /** The extension read back from such a temporary name is the one it was made with. */
  lemma TempNameExtension(id: nat, ext: string)
    requires ext != "" && '.' !in ext && '/' !in ext
    ensures GetFileExtension(TempName(id, ext)) == Lower(ext)
  {
    var stem := Decimal.NatToString(id);
    var dir := TempDir + "/";
    var q := dir + (stem + ("." + ext));
    assert GetFileExtension(q) == Lower(ext) by {
      assert dir != [] && dir[|dir| - 1] == '/';
      NameOfTemp(dir, stem, ext);
    }
    assert TempName(id, ext) == q by {
      TempNameLayout(id, ext);
    }
  }

  lemma NameOfTemp(dir: string, stem: string, ext: string)
    requires dir != [] && dir[|dir| - 1] == '/'
    requires stem != [] && forall k :: 0 <= k < |stem| ==> Decimal.IsDigit(stem[k])
    requires '.' !in ext && '/' !in ext
    ensures GetFileExtension(dir + (stem + ("." + ext))) == Lower(ext)
  {
    assert stem[0] != '.' && stem[0] != '/' by {
      assert Decimal.IsDigit(stem[0]);
    }
    ExtensionOfName(dir, stem, ext);
  }

  /**
   * `convert_audio` runs no command and returns the input exactly when the
   * probe finds nothing to change; otherwise it runs the one FFmpeg command
   * into the fresh name `id` made with the output format, and succeeds
   * exactly when that command completes.
   */
  lemma ConvertOutcome(id: nat, inputPath: string, outputFormat: string, sampleRate: int, e: Env)
    ensures var s := ConvertSpec(id, inputPath, outputFormat, sampleRate, e);
      && (s.commands == [] <==> !e.need(inputPath, outputFormat, sampleRate))
      && (s.commands == [] ==> s.result == Success(inputPath) && s.temps == 0)
      && (s.commands != [] ==>
            && s.commands == [FfmpegConvertCmd(inputPath, sampleRate, TempName(id, outputFormat))]
            && s.temps == 1
            && (s.result.Success? <==> e.run(s.commands[0]).Completed?)
            && (s.result.Success? ==> s.result.value == TempName(id, outputFormat)))
  {
  }

  /**
   * Without converting back, a successful `remove_silence` returns the fresh
   * WAV name SoX wrote, and SoX, reading the WAV conversion, is the last
   * command it ran.
   */
  lemma KeepsWav(id: nat, wav: Step, inputExt: string, silenceDuration: string, silenceThreshold: string, e: Env)
    requires wav.result.Success?
    ensures var s := SilenceStep(id, wav, inputExt, false, silenceDuration, silenceThreshold, e);
      s.result.Success? ==>
        && s.result.value == TempName(id, WaveFormat)
        && s.commands == wav.commands + [SoxRemoveSilenceCmd(wav.result.value, s.result.value, silenceDuration, silenceThreshold)]
  {
  }

  /** Without converting back, a successful `remove_silence` returns a fresh name made with `wav`. */
  lemma RemoveSilenceIsWav(id: nat, inputPath: string, silenceDuration: string, silenceThreshold: string, e: Env)
    ensures var s := RemoveSilenceSpec(id, inputPath, false, silenceDuration, silenceThreshold, e);
      s.result.Success? ==> exists n: nat :: s.result.value == TempName(n, WaveFormat)
  {
    var wav := ConvertSpec(id, inputPath, WaveFormat, PreserveSampleRate, e);
    if wav.result.Success? {
      KeepsWav(id + wav.temps, wav, ExtensionOrDefault(inputPath), silenceDuration, silenceThreshold, e);
    }
  }

  /**
   * Converting back, a successful `remove_silence` ends in the fresh name
   * made with `inputExt` right after the SoX output, or in the SoX output
   * itself when the probe already finds it in that format.
   */
  lemma ConvertsBack(id: nat, wav: Step, inputExt: string, silenceDuration: string, silenceThreshold: string, e: Env)
    requires wav.result.Success?
    ensures var s := SilenceStep(id, wav, inputExt, true, silenceDuration, silenceThreshold, e);
      s.result.Success? ==>
        || s.result.value == TempName(id + 1, inputExt)
        || (s.result.value == TempName(id, WaveFormat) && !e.need(s.result.value, inputExt, PreserveSampleRate))
  {
    ConvertOutcome(id + 1, TempName(id, WaveFormat), inputExt, PreserveSampleRate, e);
  }

  /**
   * The extension `remove_silence` converts back to is never empty and is
   * lower case without `.` or `/`; it is `wav` when the input has none.
   */
  lemma ExtensionOrDefaultShape(path: string)
    ensures var ext := ExtensionOrDefault(path);
      && ext != "" && Lower(ext) == ext
      && (forall k :: 0 <= k < |ext| ==> ext[k] != '.' && ext[k] != '/')
      && (GetFileExtension(path) == "" ==> ext == WaveFormat)
      && (GetFileExtension(path) != "" ==> ext == GetFileExtension(path))
  {
    LowerOfNoUpper(ExtensionOrDefault(path));
  }

  /**
   * `process_full` as written always ends in the fresh WAV name SoX wrote,
   * whatever output format was asked for: the format only shapes the
   * intermediate conversion.
   */
  lemma ProcessFullIsWav(id: nat, inputPath: string, sampleRate: int, outputFormat: string, silenceDuration: string, silenceThreshold: string, e: Env)
    ensures var s := ProcessFullSpec(id, inputPath, sampleRate, outputFormat, silenceDuration, silenceThreshold, e);
      s.result.Success? ==> exists n: nat :: s.result.value == TempName(n, WaveFormat)
  {
    var conv := ConvertSpec(id, inputPath, outputFormat, sampleRate, e);
    if conv.result.Success? {
      RemoveSilenceIsWav(id + conv.temps, conv.result.value, silenceDuration, silenceThreshold, e);
    }
  }

  /**
   * The name `process_full` hands back has the extension `wav`, so asking for
   * MP3 does not give an `.mp3` path.
   */
  lemma WavNameIsNotMp3(n: nat)
    ensures GetFileExtension(TempName(n, WaveFormat)) == WaveFormat != Lower("mp3")
  {
    TempNameExtension(n, WaveFormat);
    assert Lower(WaveFormat) == WaveFormat by {
      LowerOfNoUpper(WaveFormat);
    }
    assert Lower("mp3")[0] == 'm';
  }

  /**
   * `process_full` as its "final output format" parameter describes it: the
   * trimmed WAV converted, at its own rate, to the output format at the end.
   */
  function ProcessFullInFormatSpec(id: nat, inputPath: string, sampleRate: int, outputFormat: string, silenceDuration: string, silenceThreshold: string, e: Env): Step {
    var trimmed := ProcessFullSpec(id, inputPath, sampleRate, outputFormat, silenceDuration, silenceThreshold, e);
    if trimmed.result.Failure? then trimmed
    else
      var last := ConvertSpec(id + trimmed.temps, trimmed.result.value, outputFormat, PreserveSampleRate, e);
      Step(last.result, trimmed.commands + last.commands, trimmed.temps + last.temps)
  }

  /**
   * The corrected pipeline ends in the requested format: a fresh name made
   * with it, or a trimmed file the probe already finds in it.
   */
  lemma ProcessFullInFormatKeepsFormat(id: nat, inputPath: string, sampleRate: int, outputFormat: string, silenceDuration: string, silenceThreshold: string, e: Env)
    ensures var s := ProcessFullInFormatSpec(id, inputPath, sampleRate, outputFormat, silenceDuration, silenceThreshold, e);
      s.result.Success? ==>
        || (exists n: nat :: s.result.value == TempName(n, outputFormat))
        || !e.need(s.result.value, outputFormat, PreserveSampleRate)
  {
    var trimmed := ProcessFullSpec(id, inputPath, sampleRate, outputFormat, silenceDuration, silenceThreshold, e);
    if trimmed.result.Success? {
      ConvertOutcome(id + trimmed.temps, trimmed.result.value, outputFormat, PreserveSampleRate, e);
    }
  }

  lemma LowerOfNoUpper(s: string)
    requires forall k :: 0 <= k < |s| ==> !IsUpper(s[k])
    ensures Lower(s) == s
  {
  }
}
