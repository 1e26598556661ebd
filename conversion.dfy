/** The per-file decisions of the KMALL/ALL to PKL converter
    (kmall_to_pkl_converter.py): which parser a file gets, where its output
    goes, when an up-to-date output is skipped, how the run tallies its
    outcomes, and how the saved session settings are merged with defaults.
    Every filesystem answer (existence, modification time, size) is an input. */
module Conversion {
  import opened Common
  import opened Strings
  import opened PklRecord

  // ---------------------------------------------------------------------------
  // convert_single_file
  // ---------------------------------------------------------------------------

  datatype ParserKind = KmallParser | AllParser

  /** Extension dispatch on the lower-cased name, `.kmall` tested first. */
  function ParserFor(inputFile: string): (r: Option<ParserKind>)
    ensures r == Some(KmallParser) <==> EndsWith(Lower(inputFile), ".kmall")
    ensures r == Some(AllParser) <==> !EndsWith(Lower(inputFile), ".kmall") && EndsWith(Lower(inputFile), ".all")
    ensures r.None? <==> !EndsWith(Lower(inputFile), ".kmall") && !EndsWith(Lower(inputFile), ".all")
  {
    var name := Lower(inputFile);
    if EndsWith(name, ".kmall") then Some(KmallParser)
    else if EndsWith(name, ".all") then Some(AllParser)
    else None
  }

  /** The case of the extension does not change the parser. */
  lemma ParserForIgnoresCase(inputFile: string)
    ensures ParserFor(Lower(inputFile)) == ParserFor(inputFile)
  {
    LowerIdempotent(inputFile);
  }

  /** What a parser call gives back: it raised, or it returned a value. */
  datatype ParseResult = ParseRaised | Parsed(out: ParserOutput)

  /** `convert_single_file`: without the parser tools it writes the minimal
      record (`minimalWritten` says whether that succeeded); otherwise it
      dispatches on the extension, builds the record and writes it
      (`writeSucceeded`). Every exception becomes False. */
  function ConvertSingleFile(
    toolsAvailable: bool, minimalWritten: bool, inputFile: string,
    parse: ParserKind -> ParseResult, writeSucceeded: bool, now: Value, nowIso: string): (ok: bool)
    ensures !toolsAvailable ==> (ok <==> minimalWritten)
    ensures toolsAvailable && ParserFor(inputFile).None? ==> !ok
    ensures toolsAvailable && ok ==>
      && ParserFor(inputFile).Some?
      && parse(ParserFor(inputFile).value).Parsed?
      && Process(true, parse(ParserFor(inputFile).value).out, now, nowIso).Some?
      && writeSucceeded
  {
    if !toolsAvailable then minimalWritten
    else match ParserFor(inputFile)
      case None => false
      case Some(kind) =>
        match parse(kind)
        case ParseRaised => false
        case Parsed(data) => Process(true, data, now, nowIso).Some? && writeSucceeded
  }

  // ---------------------------------------------------------------------------
  // run: the per-file loop
  // ---------------------------------------------------------------------------

  /** The output path: the output directory joined with the input's base name
      and `.pkl`. */
  function OutputFile(outputDir: string, inputFile: string): (out: string)
    ensures EndsWith(out, Basename(inputFile) + ".pkl")
  {
    PathJoin(outputDir, Basename(inputFile) + ".pkl")
  }

  /** The output's own base name is the input's base name plus `.pkl`, whatever
      the output directory: no two inputs with different base names share an
      output. */
  lemma OutputFileName(outputDir: string, inputFile: string)
    ensures Basename(OutputFile(outputDir, inputFile)) == Basename(inputFile) + ".pkl"
  {
    var name := Basename(inputFile) + ".pkl";
    assert forall i :: 0 <= i < |Basename(inputFile)| ==> name[i] == Basename(inputFile)[i];
    assert name[|name| - 4..] == ".pkl";
    assert '/' !in name by {
      forall i | 0 <= i < |name| ensures name[i] != '/' {
        if i >= |Basename(inputFile)| {
          assert name[i] == ".pkl"[i - |Basename(inputFile)|];
        }
      }
    }
    BasenameOfJoin(outputDir, name);
  }

  /** The "already up to date" rule. */
  predicate ShouldSkip(outputExists: bool, overwrite: bool, inputMtime: int, outputMtime: int) {
    outputExists && !overwrite && outputMtime > inputMtime
  }

  /** What the filesystem answers for one input file. A `None` is a call that
      raised (the file vanished, permissions). */
  datatype FileEnv = FileEnv(
    outputExists: bool,         // os.path.exists(output_file) before converting
    inputMtime: Option<int>,    // os.path.getmtime(input_file)
    outputMtime: Option<int>,   // os.path.getmtime(output_file)
    converted: bool,            // what convert_single_file returned
    inputSize: Option<int>,     // os.path.getsize(input_file) after converting
    outputWritten: bool,        // os.path.exists(output_file) after converting
    outputSize: Option<int>)    // os.path.getsize(output_file)

  /** The results dictionary of `run`. */
  datatype Tally = Tally(converted: nat, skipped: nat, failed: nat, totalSizeSaved: int, errors: seq<string>)

  const EmptyTally := Tally(0, 0, 0, 0, [])

  function Processed(t: Tally): nat {
    t.converted + t.skipped + t.failed
  }

  function RecordFailure(t: Tally, message: string): (r: Tally)
    ensures r.failed == t.failed + 1 && r.errors == t.errors + [message]
    ensures r.converted == t.converted && r.skipped == t.skipped && r.totalSizeSaved == t.totalSizeSaved
  {
    t.(failed := t.failed + 1, errors := t.errors + [message])
  }

  /** Whether the mtime check raises before anything is counted. */
  predicate MtimeRaises(env: FileEnv, overwrite: bool) {
    env.outputExists && !overwrite && (env.inputMtime.None? || env.outputMtime.None?)
  }

  predicate Skips(env: FileEnv, overwrite: bool) {
    && env.inputMtime.Some? && env.outputMtime.Some?
    && ShouldSkip(env.outputExists, overwrite, env.inputMtime.value, env.outputMtime.value)
  }

  /** One iteration of the loop at kmall_to_pkl_converter.py:150-201 as written:
      `converted` is incremented before the input and output sizes are read, so
      a size lookup that raises also lands in the `except` branch and counts the
      same file as failed. */
  function StepAsWritten(t: Tally, filename: string, env: FileEnv, overwrite: bool): (r: Tally)
    ensures Processed(t) < Processed(r) <= Processed(t) + 2
    ensures r.failed <= t.failed + 1 && |r.errors| == |t.errors| + (r.failed - t.failed)
  {
    if MtimeRaises(env, overwrite) then RecordFailure(t, "Error converting " + filename)
    else if Skips(env, overwrite) then t.(skipped := t.skipped + 1)
    else if !env.converted then RecordFailure(t, "Failed to convert " + filename)
    else
      var t1 := t.(converted := t.converted + 1);
      if env.inputSize.None? then RecordFailure(t1, "Error converting " + filename)
      else if !env.outputWritten then t1
      else if env.outputSize.None? then RecordFailure(t1, "Error converting " + filename)
      else t1.(totalSizeSaved := t1.totalSizeSaved + env.inputSize.value - env.outputSize.value)
  }

  /** A converted file whose size cannot be read is counted twice. */
  lemma StepAsWrittenCountsTwice()
    ensures var env := FileEnv(false, None, None, true, None, false, None);
      var t := StepAsWritten(EmptyTally, "0001_20230101_000000_Ship.kmall", env, false);
      t.converted == 1 && t.failed == 1 && Processed(t) == 2
  {
  }

  /** The files the loop as written counts twice: converted, then a size
      lookup raised. All other files are counted once. */
  predicate SizeLookupRaises(env: FileEnv, overwrite: bool) {
    && !MtimeRaises(env, overwrite) && !Skips(env, overwrite) && env.converted
    && (env.inputSize.None? || (env.outputWritten && env.outputSize.None?))
  }

  lemma StepAsWrittenOvercount(t: Tally, filename: string, env: FileEnv, overwrite: bool)
    ensures Processed(StepAsWritten(t, filename, env, overwrite))
            == Processed(t) + (if SizeLookupRaises(env, overwrite) then 2 else 1)
  {
  }

  /** One iteration as evidently intended: each file lands in exactly one of
      converted, skipped and failed. A converted file whose sizes cannot be
      read stays converted and adds nothing to the saving. */
  function Step(t: Tally, filename: string, env: FileEnv, overwrite: bool): (r: Tally)
    ensures Processed(r) == Processed(t) + 1
    ensures r.failed == t.failed || r.failed == t.failed + 1
    ensures r.skipped == t.skipped + 1 <==> !MtimeRaises(env, overwrite) && Skips(env, overwrite)
    ensures r.converted == t.converted + 1 <==> !MtimeRaises(env, overwrite) && !Skips(env, overwrite) && env.converted
    ensures r.failed == t.failed + 1 <==> MtimeRaises(env, overwrite) || (!Skips(env, overwrite) && !env.converted)
    ensures r.failed == t.failed ==> r.errors == t.errors
    ensures r.failed == t.failed + 1 ==> |r.errors| == |t.errors| + 1 && r.errors[..|t.errors|] == t.errors
  {
    if MtimeRaises(env, overwrite) then RecordFailure(t, "Error converting " + filename)
    else if Skips(env, overwrite) then t.(skipped := t.skipped + 1)
    else if !env.converted then RecordFailure(t, "Failed to convert " + filename)
    else
      var t1 := t.(converted := t.converted + 1);
      if env.inputSize.Some? && env.outputWritten && env.outputSize.Some? then
        t1.(totalSizeSaved := t1.totalSizeSaved + env.inputSize.value - env.outputSize.value)
      else t1
  }

  /** The two agree whenever the size lookups succeed. */
  lemma StepAgreesWhenSizesReadable(t: Tally, filename: string, env: FileEnv, overwrite: bool)
    requires env.inputSize.Some? && (env.outputWritten ==> env.outputSize.Some?)
    ensures StepAsWritten(t, filename, env, overwrite) == Step(t, filename, env, overwrite)
  {
  }

  /** One file keeps one error message per failure. */
  lemma StepKeepsErrorCount(t: Tally, filename: string, env: FileEnv, overwrite: bool)
    requires |t.errors| == t.failed
    ensures |Step(t, filename, env, overwrite).errors| == Step(t, filename, env, overwrite).failed
  {
    var r := Step(t, filename, env, overwrite);
    if r.failed != t.failed {
      assert |r.errors| == |t.errors| + 1;
    }
  }

  /** The tally after the first `n` files, given their base names. */
  function RunTally(names: seq<string>, envs: seq<FileEnv>, overwrite: bool, n: nat): (r: Tally)
    requires n <= |names| == |envs|
    ensures r.failed <= n
  {
    if n == 0 then EmptyTally
    else Step(RunTally(names, envs, overwrite, n - 1), names[n - 1], envs[n - 1], overwrite)
  }

  /** Every processed file is counted once. */
  lemma {:induction false} RunTallyCounts(names: seq<string>, envs: seq<FileEnv>, overwrite: bool, n: nat)
    requires n <= |names| == |envs|
    ensures Processed(RunTally(names, envs, overwrite, n)) == n
  {
    if n > 0 {
      RunTallyCounts(names, envs, overwrite, n - 1);
      var prev := RunTally(names, envs, overwrite, n - 1);
      assert RunTally(names, envs, overwrite, n) == Step(prev, names[n - 1], envs[n - 1], overwrite);
    }
  }

  /** There is one error message per failure. */
  lemma {:induction false} RunTallyErrors(names: seq<string>, envs: seq<FileEnv>, overwrite: bool, n: nat)
    requires n <= |names| == |envs|
    ensures |RunTally(names, envs, overwrite, n).errors| == RunTally(names, envs, overwrite, n).failed
  {
    if n > 0 {
      RunTallyErrors(names, envs, overwrite, n - 1);
      var prev := RunTally(names, envs, overwrite, n - 1);
      StepKeepsErrorCount(prev, names[n - 1], envs[n - 1], overwrite);
    }
  }

  /** The body of the loop at kmall_to_pkl_converter.py:150-198 for one file,
      as evidently intended. */
  method TallyFile(results: Tally, filename: string, env: FileEnv, overwrite: bool) returns (r: Tally)
    ensures r == Step(results, filename, env, overwrite)
  {
    if env.outputExists && !overwrite {
      if env.inputMtime.None? || env.outputMtime.None? {
        return RecordFailure(results, "Error converting " + filename);
      }
      if env.outputMtime.value > env.inputMtime.value {
        return results.(skipped := results.skipped + 1);
      }
    }
    if !env.converted {
      return RecordFailure(results, "Failed to convert " + filename);
    }
    r := results.(converted := results.converted + 1);
    if env.inputSize.Some? && env.outputWritten && env.outputSize.Some? {
      r := r.(totalSizeSaved := r.totalSizeSaved + env.inputSize.value - env.outputSize.value);
    }
  }

  /** `ConversionWorker.run`: tally the files in order until the cancellation
      flag is seen before file `cancelAt`. */
  method Run(inputFiles: seq<string>, overwrite: bool, envs: seq<FileEnv>, cancelAt: nat)
    returns (results: Tally)
    requires |envs| == |inputFiles|
    ensures results == RunTally(Basenames(inputFiles), envs, overwrite, if cancelAt < |inputFiles| then cancelAt else |inputFiles|)
    ensures Processed(results) == (if cancelAt < |inputFiles| then cancelAt else |inputFiles|)
    ensures |results.errors| == results.failed
  {
    results := EmptyTally;
    var i := 0;
    while i < |inputFiles| && i != cancelAt
      invariant 0 <= i <= |inputFiles|
      invariant i <= cancelAt
      invariant results == RunTally(Basenames(inputFiles), envs, overwrite, i)
    {
      results := TallyFile(results, Basename(inputFiles[i]), envs[i], overwrite);
      i := i + 1;
    }
    RunTallyCounts(Basenames(inputFiles), envs, overwrite, i);
    RunTallyErrors(Basenames(inputFiles), envs, overwrite, i);
  }

  // ---------------------------------------------------------------------------
  // load_session_config
  // ---------------------------------------------------------------------------

  const DefaultConfigKeys: seq<string> :=
    ["last_input_dir", "last_output_dir", "last_compression_setting", "last_include_subdirs_setting"]

  const DefaultConfig: map<string, Value> := map[
    "last_input_dir" := Text(""),
    "last_output_dir" := Text(""),
    "last_compression_setting" := Flag(true),
    "last_include_subdirs_setting" := Flag(false)]

  /** `fileConfig` is the parsed session file, or None when it is missing or
      could not be read. Missing keys are filled in from the defaults; keys the
      file has keep the file's value. */
  method LoadSessionConfig(fileConfig: Option<map<string, Value>>) returns (config: map<string, Value>)
    ensures fileConfig.None? ==> config == DefaultConfig
    ensures DefaultConfig.Keys <= config.Keys
    ensures fileConfig.Some? ==> config.Keys == fileConfig.value.Keys + DefaultConfig.Keys
    ensures fileConfig.Some? ==> forall k :: k in fileConfig.value ==> config[k] == fileConfig.value[k]
    ensures fileConfig.Some? ==>
      forall k :: k in DefaultConfig && k !in fileConfig.value ==> config[k] == DefaultConfig[k]
  {
    if fileConfig.None? {
      return DefaultConfig;
    }
    config := fileConfig.value;
    for j := 0 to |DefaultConfigKeys|
      invariant fileConfig.value.Keys <= config.Keys <= fileConfig.value.Keys + DefaultConfig.Keys
      invariant forall i :: 0 <= i < j ==> DefaultConfigKeys[i] in config
      invariant forall k :: k in fileConfig.value ==> config[k] == fileConfig.value[k]
      invariant forall k :: k in config && k !in fileConfig.value ==> k in DefaultConfig && config[k] == DefaultConfig[k]
    {
      var key := DefaultConfigKeys[j];
      if key !in config {
        config := config[key := DefaultConfig[key]];
      }
    }
    assert DefaultConfigKeys[0] in config && DefaultConfigKeys[1] in config;
    assert DefaultConfigKeys[2] in config && DefaultConfigKeys[3] in config;
  }
}
