/**
 * The decisions the `generate` command of `src/cp_font_gen/cli.py` makes
 * around `generate_font`: which verbosity the logger gets, the character
 * preview it echoes, and the closing summary with its exit status. Loading
 * the configuration, the dry run, output-directory resolution, the progress
 * bar and colours are not modelled.
 */
module Cli {
  import opened Wrappers
  import opened Utils
  import opened Config
  import opened Generator

  /** The `(actual_verbose, actual_debug)` pair the logger is built with. */
  datatype Verbosity = Verbosity(verbose: bool, debug: bool)

  // ---------------------------------------------------------------------------
  // Verbosity
  // ---------------------------------------------------------------------------

  function LowerChar(c: char): char {
    if 'A' <= c <= 'Z' then (c as int - 'A' as int + 'a' as int) as char else c
  }

  /** `s.lower()` on the ASCII letters; other characters are kept. */
  function LowerAscii(s: string): (r: string)
    ensures |r| == |s|
    ensures forall i :: 0 <= i < |s| ==> r[i] == LowerChar(s[i])
  {
    seq(|s|, i requires 0 <= i < |s| => LowerChar(s[i]))
  }

  /** `cfg.get("logging", {}).get("level", "default").lower()`. */
  function ConfigLevel(logging: Option<LoggingSection>): (level: string)
    ensures logging.None? || logging.value.level.None? ==> level == "default"
    ensures logging.Some? && logging.value.level.Some? ==> level == LowerAscii(logging.value.level.value)
    ensures logging.Some? && logging.value.level.Some? ==> |level| == |logging.value.level.value|
    ensures forall i :: 0 <= i < |level| ==> !('A' <= level[i] <= 'Z')
  {
    var level := if logging.Some? then logging.value.level.GetOr("default") else "default";
    LowerAscii(level)
  }

  /**
   * The verbosity `generate` settles on: `--debug` wins, then `--verbose`,
   * then the configured level (`debug` or `verbose`, in any case), and quiet
   * for any other level or none.
   */
  function ResolveVerbosity(debugFlag: bool, verboseFlag: bool, logging: Option<LoggingSection>): (v: Verbosity)
    ensures v.debug ==> v.verbose
    ensures debugFlag ==> v == Verbosity(true, true)
    ensures !debugFlag && verboseFlag ==> v == Verbosity(true, false)
    ensures !debugFlag && !verboseFlag ==>
      (v.debug <==> ConfigLevel(logging) == "debug")
      && (v.verbose <==> ConfigLevel(logging) == "debug" || ConfigLevel(logging) == "verbose")
  {
    if debugFlag then Verbosity(true, true)
    else if verboseFlag then Verbosity(true, false)
    else
      var level := ConfigLevel(logging);
      if level == "debug" then Verbosity(true, true)
      else if level == "verbose" then Verbosity(true, false)
      else Verbosity(false, false)
  }

  /** Lowering twice is lowering once. */
  lemma LowerAsciiIdempotent(s: string)
    ensures LowerAscii(LowerAscii(s)) == LowerAscii(s)
  {
    var once := LowerAscii(s);
    forall i | 0 <= i < |s|
      ensures LowerAscii(once)[i] == once[i]
    {
      assert LowerChar(LowerChar(s[i])) == LowerChar(s[i]);
    }
  }

  /** Without flags, a level and its lower-case form resolve alike. */
  lemma LevelCaseInsensitive(level: string)
    ensures ResolveVerbosity(false, false, Some(LoggingSection(Some(level))))
         == ResolveVerbosity(false, false, Some(LoggingSection(Some(LowerAscii(level)))))
  {
    LowerAsciiIdempotent(level);
  }

  /** `level: DEBUG` and `level: Verbose` are read as `debug` and `verbose`. */
  lemma UpperCaseLevels()
    ensures ResolveVerbosity(false, false, Some(LoggingSection(Some("DEBUG")))) == Verbosity(true, true)
    ensures ResolveVerbosity(false, false, Some(LoggingSection(Some("Verbose")))) == Verbosity(true, false)
  {
    assert LowerAscii("DEBUG") == "debug";
    assert LowerAscii("Verbose") == "verbose";
  }

  /** A missing `logging` section or `level` key means the quiet default. */
  lemma DefaultIsQuiet()
    ensures ResolveVerbosity(false, false, None) == Verbosity(false, false)
    ensures ResolveVerbosity(false, false, Some(LoggingSection(None))) == Verbosity(false, false)
  {
    assert LowerAscii("default") == "default";
  }

  // ---------------------------------------------------------------------------
  // Character preview
  // ---------------------------------------------------------------------------

  const PreviewLength := 50

  /** `"..."` as code points. */
  const Ellipsis: Text := ['.' as int, '.' as int, '.' as int]

  /** `sorted(chars)[:50]`: the characters the preview shows. */
  function Shown(chars: set<CodePoint>): (shown: Text)
    ensures |shown| == if |chars| < PreviewLength then |chars| else PreviewLength
    ensures forall i :: 0 <= i < |shown| ==> shown[i] == Sorted(chars)[i]
  {
    var sorted := Sorted(chars);
    if |sorted| > PreviewLength then sorted[..PreviewLength] else sorted
  }

  /** The preview: the shown characters, followed by `"..."` exactly when some are not shown. */
  function Preview(chars: set<CodePoint>): (p: Text)
    ensures |chars| <= PreviewLength ==> p == Sorted(chars)
    ensures |chars| > PreviewLength ==> |p| == PreviewLength + 3 && p[PreviewLength..] == Ellipsis
    ensures p[..|Shown(chars)|] == Shown(chars)
  {
    if |chars| > PreviewLength then Shown(chars) + Ellipsis else Shown(chars)
  }

  /**
   * The preview shows the smallest characters: every character of the set is
   * either shown or larger than every shown character.
   */
  lemma PreviewSmallest(chars: set<CodePoint>, c: CodePoint)
    requires c in chars
    ensures c in Shown(chars) || forall i :: 0 <= i < |Shown(chars)| ==> Shown(chars)[i] < c
  {
    var sorted, shown := Sorted(chars), Shown(chars);
    var k :| 0 <= k < |sorted| && sorted[k] == c;
    if k < |shown| {
      assert shown[k] == c;
    } else {
      forall i | 0 <= i < |shown|
        ensures shown[i] < c
      {
        assert shown[i] == sorted[i];
      }
    }
  }

  // ---------------------------------------------------------------------------
  // Summary and exit status
  // ---------------------------------------------------------------------------

  /** The hint shown to a quiet run that failed with errors. */
  const Hint := "\n  Run with --verbose or --debug for more details"

  /** The length and sixth character of the hint, which tell it apart from the other summary lines. */
  lemma HintShape()
    ensures |Hint| == 49 && Hint[5] == 'n'
  {
  }

  /**
   * The lines echoed after `generate_font` returns `generatedFiles`, given
   * how many warnings and errors the logger recorded. Styling is dropped.
   */
  function Summary(generatedFiles: seq<string>, outputDir: string, warnings: nat, errors: nat, v: Verbosity)
    : (lines: seq<string>)
    ensures generatedFiles != [] ==> |lines| == 3
    ensures generatedFiles == [] ==> 3 <= |lines| <= 6
    ensures lines[0] == if generatedFiles != [] then "\n✓ Font generation complete!" else "\n✗ Font generation failed!"
    ensures Hint in lines <==> generatedFiles == [] && errors > 0 && !v.verbose && !v.debug
  {
    if generatedFiles != [] then
      var count, dir := "  Generated " + Numerals.DecimalString(|generatedFiles|) + " font files", "  Output directory: " + outputDir;
      HintShape();
      assert count[5] == 'e' && dir[5] == 'p';
      ["\n✓ Font generation complete!", count, dir]
    else
      var warned := "\n  Warnings: " + Numerals.DecimalString(warnings);
      var errored := "  Errors: " + Numerals.DecimalString(errors);
      HintShape();
      assert warned[5] == 'r' && errored[5] == 'o';
      ["\n✗ Font generation failed!", "  No font files were generated", "  See errors above for details"]
      + (if warnings > 0 then [warned] else [])
      + (if errors > 0 then [errored] + (if !v.verbose && !v.debug then [Hint] else []) else [])
  }

  /** `sys.exit(1)` when nothing was generated; a normal return, status 0, otherwise. */
  function ExitStatus(generatedFiles: seq<string>): (status: int)
    ensures status == 0 || status == 1
    ensures status == 1 <==> generatedFiles == []
  {
    if generatedFiles == [] then 1 else 0
  }

  /**
   * The command fails exactly when every size either failed a conversion
   * stage or kept neither a `.bdf` nor a converted `.pcf`.
   */
  lemma ExitReflectsStages(cfg: FontConfig, outcomes: seq<StageOutcome>)
    requires |outcomes| == |cfg.sizes|
    ensures ExitStatus(FileNames(FontFamily(cfg), ProducedFiles(cfg, cfg.sizes, outcomes))) == 1 <==>
      forall k :: 0 <= k < |cfg.sizes| ==>
        !Converted(outcomes[k]) || (!KeepBdf(cfg) && !(NeedPcf(cfg) && outcomes[k].pcfOk))
  {
    NothingProduced(cfg, outcomes);
  }

  /**
   * A quiet run that generated nothing ends with the hint once any converter
   * call recorded an error, whatever the logger held before the loop.
   */
  lemma ConverterErrorShowsHint(cfg: FontConfig, outcomes: seq<StageOutcome>, k: nat, outputDir: string,
                                warnings: nat, earlier: seq<string>, v: Verbosity)
    requires |outcomes| == |cfg.sizes| && k < |outcomes| && outcomes[k].records.errors != []
    requires ProducedFiles(cfg, cfg.sizes, outcomes) == []
    requires !v.verbose && !v.debug
    ensures var errors := earlier + LoopRecords(cfg.sizes, outcomes).errors;
      Hint in Summary(FileNames(FontFamily(cfg), ProducedFiles(cfg, cfg.sizes, outcomes)), outputDir, warnings, |errors|, v)
  {
    LoopErrorsEmpty(cfg.sizes, outcomes);
  }
}
