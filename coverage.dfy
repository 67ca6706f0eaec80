/**
 * `check_character_coverage` of `src/cp_font_gen/utils.py` with its optional
 * logger. Loading the font is not modelled: the caller passes the outcome of
 * the load, either the set of code points the font's cmap tables map or the
 * text of the exception the load raised.
 */
module Coverage {
  import opened Wrappers
  import opened Numerals
  import opened Utils
  import opened Logger

  /** The requested characters a font with code points `available` does not map. */
  function MissingFrom(requested: set<CodePoint>, available: set<int>): (missing: set<CodePoint>)
    ensures forall c :: c in missing <==> c in requested && c !in available
  {
    set c | c in requested && c !in available
  }

  /** `"<n> of <m> requested characters not found in source font"`. */
  function MissingWarning(missingCount: nat, requestedCount: nat): (w: string)
    ensures |DecimalString(missingCount)| <= |w| && w[..|DecimalString(missingCount)|] == DecimalString(missingCount)
    ensures EndsWith(w, " requested characters not found in source font")
  {
    DecimalString(missingCount) + " of " + DecimalString(requestedCount) + " requested characters not found in source font"
  }

  /** `"Failed to check character coverage: <e>"`. */
  function FailureMessage(e: string): (m: string)
    ensures var head := "Failed to check character coverage: ";
      |head| <= |m| && m[..|head|] == head && m[|head|..] == e
  {
    "Failed to check character coverage: " + e
  }

  /** The warnings a logger receives: one exactly when the font loaded and misses something. */
  function CoverageWarnings(requested: set<CodePoint>, font: Result<set<int>, string>): (ws: seq<string>)
    ensures |ws| <= 1
    ensures ws != [] <==> font.Ok? && MissingFrom(requested, font.value) != {}
    ensures ws != [] ==> ws[0] == MissingWarning(|MissingFrom(requested, font.value)|, |requested|)
  {
    match font
    case Ok(available) =>
      var missing := MissingFrom(requested, available);
      if missing != {} then [MissingWarning(|missing|, |requested|)] else []
    case Err(_) => []
  }

  /** The errors a logger receives: one exactly when loading the font failed. */
  function CoverageErrors(font: Result<set<int>, string>): (es: seq<string>)
    ensures |es| <= 1
    ensures es != [] <==> font.Err?
    ensures es != [] ==> es[0] == FailureMessage(font.error)
  {
    if font.Err? then [FailureMessage(font.error)] else []
  }

  /** The statistics for a load outcome. */
  function CoverageOf(requested: set<CodePoint>, font: Result<set<int>, string>): (stats: CoverageStats)
    ensures stats.requested == |requested| == stats.foundInSource + stats.missingCount
    ensures stats.error.Some? <==> font.Err?
    ensures font.Err? ==> stats.error == Some(font.error) && stats.missing == CharsToUnicodeList(requested)
    ensures font.Ok? ==> stats.missing == CharsToUnicodeList(MissingFrom(requested, font.value))
    ensures font.Ok? ==> stats.foundInSource == |requested| - |MissingFrom(requested, font.value)|
  {
    match font
    case Ok(available) =>
      var missing := MissingFrom(requested, available);
      SummarizeCoverage(requested, requested - missing, missing)
    case Err(e) => FailedCoverage(requested, e)
  }

  /** What `check_character_coverage` tells a logger: the shortfall warning, or the load failure. */
  method ReportCoverage(requested: set<CodePoint>, font: Result<set<int>, string>, logger: GenerationLogger?)
    modifies logger
    ensures logger != null ==> logger.warnings == old(logger.warnings) + CoverageWarnings(requested, font)
    ensures logger != null ==> logger.errors == old(logger.errors) + CoverageErrors(font)
    ensures logger != null ==> logger.logEntries == old(logger.logEntries)
  {
    if logger != null {
      match font {
        case Ok(available) =>
          var missing := MissingFrom(requested, available);
          if missing != {} {
            var _ := logger.Warn(MissingWarning(|missing|, |requested|));
          }
        case Err(e) =>
          var _ := logger.Error(FailureMessage(e));
      }
    }
  }

  /**
   * `check_character_coverage`: partitions the request when the font loads,
   * treats every character as missing when it does not, and reports to the
   * logger, if there is one, the warning or the error.
   */
  method CheckCharacterCoverage(requested: set<CodePoint>, font: Result<set<int>, string>, logger: GenerationLogger?)
    returns (found: set<CodePoint>, missing: set<CodePoint>, stats: CoverageStats)
    modifies logger
    ensures font.Ok? ==> found + missing == requested && found !! missing
    ensures font.Ok? ==> forall c :: c in found ==> c in font.value
    ensures font.Ok? ==> forall c :: c in missing ==> c !in font.value
    ensures font.Err? ==> found == {} && missing == requested
    ensures stats == CoverageOf(requested, font)
    ensures logger != null ==> logger.warnings == old(logger.warnings) + CoverageWarnings(requested, font)
    ensures logger != null ==> logger.errors == old(logger.errors) + CoverageErrors(font)
    ensures logger != null ==> logger.logEntries == old(logger.logEntries)
  {
    match font {
      case Ok(available) =>
        found, missing := PartitionCoverage(requested, available);
        assert missing == MissingFrom(requested, available);
        assert found == requested - missing;
        stats := SummarizeCoverage(requested, found, missing);
      case Err(e) =>
        found, missing := {}, requested;
        stats := FailedCoverage(requested, e);
    }
    ReportCoverage(requested, font, logger);
  }

  /** Either way, the statistics account for every requested character. */
  lemma CoverageAccounts(requested: set<CodePoint>, font: Result<set<int>, string>)
    ensures var stats := CoverageOf(requested, font);
      stats.requested == |requested| == stats.foundInSource + stats.missingCount
      && stats.missingCount == |stats.missing|
      && (stats.error.Some? <==> font.Err?)
      && (font.Err? ==> stats.foundInSource == 0)
  {
    if font.Ok? {
      var missing := MissingFrom(requested, font.value);
      assert (requested - missing) + missing == requested;
    }
  }
}
