/**
 * `GenerationLogger` of `src/cp_font_gen/logger.py`: the three append-only
 * records a generation run keeps (execution log, warnings, errors) and the
 * lines each call would echo. Colours and the choice of terminal are not
 * modelled; a line only records whether it goes to standard output or to
 * standard error.
 */
module Logger {
  import opened Wrappers
  import opened Utils

  /** One `log_command` record: its step, command and status, plus the extra keyword arguments. */
  datatype LogEntry = LogEntry(step: string, command: string, status: string, details: map<string, string>)

  /** The dictionary `get_debug_info` returns, without its timestamp. */
  datatype DebugInfo = DebugInfo(
    toolVersion: string,
    executionLog: seq<LogEntry>,
    warnings: seq<string>,
    errors: seq<string>,
    characterCoverage: Option<CoverageStats>)

  /** A line echoed to the terminal. */
  datatype Line = Stdout(text: string) | Stderr(text: string)

  function Spaces(n: int): (s: string)
    ensures |s| == if n < 0 then 0 else n
    ensures forall i :: 0 <= i < |s| ==> s[i] == ' '
  {
    if n <= 0 then "" else seq(n, _ => ' ')
  }

  /** `s` ends with `suffix`. */
  predicate EndsWith(s: string, suffix: string) {
    |suffix| <= |s| && s[|s| - |suffix|..] == suffix
  }

  /** The `" → out"`, `" (n KB)"`, `" (n glyphs)"` tail of a success line, each part only when its key is given. */
  function SuccessTail(details: map<string, string>): (t: string)
    ensures t == [] <==> "output" !in details && "size_kb" !in details && "glyphs_produced" !in details
    ensures "output" in details ==> |t| >= 3 && t[..3] == " → "
  {
    (if "output" in details then " → " + details["output"] else "")
    + (if "size_kb" in details then " (" + details["size_kb"] + " KB)" else "")
    + (if "glyphs_produced" in details then " (" + details["glyphs_produced"] + " glyphs)" else "")
  }

  /** The statuses `log_command` echoes something for. */
  datatype StatusKind = Started | Succeeded | Failed | Other

  function KindOf(status: string): (k: StatusKind)
    ensures k == Started <==> status == "started"
    ensures k == Succeeded <==> status == "success"
    ensures k == Failed <==> status == "failed"
  {
    if status == "started" then Started
    else if status == "success" then Succeeded
    else if status == "failed" then Failed
    else Other
  }

  /**
   * What `log_command` echoes: nothing unless verbose; one line for a
   * started or successful step; for a failed step a line to standard error,
   * followed by the error detail when one was given; nothing for any other status.
   */
  function CommandEcho(verbose: bool, step: string, command: string, status: string, details: map<string, string>)
    : (lines: seq<Line>)
    ensures lines == [] <==> !verbose || KindOf(status) == Other
    ensures |lines| == 2 <==> verbose && KindOf(status) == Failed && "error" in details
    ensures |lines| <= 2
    ensures forall i :: 0 <= i < |lines| ==> (lines[i].Stderr? <==> KindOf(status) == Failed)
  {
    var head := "[" + step + "] " + command;
    if !verbose then []
    else match KindOf(status)
      case Started => [Stdout("  " + head)]
      case Succeeded => [Stdout("  ✓ " + head + SuccessTail(details))]
      case Failed =>
        [Stderr("  ✗ " + head)] + (if "error" in details then [Stderr("      Error: " + details["error"])] else [])
      case Other => []
  }

  /** The first line echoed names the step and the command, and a success line ends with its details. */
  lemma EchoShowsCommand(verbose: bool, step: string, command: string, status: string, details: map<string, string>)
    ensures var lines := CommandEcho(verbose, step, command, status, details);
      lines != [] ==>
        EndsWith(lines[0].text, "[" + step + "] " + command + (if KindOf(status) == Succeeded then SuccessTail(details) else ""))
  {
    var head := "[" + step + "] " + command;
    var lines := CommandEcho(verbose, step, command, status, details);
    var tail := if KindOf(status) == Succeeded then SuccessTail(details) else "";
    if lines != [] {
      var mark := FirstLineMark(verbose, step, command, status, details);
      assert lines[0].text == mark + (head + tail);
      PrefixedEndsWith(mark, head + tail);
    }
  }

  /** What the first echoed line puts before the step and the command. */
  function FirstLineMark(verbose: bool, step: string, command: string, status: string, details: map<string, string>)
    : (mark: string)
    requires verbose && KindOf(status) != Other
    ensures var tail := if KindOf(status) == Succeeded then SuccessTail(details) else "";
      CommandEcho(verbose, step, command, status, details)[0].text == mark + ("[" + step + "] " + command + tail)
  {
    var head := "[" + step + "] " + command;
    match KindOf(status)
    case Started => "  "
    case Succeeded =>
      assert "  ✓ " + head + SuccessTail(details) == "  ✓ " + (head + SuccessTail(details));
      "  ✓ "
    case Failed =>
      assert ("  ✗ " + head) == "  ✗ " + (head + "");
      "  ✗ "
  }

  /** A string ends with whatever follows its prefix. */
  lemma PrefixedEndsWith(prefix: string, s: string)
    ensures EndsWith(prefix + s, s)
  {
    assert (prefix + s)[|prefix|..] == s;
  }

  /** The three records of a logger, or what a sequence of calls appends to them. */
  datatype LogRecords = LogRecords(entries: seq<LogEntry>, warnings: seq<string>, errors: seq<string>)

  /** No records at all. */
  const NoRecords := LogRecords([], [], [])

  /** Records `b` appended after records `a`, record by record. */
  function Append(a: LogRecords, b: LogRecords): (r: LogRecords)
    ensures r.entries == a.entries + b.entries
    ensures r.warnings == a.warnings + b.warnings
    ensures r.errors == a.errors + b.errors
  {
    LogRecords(a.entries + b.entries, a.warnings + b.warnings, a.errors + b.errors)
  }

  /** Appending is associative. */
  lemma AppendAssociative(a: LogRecords, b: LogRecords, c: LogRecords)
    ensures Append(Append(a, b), c) == Append(a, Append(b, c))
  {
    assert (a.entries + b.entries) + c.entries == a.entries + (b.entries + c.entries);
    assert (a.warnings + b.warnings) + c.warnings == a.warnings + (b.warnings + c.warnings);
    assert (a.errors + b.errors) + c.errors == a.errors + (b.errors + c.errors);
  }

  class GenerationLogger {
    const verbose: bool
    const debug: bool
    var logEntries: seq<LogEntry>
    var warnings: seq<string>
    var errors: seq<string>

    /** Debug mode implies verbose mode; all three records start empty. */
    constructor (verboseArg: bool, debugArg: bool)
      ensures verbose == (verboseArg || debugArg) && debug == debugArg
      ensures logEntries == [] && warnings == [] && errors == []
    {
      verbose := verboseArg || debugArg;
      debug := debugArg;
      logEntries, warnings, errors := [], [], [];
    }

    /** The three records as they stand. */
    function Records(): (r: LogRecords)
      reads this
      ensures r.entries == logEntries && r.warnings == warnings && r.errors == errors
    {
      LogRecords(logEntries, warnings, errors)
    }

    /** `log_command`: records exactly one entry; warnings and errors stay as they were. */
    method LogCommand(step: string, command: string, status: string, details: map<string, string>)
      returns (echo: seq<Line>)
      modifies this
      ensures logEntries == old(logEntries) + [LogEntry(step, command, status, details)]
      ensures warnings == old(warnings) && errors == old(errors)
      ensures echo == CommandEcho(verbose, step, command, status, details)
    {
      logEntries := logEntries + [LogEntry(step, command, status, details)];
      echo := CommandEcho(verbose, step, command, status, details);
    }

    /** `info`: echoes the indented message in verbose mode and records nothing. */
    method Info(message: string, indent: int) returns (echo: seq<Line>)
      ensures echo != [] <==> verbose
      ensures echo != [] ==> echo == [Stdout(Spaces(indent) + message)]
    {
      echo := [];
      if verbose {
        echo := [Stdout(Spaces(indent) + message)];
      }
    }

    /** `warn`: records the warning whatever the verbosity; echoes it only in verbose mode. */
    method Warn(message: string) returns (echo: seq<Line>)
      modifies this
      ensures warnings == old(warnings) + [message]
      ensures logEntries == old(logEntries) && errors == old(errors)
      ensures echo != [] <==> verbose
      ensures echo != [] ==> echo == [Stdout("  WARNING: " + message)]
    {
      warnings := warnings + [message];
      echo := [];
      if verbose {
        echo := [Stdout("  WARNING: " + message)];
      }
    }

    /** `error`: records the error and always echoes it to standard error. */
    method Error(message: string) returns (echo: seq<Line>)
      modifies this
      ensures errors == old(errors) + [message]
      ensures logEntries == old(logEntries) && warnings == old(warnings)
      ensures echo == [Stderr("  ERROR: " + message)]
    {
      errors := errors + [message];
      echo := [Stderr("  ERROR: " + message)];
    }

    /** `success`: echoes a check-marked message in verbose mode and records nothing. */
    method Success(message: string) returns (echo: seq<Line>)
      ensures echo != [] <==> verbose
      ensures echo != [] ==> echo == [Stdout("  ✓ " + message)]
    {
      echo := [];
      if verbose {
        echo := [Stdout("  ✓ " + message)];
      }
    }

    /** `section`: echoes the title after a blank line in verbose mode and records nothing. */
    method Section(title: string) returns (echo: seq<Line>)
      ensures echo != [] <==> verbose
      ensures echo != [] ==> echo == [Stdout("\n" + title)]
    {
      echo := [];
      if verbose {
        echo := [Stdout("\n" + title)];
      }
    }

    /**
     * `get_debug_info`: the records as they stand, in append order, and the
     * coverage statistics exactly when some were passed.
     */
    function GetDebugInfo(toolVersion: string, coverage: Option<CoverageStats>): (info: DebugInfo)
      reads this
      ensures info.toolVersion == toolVersion
      ensures info.executionLog == logEntries && info.warnings == warnings && info.errors == errors
      ensures info.characterCoverage.Some? <==> coverage.Some?
      ensures coverage.Some? ==> info.characterCoverage == coverage
    {
      DebugInfo(toolVersion, logEntries, warnings, errors, coverage)
    }
  }
}
