/**
 * `generate_font` and `generate_metadata` of `src/cp_font_gen/generator.py`.
 *
 * The converter stages (subsetting, BDF conversion, the encoding fix and PCF
 * conversion) are not modelled; each size comes with the outcome of each
 * stage. The font output directory is modelled as the set of `OutputFile`s
 * it holds (`FileName` gives each its name, and distinct files have distinct
 * names), and the manifest is returned as a record instead of being written
 * as JSON.
 */
module Generator {
  import opened Wrappers
  import opened Numerals
  import opened Utils
  import opened Logger
  import opened Coverage
  import opened Config

  /**
   * How the stages went for one size. `bdfLeavesPartial` says whether a
   * failed BDF conversion left a partial `.bdf` behind; `records` is what the
   * converter calls that ran for this size appended to the logger (their
   * `log_command` entries, warnings and errors).
   */
  datatype StageOutcome = StageOutcome(
    subsetOk: bool,
    bdfOk: bool,
    bdfLeavesPartial: bool,
    fixOk: bool,
    pcfOk: bool,
    records: LogRecords)

  /** The size got through subsetting, BDF conversion and the encoding fix. */
  predicate Converted(o: StageOutcome) {
    o.subsetOk && o.bdfOk && o.fixOk
  }

  /** `config["output"].get("font_family", "custom")`. */
  function FontFamily(cfg: FontConfig): (family: string)
    ensures cfg.output.fontFamily.None? ==> family == "custom"
    ensures cfg.output.fontFamily.Some? ==> family == cfg.output.fontFamily.value
  {
    cfg.output.fontFamily.GetOr("custom")
  }

  /** `"bdf" in config["output"]["formats"]`. */
  predicate KeepBdf(cfg: FontConfig)
    ensures KeepBdf(cfg) <==> exists i :: 0 <= i < |cfg.output.formats| && cfg.output.formats[i] == "bdf"
  {
    "bdf" in cfg.output.formats
  }

  /** `"pcf" in config["output"]["formats"]`. */
  predicate NeedPcf(cfg: FontConfig)
    ensures NeedPcf(cfg) <==> exists i :: 0 <= i < |cfg.output.formats| && cfg.output.formats[i] == "pcf"
  {
    "pcf" in cfg.output.formats
  }

  /** `config["output"].get("metadata", True)`. */
  predicate WritesManifest(cfg: FontConfig)
    ensures cfg.output.metadata.None? ==> WritesManifest(cfg)
    ensures cfg.output.metadata.Some? ==> (WritesManifest(cfg) <==> cfg.output.metadata.value)
  {
    cfg.output.metadata.GetOr(true)
  }

  // ---------------------------------------------------------------------------
  // File names
  // ---------------------------------------------------------------------------

  /** The three files a size goes through. */
  datatype FileKind = SubsetTtf | Bdf | Pcf

  /**
   * A file `generate_font` creates in the font output directory: the subset,
   * BDF or PCF file of a size, or the manifest. `FileName` gives its name.
   */
  datatype OutputFile = SizeFile(size: int, kind: FileKind) | ManifestFile

  /** `f"{font_family}-{size}pt"`. */
  function SizeStem(family: string, size: int): string {
    family + "-" + DecimalString(size) + "pt"
  }

  /** What follows the stem: `-subset.ttf`, `.bdf` or `.pcf`. */
  function Suffix(kind: FileKind): (s: string)
    ensures |s| >= 4 && s[|s| - 4] == '.' && s[|s| - 3] == KindMark(SizeFile(0, kind))
  {
    match kind
    case SubsetTtf => "-subset.ttf"
    case Bdf => ".bdf"
    case Pcf => ".pcf"
  }

  /** The character three from the end of a name, which tells the four kinds of file apart. */
  function KindMark(f: OutputFile): char {
    match f
    case ManifestFile => 's'
    case SizeFile(_, kind) => match kind case SubsetTtf => 't' case Bdf => 'b' case Pcf => 'p'
  }

  /** The name of `f` when the font family is `family`. */
  function FileName(family: string, f: OutputFile): (name: string)
    ensures |name| >= 4 && name[|name| - 3] == KindMark(f)
  {
    match f
    case SizeFile(size, kind) => SizeStem(family, size) + Suffix(kind)
    case ManifestFile => family + "-manifest.json"
  }

  /** The names of `files`, in order. */
  function FileNames(family: string, files: seq<OutputFile>): (names: seq<string>)
    ensures |names| == |files|
    ensures forall i :: 0 <= i < |files| ==> names[i] == FileName(family, files[i])
  {
    seq(|files|, i requires 0 <= i < |files| => FileName(family, files[i]))
  }

  lemma StemInjective(family: string, a: int, b: int, suffix: string)
    requires SizeStem(family, a) + suffix == SizeStem(family, b) + suffix
    ensures a == b
  {
    var da, db := DecimalString(a), DecimalString(b);
    var s1, s2 := SizeStem(family, a) + suffix, SizeStem(family, b) + suffix;
    assert |da| == |db|;
    assert s1[|family| + 1..|family| + 1 + |da|] == da;
    assert s2[|family| + 1..|family| + 1 + |db|] == db;
    DecimalStringInjective(a, b);
  }

  /**
   * Within one font family, different files have different names, so the
   * directory can be modelled as a set of `OutputFile`s.
   */
  lemma FileNamesDistinct(family: string, f: OutputFile, g: OutputFile)
    requires FileName(family, f) == FileName(family, g)
    ensures f == g
  {
    assert KindMark(f) == KindMark(g);
    if f.SizeFile? {
      StemInjective(family, f.size, g.size, Suffix(f.kind));
    }
  }

  // ---------------------------------------------------------------------------
  // One size
  // ---------------------------------------------------------------------------

  /**
   * The files one size appends to `generated_files`: none unless the first
   * three stages succeed; then the `.bdf` when BDF is requested, followed by
   * the `.pcf` when PCF is requested and its conversion succeeds.
   */
  function SizeFiles(cfg: FontConfig, size: int, o: StageOutcome): (files: seq<OutputFile>)
    ensures |files| <= 2
    ensures !Converted(o) ==> files == []
    ensures SizeFile(size, Bdf) in files <==> Converted(o) && KeepBdf(cfg)
    ensures SizeFile(size, Pcf) in files <==> Converted(o) && NeedPcf(cfg) && o.pcfOk
    ensures forall f :: f in files ==> f == SizeFile(size, Bdf) || f == SizeFile(size, Pcf)
    ensures |files| == 2 ==> files == [SizeFile(size, Bdf), SizeFile(size, Pcf)]
  {
    if !Converted(o) then []
    else
      (if KeepBdf(cfg) then [SizeFile(size, Bdf)] else [])
      + (if NeedPcf(cfg) && o.pcfOk then [SizeFile(size, Pcf)] else [])
  }

  /**
   * What one size leaves behind in the output directory: the files it
   * leaves in place and the files it leaves removed, whatever was there before.
   */
  datatype Effect = Effect(created: set<OutputFile>, removed: set<OutputFile>)

  function Apply(disk: set<OutputFile>, e: Effect): set<OutputFile> {
    (disk - e.removed) + e.created
  }

  /**
   * The net effect of the file operations `generate_font` performs for one
   * size: a failed subsetting touches nothing (a partial subset file is not
   * modelled); a failed BDF conversion removes the subset and may leave a
   * partial `.bdf`; a failed encoding fix removes both; otherwise the `.pcf`
   * is created when requested (even when its conversion then fails, as the
   * converter opens the file before running), the subset is removed, and the
   * `.bdf` is removed unless BDF is requested.
   */
  function SizeEffect(cfg: FontConfig, size: int, o: StageOutcome): (e: Effect)
    ensures e.created !! e.removed
    ensures SizeFile(size, SubsetTtf) !in e.created
    ensures SizeFile(size, SubsetTtf) in e.removed <==> o.subsetOk
    ensures !o.subsetOk ==> e == Effect({}, {})
  {
    var sub, bdf, pcf := SizeFile(size, SubsetTtf), SizeFile(size, Bdf), SizeFile(size, Pcf);
    if !o.subsetOk then Effect({}, {})
    else if !o.bdfOk then Effect(if o.bdfLeavesPartial then {bdf} else {}, {sub})
    else if !o.fixOk then Effect({}, {sub, bdf})
    else
      var pcfs := if NeedPcf(cfg) then {pcf} else {};
      if KeepBdf(cfg) then Effect({bdf} + pcfs, {sub}) else Effect(pcfs, {sub, bdf})
  }

  /** What one size does to each of its three files, and that it touches no other file. */
  lemma SizeEffectOnFiles(cfg: FontConfig, disk: set<OutputFile>, size: int, o: StageOutcome)
    ensures var after := Apply(disk, SizeEffect(cfg, size, o));
      && (SizeFile(size, SubsetTtf) in after <==> !o.subsetOk && SizeFile(size, SubsetTtf) in disk)
      && (SizeFile(size, Bdf) in after <==>
            if !o.subsetOk then SizeFile(size, Bdf) in disk
            else if !o.bdfOk then o.bdfLeavesPartial || SizeFile(size, Bdf) in disk
            else o.fixOk && KeepBdf(cfg))
      && (SizeFile(size, Pcf) in after <==> (Converted(o) && NeedPcf(cfg)) || SizeFile(size, Pcf) in disk)
    ensures forall f: OutputFile {:trigger f in SizeEffect(cfg, size, o).created} {:trigger f in SizeEffect(cfg, size, o).removed} ::
      f in SizeEffect(cfg, size, o).created || f in SizeEffect(cfg, size, o).removed ==> f.SizeFile? && f.size == size
  {
  }

  /** The warning a size that is skipped adds: one exactly when a conversion stage fails. */
  function SkipWarning(size: int, o: StageOutcome): (ws: seq<string>)
    ensures |ws| <= 1 && (ws == [] <==> Converted(o))
  {
    if !o.subsetOk then [SkipMessage(size, "subsetting failure")]
    else if !o.bdfOk then [SkipMessage(size, "BDF conversion failure")]
    else if !o.fixOk then [SkipMessage(size, "BDF encoding fix failure")]
    else []
  }

  /** `f"Skipping size {size}pt due to {reason}"`. */
  function SkipMessage(size: int, reason: string): (m: string)
    ensures var head := "Skipping size " + DecimalString(size) + "pt due to ";
      |head| <= |m| && m[..|head|] == head && m[|head|..] == reason
  {
    "Skipping size " + DecimalString(size) + "pt due to " + reason
  }

  // ---------------------------------------------------------------------------
  // All sizes, in configuration order
  // ---------------------------------------------------------------------------

  /** What `generate_font` returns for `sizes`, before names are given to the files. */
  function ProducedFiles(cfg: FontConfig, sizes: seq<int>, outcomes: seq<StageOutcome>): (files: seq<OutputFile>)
    requires |sizes| == |outcomes|
    ensures forall f :: f in files ==> f.SizeFile? && f.kind != SubsetTtf && f.size in sizes
    decreases |sizes|
  {
    if sizes == [] then []
    else
      var n := |sizes| - 1;
      ProducedFiles(cfg, sizes[..n], outcomes[..n]) + SizeFiles(cfg, sizes[n], outcomes[n])
  }

  /** The output directory after `sizes`, in order. */
  function DiskAfterSizes(cfg: FontConfig, disk: set<OutputFile>, sizes: seq<int>, outcomes: seq<StageOutcome>)
    : (d: set<OutputFile>)
    requires |sizes| == |outcomes|
    ensures forall f :: (f in d <==> f in disk) || (f.SizeFile? && f.size in sizes)
    decreases |sizes|
  {
    if sizes == [] then disk
    else
      var n := |sizes| - 1;
      Apply(DiskAfterSizes(cfg, disk, sizes[..n], outcomes[..n]), SizeEffect(cfg, sizes[n], outcomes[n]))
  }

  /** What one pass appends to the logger: the converters' records, then the skip warning. */
  function SizeRecords(size: int, o: StageOutcome): (r: LogRecords)
    ensures r.entries == o.records.entries && r.errors == o.records.errors
    ensures r.warnings == o.records.warnings + SkipWarning(size, o)
  {
    Append(o.records, LogRecords([], SkipWarning(size, o), []))
  }

  /** What the passes over `sizes` append to the logger, in order. */
  function LoopRecords(sizes: seq<int>, outcomes: seq<StageOutcome>): (r: LogRecords)
    requires |sizes| == |outcomes|
    ensures forall k, e :: 0 <= k < |outcomes| && e in outcomes[k].records.errors ==> e in r.errors
    ensures forall k, w :: 0 <= k < |outcomes| && w in outcomes[k].records.warnings ==> w in r.warnings
    decreases |sizes|
  {
    if sizes == [] then NoRecords
    else
      var n := |sizes| - 1;
      var init, last := LoopRecords(sizes[..n], outcomes[..n]), SizeRecords(sizes[n], outcomes[n]);
      var r := Append(init, last);
      assert forall k, w :: 0 <= k < |outcomes| && w in outcomes[k].records.warnings ==> w in r.warnings by {
        forall k, w | 0 <= k < |outcomes| && w in outcomes[k].records.warnings
          ensures w in r.warnings
        {
          if k < n {
            assert outcomes[..n][k] == outcomes[k];
            assert w in init.warnings;
          } else {
            assert k == n && last.warnings == outcomes[n].records.warnings + SkipWarning(sizes[n], outcomes[n]);
          }
        }
      }
      assert forall k, e :: 0 <= k < |outcomes| && e in outcomes[k].records.errors ==> e in r.errors by {
        forall k, e | 0 <= k < |outcomes| && e in outcomes[k].records.errors
          ensures e in r.errors
        {
          if k < n {
            assert outcomes[..n][k] == outcomes[k];
            assert e in init.errors;
          } else {
            assert k == n && last.errors == outcomes[n].records.errors;
          }
        }
      }
      r
  }

  /** The output directory when `generate_font` returns: the manifest is written last. */
  function FinalDisk(cfg: FontConfig, disk: set<OutputFile>, outcomes: seq<StageOutcome>): (d: set<OutputFile>)
    requires |cfg.sizes| == |outcomes|
    ensures ManifestFile in d <==> WritesManifest(cfg) || ManifestFile in disk
  {
    var afterSizes := DiskAfterSizes(cfg, disk, cfg.sizes, outcomes);
    if WritesManifest(cfg) then afterSizes + {ManifestFile} else afterSizes
  }

  // ---------------------------------------------------------------------------
  // The manifest (`generate_metadata`)
  // ---------------------------------------------------------------------------

  /** The metadata dictionary; `debugInfo` is its optional `debug_info` key. */
  datatype Manifest = Manifest(
    version: string,
    sourceFont: string,
    characterCount: nat,
    characters: Text,
    unicodeRanges: seq<string>,
    sizes: seq<int>,
    outputDirectory: string,
    generatedFiles: seq<string>,
    formats: seq<string>,
    debugInfo: Option<DebugInfo>)

  /**
   * `generate_metadata`: the characters in code-point order with one
   * `U+XXXX` name for each, the configuration's sizes and formats and the
   * generated files passed through, `debug_info` exactly when given.
   */
  function GenerateMetadata(cfg: FontConfig, chars: set<CodePoint>, generatedFiles: seq<string>,
                            outputDirectory: string, debugInfo: Option<DebugInfo>): (m: Manifest)
    ensures m.version == "1.0" && m.sourceFont == cfg.sourceFont && m.outputDirectory == outputDirectory
    ensures m.sizes == cfg.sizes && m.formats == cfg.output.formats && m.generatedFiles == generatedFiles
    ensures m.characterCount == |chars| == |m.characters| == |m.unicodeRanges|
    ensures StrictlyIncreasing(m.characters) && forall c :: c in m.characters <==> c in chars
    ensures forall i :: 0 <= i < |m.unicodeRanges| ==>
      IsUnicodeName(m.unicodeRanges[i]) && NameCode(m.unicodeRanges[i]) == Some(m.characters[i] as nat)
    ensures m.unicodeRanges == CharsToUnicodeList(chars)
    ensures forall i :: 0 <= i < |m.unicodeRanges| ==> m.unicodeRanges[i] == UnicodeName(m.characters[i])
    ensures m.debugInfo.Some? <==> debugInfo.Some?
    ensures m.debugInfo == debugInfo
  {
    Manifest("1.0", cfg.sourceFont, |chars|, Sorted(chars), CharsToUnicodeList(chars),
             cfg.sizes, outputDirectory, generatedFiles, cfg.output.formats, debugInfo)
  }

  /** The `debug_info` a run puts into its manifest: only a debug logger provides one. */
  function DebugRecord(logger: GenerationLogger?, toolVersion: string, chars: set<CodePoint>,
                       font: Result<set<int>, string>): (d: Option<DebugInfo>)
    reads logger
    ensures d.Some? <==> logger != null && logger.debug
    ensures d.Some? ==> d.value.toolVersion == toolVersion && d.value.characterCoverage == Some(CoverageOf(chars, font))
    ensures d.Some? ==> d.value.executionLog == logger.logEntries && d.value.warnings == logger.warnings
    ensures d.Some? ==> d.value.errors == logger.errors
  {
    if logger != null && logger.debug then Some(logger.GetDebugInfo(toolVersion, Some(CoverageOf(chars, font))))
    else None
  }

  // ---------------------------------------------------------------------------
  // `generate_font`
  // ---------------------------------------------------------------------------

  /**
   * One pass of the `for size in config["sizes"]` loop: the stages in turn,
   * a skip warning and no names when one of the first three fails, the kept
   * formats appended otherwise, and the intermediates removed.
   */
  method ProcessSize(cfg: FontConfig, size: int, o: StageOutcome, logger: GenerationLogger?,
                     generated0: seq<OutputFile>, disk0: set<OutputFile>)
    returns (generated: seq<OutputFile>, disk: set<OutputFile>)
    modifies logger
    ensures generated == generated0 + SizeFiles(cfg, size, o)
    ensures disk == Apply(disk0, SizeEffect(cfg, size, o))
    ensures logger != null ==> logger.Records() == Append(old(logger.Records()), SizeRecords(size, o))
  {
    var keepBdf, needPcf := KeepBdf(cfg), NeedPcf(cfg);
    generated, disk := generated0, disk0;
    if logger != null {
      var _ := logger.Info("\nProcessing size " + DecimalString(size) + "pt:", 0);
    }
    var sub, bdf, pcf := SizeFile(size, SubsetTtf), SizeFile(size, Bdf), SizeFile(size, Pcf);
    var skip: seq<string> := [];
    if !o.subsetOk {
      skip := [SkipMessage(size, "subsetting failure")];
    } else {
      disk := disk + {sub};
      if !o.bdfOk {
        if o.bdfLeavesPartial {
          disk := disk + {bdf};
        }
        disk := disk - {sub};
        skip := [SkipMessage(size, "BDF conversion failure")];
      } else {
        disk := disk + {bdf};
        if !o.fixOk {
          disk := disk - {sub};
          disk := disk - {bdf};
          skip := [SkipMessage(size, "BDF encoding fix failure")];
        } else {
          if keepBdf {
            generated := generated + [bdf];
          }
          if needPcf {
            disk := disk + {pcf};
            if o.pcfOk {
              generated := generated + [pcf];
            }
          }
          disk := disk - {sub};
          if !keepBdf {
            disk := disk - {bdf};
          }
        }
      }
    }
    if logger != null {
      ConverterRecords(logger, o.records);
      if skip != [] {
        var _ := logger.Warn(skip[0]);
      }
    }
  }

  /** The converter calls of one pass, as they reach the logger: each entry, warning and error in turn. */
  method ConverterRecords(logger: GenerationLogger, r: LogRecords)
    modifies logger
    ensures logger.Records() == Append(old(logger.Records()), r)
  {
    ghost var before := logger.Records();
    var i := 0;
    while i < |r.entries|
      invariant 0 <= i <= |r.entries|
      invariant logger.Records() == LogRecords(before.entries + r.entries[..i], before.warnings, before.errors)
    {
      var e := r.entries[i];
      var _ := logger.LogCommand(e.step, e.command, e.status, e.details);
      assert r.entries[..i + 1] == r.entries[..i] + [e];
      i := i + 1;
    }
    assert r.entries[..i] == r.entries;
    i := 0;
    while i < |r.warnings|
      invariant 0 <= i <= |r.warnings|
      invariant logger.Records() == LogRecords(before.entries + r.entries, before.warnings + r.warnings[..i], before.errors)
    {
      var _ := logger.Warn(r.warnings[i]);
      assert r.warnings[..i + 1] == r.warnings[..i] + [r.warnings[i]];
      i := i + 1;
    }
    assert r.warnings[..i] == r.warnings;
    i := 0;
    while i < |r.errors|
      invariant 0 <= i <= |r.errors|
      invariant logger.Records() == LogRecords(before.entries + r.entries, before.warnings + r.warnings, before.errors + r.errors[..i])
    {
      var _ := logger.Error(r.errors[i]);
      assert r.errors[..i + 1] == r.errors[..i] + [r.errors[i]];
      i := i + 1;
    }
    assert r.errors[..i] == r.errors;
  }

  /** One more size extends each fold by that size's step. */
  lemma FoldStep(cfg: FontConfig, disk: set<OutputFile>, sizes: seq<int>, outcomes: seq<StageOutcome>, i: nat)
    requires |sizes| == |outcomes| && i < |sizes|
    ensures ProducedFiles(cfg, sizes[..i + 1], outcomes[..i + 1])
      == ProducedFiles(cfg, sizes[..i], outcomes[..i]) + SizeFiles(cfg, sizes[i], outcomes[i])
    ensures DiskAfterSizes(cfg, disk, sizes[..i + 1], outcomes[..i + 1])
      == Apply(DiskAfterSizes(cfg, disk, sizes[..i], outcomes[..i]), SizeEffect(cfg, sizes[i], outcomes[i]))
    ensures LoopRecords(sizes[..i + 1], outcomes[..i + 1])
      == Append(LoopRecords(sizes[..i], outcomes[..i]), SizeRecords(sizes[i], outcomes[i]))
  {
    assert sizes[..i + 1][..i] == sizes[..i] && outcomes[..i + 1][..i] == outcomes[..i];
  }

  /**
   * One pass of the loop, stated against the folds: after the first `i`
   * sizes, processing size `i` gives the state after the first `i + 1`.
   */
  method ProcessNext(cfg: FontConfig, outcomes: seq<StageOutcome>, i: nat, logger: GenerationLogger?,
                     disk0: set<OutputFile>, ghost records0: LogRecords,
                     generated: seq<OutputFile>, disk: set<OutputFile>)
    returns (nextGenerated: seq<OutputFile>, nextDisk: set<OutputFile>)
    requires |outcomes| == |cfg.sizes| && i < |cfg.sizes|
    requires generated == ProducedFiles(cfg, cfg.sizes[..i], outcomes[..i])
    requires disk == DiskAfterSizes(cfg, disk0, cfg.sizes[..i], outcomes[..i])
    requires logger != null ==> logger.Records() == Append(records0, LoopRecords(cfg.sizes[..i], outcomes[..i]))
    modifies logger
    ensures nextGenerated == ProducedFiles(cfg, cfg.sizes[..i + 1], outcomes[..i + 1])
    ensures nextDisk == DiskAfterSizes(cfg, disk0, cfg.sizes[..i + 1], outcomes[..i + 1])
    ensures logger != null ==> logger.Records() == Append(records0, LoopRecords(cfg.sizes[..i + 1], outcomes[..i + 1]))
  {
    var sizes := cfg.sizes;
    FoldStep(cfg, disk0, sizes, outcomes, i);
    nextGenerated, nextDisk := ProcessSize(cfg, sizes[i], outcomes[i], logger, generated, disk);
    if logger != null {
      AppendAssociative(records0, LoopRecords(sizes[..i], outcomes[..i]), SizeRecords(sizes[i], outcomes[i]));
    }
  }

  /** The loop over the sizes: each size in turn, in the configured order. */
  method ProcessSizes(cfg: FontConfig, outcomes: seq<StageOutcome>, logger: GenerationLogger?, disk0: set<OutputFile>)
    returns (generated: seq<OutputFile>, disk: set<OutputFile>)
    requires |outcomes| == |cfg.sizes|
    modifies logger
    ensures generated == ProducedFiles(cfg, cfg.sizes, outcomes)
    ensures disk == DiskAfterSizes(cfg, disk0, cfg.sizes, outcomes)
    ensures logger != null ==> logger.Records() == Append(old(logger.Records()), LoopRecords(cfg.sizes, outcomes))
  {
    var sizes := cfg.sizes;
    ghost var records0 := NoRecords;
    if logger != null {
      records0 := logger.Records();
      assert Append(records0, LoopRecords(sizes[..0], outcomes[..0])) == records0;
    }
    generated, disk := [], disk0;
    var i := 0;
    while i < |sizes|
      invariant 0 <= i <= |sizes|
      invariant generated == ProducedFiles(cfg, sizes[..i], outcomes[..i])
      invariant disk == DiskAfterSizes(cfg, disk0, sizes[..i], outcomes[..i])
      invariant logger != null ==> logger.Records() == Append(records0, LoopRecords(sizes[..i], outcomes[..i]))
      invariant logger != null ==> records0 == old(logger.Records())
    {
      generated, disk := ProcessNext(cfg, outcomes, i, logger, disk0, records0, generated, disk);
      i := i + 1;
    }
    assert sizes[..i] == sizes && outcomes[..i] == outcomes;
  }

  /** The coverage check `generate_font` runs first, only for a debug logger. */
  method CoverageStage(chars: set<CodePoint>, font: Result<set<int>, string>, logger: GenerationLogger?)
    returns (coverage: Option<CoverageStats>)
    modifies logger
    ensures coverage == if logger != null && logger.debug then Some(CoverageOf(chars, font)) else None
    ensures logger != null ==>
      logger.warnings == old(logger.warnings) + (if logger.debug then CoverageWarnings(chars, font) else [])
    ensures logger != null ==> logger.errors == old(logger.errors) + (if logger.debug then CoverageErrors(font) else [])
    ensures logger != null ==> logger.logEntries == old(logger.logEntries)
  {
    coverage := None;
    if logger != null && logger.debug {
      var _ := logger.Section("Checking character coverage");
      var found, missing, stats := CheckCharacterCoverage(chars, font, logger);
      coverage := Some(stats);
    }
  }

  /**
   * The manifest `generate_font` writes last when metadata is on, with the
   * logger's debug information for a debug logger. The logger is only read.
   */
  method WriteManifest(cfg: FontConfig, chars: set<CodePoint>, generated: seq<OutputFile>, fontOutputDir: string,
                       logger: GenerationLogger?, coverage: Option<CoverageStats>, toolVersion: string,
                       disk: set<OutputFile>)
    returns (manifest: Option<Manifest>, nextDisk: set<OutputFile>)
    ensures manifest.Some? <==> WritesManifest(cfg)
    ensures nextDisk == if WritesManifest(cfg) then disk + {ManifestFile} else disk
    ensures manifest.Some? ==>
      manifest.value == GenerateMetadata(cfg, chars, FileNames(FontFamily(cfg), generated), fontOutputDir,
        if logger != null && logger.debug then Some(logger.GetDebugInfo(toolVersion, coverage)) else None)
  {
    var family := FontFamily(cfg);
    manifest, nextDisk := None, disk;
    if WritesManifest(cfg) {
      var debugInfo: Option<DebugInfo> := None;
      if logger != null && logger.debug {
        debugInfo := Some(logger.GetDebugInfo(toolVersion, coverage));
      }
      manifest := Some(GenerateMetadata(cfg, chars, FileNames(family, generated), fontOutputDir, debugInfo));
      nextDisk := disk + {ManifestFile};
      if logger != null && logger.verbose {
        var _ := logger.Success("Wrote manifest to " + FileName(family, ManifestFile));
      }
    }
  }

  /**
   * `generate_font`. `fontOutputDir` is the family's output directory,
   * `disk` its contents, `font` the outcome of loading the source font for
   * the coverage check, and `outcomes[i]` how the stages went for the i-th size.
   */
  method GenerateFont(cfg: FontConfig, chars: set<CodePoint>, fontOutputDir: string, logger: GenerationLogger?,
                      font: Result<set<int>, string>, outcomes: seq<StageOutcome>, disk0: set<OutputFile>,
                      toolVersion: string)
    returns (generated: seq<OutputFile>, disk: set<OutputFile>, manifest: Option<Manifest>)
    requires |outcomes| == |cfg.sizes|
    modifies logger
    ensures generated == ProducedFiles(cfg, cfg.sizes, outcomes)
    ensures disk == FinalDisk(cfg, disk0, outcomes)
    ensures logger != null ==>
      logger.warnings == old(logger.warnings) + (if logger.debug then CoverageWarnings(chars, font) else [])
        + LoopRecords(cfg.sizes, outcomes).warnings
    ensures logger != null ==>
      logger.errors == old(logger.errors) + (if logger.debug then CoverageErrors(font) else [])
        + LoopRecords(cfg.sizes, outcomes).errors
    ensures logger != null ==> logger.logEntries == old(logger.logEntries) + LoopRecords(cfg.sizes, outcomes).entries
    ensures manifest.Some? <==> WritesManifest(cfg)
    ensures manifest.Some? ==>
      manifest.value == GenerateMetadata(cfg, chars, FileNames(FontFamily(cfg), generated), fontOutputDir,
                                         DebugRecord(logger, toolVersion, chars, font))
  {
    var coverage := CoverageStage(chars, font, logger);
    if logger != null {
      var _ := logger.Section("\nGenerating fonts for " + DecimalString(|cfg.sizes|) + " size(s)");
    }
    generated, disk := ProcessSizes(cfg, outcomes, logger, disk0);
    manifest, disk := WriteManifest(cfg, chars, generated, fontOutputDir, logger, coverage, toolVersion, disk);
  }

  // ---------------------------------------------------------------------------
  // What a run produces
  // ---------------------------------------------------------------------------

  /** The concatenation of the first `n` parts, in order. */
  function Concat<T>(parts: seq<seq<T>>, n: nat): seq<T>
    requires n <= |parts|
  {
    if n == 0 then [] else Concat(parts, n - 1) + parts[n - 1]
  }

  /** The directory after the first `n` effects, in order. */
  function ApplyAll(disk: set<OutputFile>, effects: seq<Effect>, n: nat): set<OutputFile>
    requires n <= |effects|
  {
    if n == 0 then disk else Apply(ApplyAll(disk, effects, n - 1), effects[n - 1])
  }

  /** The files each size appends, size by size. */
  function SizeParts(cfg: FontConfig, sizes: seq<int>, outcomes: seq<StageOutcome>): (parts: seq<seq<OutputFile>>)
    requires |sizes| == |outcomes|
    ensures |parts| == |sizes|
    ensures forall k :: 0 <= k < |sizes| ==> parts[k] == SizeFiles(cfg, sizes[k], outcomes[k])
  {
    seq(|sizes|, k requires 0 <= k < |sizes| => SizeFiles(cfg, sizes[k], outcomes[k]))
  }

  /** The effect of each size on the directory, size by size. */
  function EffectParts(cfg: FontConfig, sizes: seq<int>, outcomes: seq<StageOutcome>): (effects: seq<Effect>)
    requires |sizes| == |outcomes|
    ensures |effects| == |sizes|
    ensures forall k :: 0 <= k < |sizes| ==> effects[k] == SizeEffect(cfg, sizes[k], outcomes[k])
  {
    seq(|sizes|, k requires 0 <= k < |sizes| => SizeEffect(cfg, sizes[k], outcomes[k]))
  }

  /** The concatenation depends only on the parts it takes. */
  lemma {:induction false} ConcatAgree<T>(p: seq<seq<T>>, q: seq<seq<T>>, n: nat)
    requires n <= |p| && n <= |q|
    requires forall k :: 0 <= k < n ==> p[k] == q[k]
    ensures Concat(p, n) == Concat(q, n)
  {
    if n > 0 {
      ConcatAgree(p, q, n - 1);
    }
  }

  /** The directory depends only on the effects applied. */
  lemma {:induction false} ApplyAllAgree(disk: set<OutputFile>, p: seq<Effect>, q: seq<Effect>, n: nat)
    requires n <= |p| && n <= |q|
    requires forall k :: 0 <= k < n ==> p[k] == q[k]
    ensures ApplyAll(disk, p, n) == ApplyAll(disk, q, n)
  {
    if n > 0 {
      ApplyAllAgree(disk, p, q, n - 1);
    }
  }

  /** The generated files are the concatenation of what each size appends. */
  lemma {:induction false} ProducedAsConcat(cfg: FontConfig, sizes: seq<int>, outcomes: seq<StageOutcome>)
    requires |sizes| == |outcomes|
    ensures ProducedFiles(cfg, sizes, outcomes) == Concat(SizeParts(cfg, sizes, outcomes), |sizes|)
    decreases |sizes|
  {
    if sizes != [] {
      var m := |sizes| - 1;
      ProducedAsConcat(cfg, sizes[..m], outcomes[..m]);
      ConcatAgree(SizeParts(cfg, sizes[..m], outcomes[..m]), SizeParts(cfg, sizes, outcomes), m);
    }
  }

  /** The directory after the sizes is their effects applied in order. */
  lemma {:induction false} DiskAsApplyAll(cfg: FontConfig, disk: set<OutputFile>, sizes: seq<int>, outcomes: seq<StageOutcome>)
    requires |sizes| == |outcomes|
    ensures DiskAfterSizes(cfg, disk, sizes, outcomes) == ApplyAll(disk, EffectParts(cfg, sizes, outcomes), |sizes|)
    decreases |sizes|
  {
    if sizes != [] {
      var m := |sizes| - 1;
      DiskAsApplyAll(cfg, disk, sizes[..m], outcomes[..m]);
      ApplyAllAgree(disk, EffectParts(cfg, sizes[..m], outcomes[..m]), EffectParts(cfg, sizes, outcomes), m);
    }
  }

  lemma {:induction false} ConcatMembers<T>(parts: seq<seq<T>>, n: nat, x: T)
    requires n <= |parts|
    ensures x in Concat(parts, n) <==> exists k :: 0 <= k < n && x in parts[k]
  {
    if n > 0 {
      ConcatMembers(parts, n - 1, x);
    }
  }

  lemma {:induction false} ConcatLength<T>(parts: seq<seq<T>>, n: nat, width: nat)
    requires n <= |parts|
    requires forall k :: 0 <= k < n ==> |parts[k]| <= width
    ensures |Concat(parts, n)| <= n * width
  {
    if n > 0 {
      ConcatLength(parts, n - 1, width);
    }
  }

  lemma {:induction false} ConcatEmpty<T>(parts: seq<seq<T>>, n: nat)
    requires n <= |parts|
    ensures Concat(parts, n) == [] <==> forall k :: 0 <= k < n ==> parts[k] == []
  {
    if n > 0 {
      ConcatEmpty(parts, n - 1);
    }
  }

  lemma {:induction false} ConcatPairs<T>(parts: seq<seq<T>>, n: nat)
    requires n <= |parts|
    requires forall k :: 0 <= k < n ==> |parts[k]| == 2
    ensures |Concat(parts, n)| == 2 * n
    ensures forall k :: 0 <= k < n ==> Concat(parts, n)[2 * k] == parts[k][0] && Concat(parts, n)[2 * k + 1] == parts[k][1]
  {
    if n > 0 {
      ConcatPairs(parts, n - 1);
    }
  }

  /** Effects that neither create nor remove `f` leave its presence as it was. */
  lemma {:induction false} ApplyAllFrom(disk: set<OutputFile>, effects: seq<Effect>, k: nat, n: nat, f: OutputFile)
    requires k <= n <= |effects|
    requires forall j :: k <= j < n ==> f !in effects[j].created && f !in effects[j].removed
    ensures f in ApplyAll(disk, effects, n) <==> f in ApplyAll(disk, effects, k)
  {
    if k < n {
      ApplyAllFrom(disk, effects, k, n - 1, f);
    }
  }

  /** A file no effect creates is present at the end only if it was present at the start. */
  lemma {:induction false} ApplyAllNoCreate(disk: set<OutputFile>, effects: seq<Effect>, n: nat, f: OutputFile)
    requires n <= |effects|
    requires forall j :: 0 <= j < n ==> f !in effects[j].created
    ensures f in ApplyAll(disk, effects, n) ==> f in disk
  {
    if n > 0 {
      ApplyAllNoCreate(disk, effects, n - 1, f);
    }
  }

  /** No size is configured twice. */
  predicate DistinctSizes(sizes: seq<int>) {
    forall i, j :: 0 <= i < j < |sizes| ==> sizes[i] != sizes[j]
  }

  /**
   * `f` is a file one size keeps: the size's `.bdf` when BDF is requested, or
   * its `.pcf` when PCF is requested and converted, provided the size got
   * through conversion.
   */
  predicate KeptBy(cfg: FontConfig, size: int, o: StageOutcome, f: OutputFile) {
    f.SizeFile? && f.size == size && Converted(o)
    && ((f.kind == Bdf && KeepBdf(cfg)) || (f.kind == Pcf && NeedPcf(cfg) && o.pcfOk))
  }

  lemma SizeFilesKept(cfg: FontConfig, size: int, o: StageOutcome, f: OutputFile)
    ensures f in SizeFiles(cfg, size, o) <==> KeptBy(cfg, size, o, f)
  {
  }

  /** A file is in `generated_files` exactly when some configured size keeps it. */
  lemma ProducedFilesMembers(cfg: FontConfig, outcomes: seq<StageOutcome>, f: OutputFile)
    requires |outcomes| == |cfg.sizes|
    ensures f in ProducedFiles(cfg, cfg.sizes, outcomes) <==>
      exists k :: 0 <= k < |cfg.sizes| && KeptBy(cfg, cfg.sizes[k], outcomes[k], f)
  {
    var sizes := cfg.sizes;
    var parts := SizeParts(cfg, sizes, outcomes);
    ProducedAsConcat(cfg, sizes, outcomes);
    ConcatMembers(parts, |sizes|, f);
    forall k | 0 <= k < |sizes|
      ensures f in parts[k] <==> KeptBy(cfg, sizes[k], outcomes[k], f)
    {
      SizeFilesKept(cfg, sizes[k], outcomes[k], f);
    }
  }

  /** At most two files per configured size. */
  lemma ProducedFilesBound(cfg: FontConfig, outcomes: seq<StageOutcome>)
    requires |outcomes| == |cfg.sizes|
    ensures |ProducedFiles(cfg, cfg.sizes, outcomes)| <= 2 * |cfg.sizes|
  {
    ProducedAsConcat(cfg, cfg.sizes, outcomes);
    ConcatLength(SizeParts(cfg, cfg.sizes, outcomes), |cfg.sizes|, 2);
  }

  /**
   * `generated_files` is empty exactly when no size produced anything kept:
   * each size either failed a conversion stage, or leaves no `.bdf` (BDF not
   * requested) and no `.pcf` (PCF not requested or not converted).
   */
  lemma NothingProduced(cfg: FontConfig, outcomes: seq<StageOutcome>)
    requires |outcomes| == |cfg.sizes|
    ensures ProducedFiles(cfg, cfg.sizes, outcomes) == [] <==>
      forall k :: 0 <= k < |cfg.sizes| ==>
        !Converted(outcomes[k]) || (!KeepBdf(cfg) && !(NeedPcf(cfg) && outcomes[k].pcfOk))
  {
    var sizes := cfg.sizes;
    var parts := SizeParts(cfg, sizes, outcomes);
    ProducedAsConcat(cfg, sizes, outcomes);
    ConcatEmpty(parts, |sizes|);
    forall k | 0 <= k < |sizes|
      ensures parts[k] == [] <==>
        !Converted(outcomes[k]) || (!KeepBdf(cfg) && !(NeedPcf(cfg) && outcomes[k].pcfOk))
    {
      var files := SizeFiles(cfg, sizes[k], outcomes[k]);
      if files != [] {
        assert files[0] in files;
      }
    }
  }

  /** A size that gets through every stage with both formats requested keeps its `.bdf` and then its `.pcf`. */
  lemma FullSize(cfg: FontConfig, size: int, o: StageOutcome)
    requires KeepBdf(cfg) && NeedPcf(cfg) && Converted(o) && o.pcfOk
    ensures SizeFiles(cfg, size, o) == [SizeFile(size, Bdf), SizeFile(size, Pcf)]
  {
  }

  /**
   * When every stage succeeds for every size and both formats are requested,
   * `generated_files` lists, size by size in configuration order, the `.bdf`
   * followed by the `.pcf`.
   */
  lemma FullRun(cfg: FontConfig, outcomes: seq<StageOutcome>)
    requires |outcomes| == |cfg.sizes|
    requires KeepBdf(cfg) && NeedPcf(cfg)
    requires forall k :: 0 <= k < |outcomes| ==> Converted(outcomes[k]) && outcomes[k].pcfOk
    ensures |ProducedFiles(cfg, cfg.sizes, outcomes)| == 2 * |cfg.sizes|
    ensures forall k :: 0 <= k < |cfg.sizes| ==>
      ProducedFiles(cfg, cfg.sizes, outcomes)[2 * k] == SizeFile(cfg.sizes[k], Bdf)
      && ProducedFiles(cfg, cfg.sizes, outcomes)[2 * k + 1] == SizeFile(cfg.sizes[k], Pcf)
  {
    var sizes := cfg.sizes;
    var parts := SizeParts(cfg, sizes, outcomes);
    forall k | 0 <= k < |sizes|
      ensures parts[k] == [SizeFile(sizes[k], Bdf), SizeFile(sizes[k], Pcf)]
    {
      FullSize(cfg, sizes[k], outcomes[k]);
    }
    ConcatPairs(parts, |sizes|);
    ProducedAsConcat(cfg, sizes, outcomes);
    var produced := Concat(parts, |sizes|);
    assert ProducedFiles(cfg, sizes, outcomes) == produced;
    forall k | 0 <= k < |sizes|
      ensures produced[2 * k] == SizeFile(sizes[k], Bdf) && produced[2 * k + 1] == SizeFile(sizes[k], Pcf)
    {
      assert produced[2 * k] == parts[k][0] && produced[2 * k + 1] == parts[k][1];
    }
  }

  /** The effect of the `j`-th size touches only files of that size. */
  lemma OnlyOwnSize(cfg: FontConfig, sizes: seq<int>, outcomes: seq<StageOutcome>, j: nat, f: OutputFile)
    requires |sizes| == |outcomes| && j < |sizes|
    requires f.SizeFile? ==> f.size != sizes[j]
    ensures f !in EffectParts(cfg, sizes, outcomes)[j].created && f !in EffectParts(cfg, sizes, outcomes)[j].removed
  {
    SizeEffectOnFiles(cfg, {}, sizes[j], outcomes[j]);
  }

  /**
   * With no size configured twice, each file of a configured size ends up as
   * that size's own stages alone would leave it.
   */
  lemma ThisSizeOnly(cfg: FontConfig, disk: set<OutputFile>, outcomes: seq<StageOutcome>, k: nat, f: OutputFile)
    requires |outcomes| == |cfg.sizes| && DistinctSizes(cfg.sizes) && k < |cfg.sizes|
    requires f.SizeFile? && f.size == cfg.sizes[k]
    ensures f in FinalDisk(cfg, disk, outcomes) <==> f in Apply(disk, SizeEffect(cfg, cfg.sizes[k], outcomes[k]))
  {
    var sizes := cfg.sizes;
    var n := |sizes|;
    var effects := EffectParts(cfg, sizes, outcomes);
    DiskAsApplyAll(cfg, disk, sizes, outcomes);
    forall j | 0 <= j < n && j != k
      ensures f !in effects[j].created && f !in effects[j].removed
    {
      assert sizes[j] != sizes[k];
      OnlyOwnSize(cfg, sizes, outcomes, j, f);
    }
    ApplyAllFrom(disk, effects, k + 1, n, f);
    ApplyAllFrom(disk, effects, 0, k, f);
  }

  /**
   * The state each configured size's files are in when `generate_font`
   * returns (sizes distinct): the subset is gone unless subsetting failed and
   * it was already there; the `.bdf` is kept exactly when BDF is requested and
   * the stages reach the encoding fix and pass it, and also stays after a
   * failed subsetting if it was there, or after a failed BDF conversion if it
   * was there or a partial file was left; the `.pcf` exists when the size was
   * converted and PCF was requested, or was there before.
   */
  lemma SizeFilesOnDisk(cfg: FontConfig, disk: set<OutputFile>, outcomes: seq<StageOutcome>, k: nat)
    requires |outcomes| == |cfg.sizes| && DistinctSizes(cfg.sizes) && k < |cfg.sizes|
    ensures var size, o, after := cfg.sizes[k], outcomes[k], FinalDisk(cfg, disk, outcomes);
      && (SizeFile(size, SubsetTtf) in after <==> !o.subsetOk && SizeFile(size, SubsetTtf) in disk)
      && (SizeFile(size, Bdf) in after <==>
            if !o.subsetOk then SizeFile(size, Bdf) in disk
            else if !o.bdfOk then o.bdfLeavesPartial || SizeFile(size, Bdf) in disk
            else o.fixOk && KeepBdf(cfg))
      && (SizeFile(size, Pcf) in after <==> (Converted(o) && NeedPcf(cfg)) || SizeFile(size, Pcf) in disk)
  {
    var size := cfg.sizes[k];
    ThisSizeOnly(cfg, disk, outcomes, k, SizeFile(size, SubsetTtf));
    ThisSizeOnly(cfg, disk, outcomes, k, SizeFile(size, Bdf));
    ThisSizeOnly(cfg, disk, outcomes, k, SizeFile(size, Pcf));
    SizeEffectOnFiles(cfg, disk, size, outcomes[k]);
  }

  /** Files of sizes that are not configured are left as they were. */
  lemma UntouchedFiles(cfg: FontConfig, disk: set<OutputFile>, outcomes: seq<StageOutcome>, f: OutputFile)
    requires |outcomes| == |cfg.sizes|
    requires f.SizeFile? && f.size !in cfg.sizes
    ensures f in FinalDisk(cfg, disk, outcomes) <==> f in disk
  {
    var sizes := cfg.sizes;
    var effects := EffectParts(cfg, sizes, outcomes);
    DiskAsApplyAll(cfg, disk, sizes, outcomes);
    forall j | 0 <= j < |sizes|
      ensures f !in effects[j].created && f !in effects[j].removed
    {
      OnlyOwnSize(cfg, sizes, outcomes, j, f);
    }
    ApplyAllFrom(disk, effects, 0, |sizes|, f);
  }

  /** No run leaves a subset file behind that was not there before it. */
  lemma NoSubsetLeft(cfg: FontConfig, disk: set<OutputFile>, outcomes: seq<StageOutcome>, size: int)
    requires |outcomes| == |cfg.sizes|
    ensures SizeFile(size, SubsetTtf) in FinalDisk(cfg, disk, outcomes) ==> SizeFile(size, SubsetTtf) in disk
  {
    var sizes := cfg.sizes;
    var effects := EffectParts(cfg, sizes, outcomes);
    var sub := SizeFile(size, SubsetTtf);
    DiskAsApplyAll(cfg, disk, sizes, outcomes);
    forall j | 0 <= j < |sizes|
      ensures sub !in effects[j].created
    {
      SizeEffectOnFiles(cfg, {}, sizes[j], outcomes[j]);
      if sizes[j] == size {
        assert sub !in Apply({}, effects[j]);
      }
    }
    ApplyAllNoCreate(disk, effects, |sizes|, sub);
  }

  /** The manifest is there at the end exactly when metadata is on, or it was there already. */
  lemma ManifestOnDisk(cfg: FontConfig, disk: set<OutputFile>, outcomes: seq<StageOutcome>)
    requires |outcomes| == |cfg.sizes|
    ensures ManifestFile in FinalDisk(cfg, disk, outcomes) <==> WritesManifest(cfg) || ManifestFile in disk
  {
    var sizes := cfg.sizes;
    var effects := EffectParts(cfg, sizes, outcomes);
    DiskAsApplyAll(cfg, disk, sizes, outcomes);
    forall j | 0 <= j < |sizes|
      ensures ManifestFile !in effects[j].created && ManifestFile !in effects[j].removed
    {
      OnlyOwnSize(cfg, sizes, outcomes, j, ManifestFile);
    }
    ApplyAllFrom(disk, effects, 0, |sizes|, ManifestFile);
  }

  /** With no size configured twice, every file named in `generated_files` exists at the end. */
  lemma ProducedOnDisk(cfg: FontConfig, disk: set<OutputFile>, outcomes: seq<StageOutcome>, f: OutputFile)
    requires |outcomes| == |cfg.sizes| && DistinctSizes(cfg.sizes)
    requires f in ProducedFiles(cfg, cfg.sizes, outcomes)
    ensures f in FinalDisk(cfg, disk, outcomes)
  {
    ProducedFilesMembers(cfg, outcomes, f);
    var k :| 0 <= k < |cfg.sizes| && KeptBy(cfg, cfg.sizes[k], outcomes[k], f);
    SizeFilesOnDisk(cfg, disk, outcomes, k);
  }

  /**
   * `ProducedOnDisk` needs its sizes distinct: with size 12 configured twice,
   * the first pass keeps `12pt.bdf` and lists it, and a failed encoding fix on
   * the second pass deletes it, so `generated_files` names a file that is gone.
   */
  lemma RepeatedSizeLosesFile(cfg: FontConfig)
    requires cfg.sizes == [12, 12] && KeepBdf(cfg)
    ensures var outcomes := [StageOutcome(true, true, false, true, true, NoRecords),
                             StageOutcome(true, true, false, false, true, NoRecords)];
      SizeFile(12, Bdf) in ProducedFiles(cfg, cfg.sizes, outcomes)
      && SizeFile(12, Bdf) !in FinalDisk(cfg, {}, outcomes)
  {
    var outcomes := [StageOutcome(true, true, false, true, true, NoRecords),
                     StageOutcome(true, true, false, false, true, NoRecords)];
    assert KeptBy(cfg, cfg.sizes[0], outcomes[0], SizeFile(12, Bdf));
    ProducedFilesMembers(cfg, outcomes, SizeFile(12, Bdf));
    assert cfg.sizes[..1] == [12] && outcomes[..1] == [outcomes[0]];
    SizeEffectOnFiles(cfg, DiskAfterSizes(cfg, {}, [12], [outcomes[0]]), 12, outcomes[1]);
  }

  // ---------------------------------------------------------------------------
  // What a run records in the logger
  // ---------------------------------------------------------------------------

  /** The loop records an error exactly when some size's converter calls did. */
  lemma {:induction false} LoopErrorsEmpty(sizes: seq<int>, outcomes: seq<StageOutcome>)
    requires |sizes| == |outcomes|
    ensures LoopRecords(sizes, outcomes).errors == [] <==>
      forall k :: 0 <= k < |outcomes| ==> outcomes[k].records.errors == []
    decreases |sizes|
  {
    if sizes != [] {
      var n := |sizes| - 1;
      var init := outcomes[..n];
      LoopErrorsEmpty(sizes[..n], init);
      assert LoopRecords(sizes, outcomes).errors == LoopRecords(sizes[..n], init).errors + outcomes[n].records.errors;
      if LoopRecords(sizes, outcomes).errors == [] {
        assert LoopRecords(sizes[..n], init).errors == [] && outcomes[n].records.errors == [];
        forall k | 0 <= k < |outcomes|
          ensures outcomes[k].records.errors == []
        {
          if k < n {
            assert outcomes[k] == init[k];
            assert init[k].records.errors == [];
          } else {
            assert k == n;
          }
        }
      } else if LoopRecords(sizes[..n], init).errors != [] {
        var k :| 0 <= k < n && init[k].records.errors != [];
        assert outcomes[k] == init[k];
      }
    }
  }

  /**
   * The loop records no warning exactly when every size got through
   * conversion and its converter calls warned about nothing.
   */
  lemma {:induction false} LoopWarningsEmpty(sizes: seq<int>, outcomes: seq<StageOutcome>)
    requires |sizes| == |outcomes|
    ensures LoopRecords(sizes, outcomes).warnings == [] <==>
      forall k :: 0 <= k < |outcomes| ==> Converted(outcomes[k]) && outcomes[k].records.warnings == []
    decreases |sizes|
  {
    if sizes != [] {
      var n := |sizes| - 1;
      LoopWarningsEmpty(sizes[..n], outcomes[..n]);
      assert forall k :: 0 <= k < n ==> outcomes[..n][k] == outcomes[k];
    }
  }

  /** Every size skipped after a failed stage leaves its skip warning in the logger. */
  lemma {:induction false} SkipWarningRecorded(sizes: seq<int>, outcomes: seq<StageOutcome>, k: nat)
    requires |sizes| == |outcomes| && k < |sizes| && !Converted(outcomes[k])
    ensures SkipWarning(sizes[k], outcomes[k])[0] in LoopRecords(sizes, outcomes).warnings
    decreases |sizes|
  {
    var n := |sizes| - 1;
    if k < n {
      SkipWarningRecorded(sizes[..n], outcomes[..n], k);
    }
  }
}
