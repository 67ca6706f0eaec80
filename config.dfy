/**
 * The configuration a run reads and `collect_characters` of
 * `src/cp_font_gen/config.py`. Loading the YAML, resolving the character
 * file's path and reading it are not modelled: the caller passes the file's
 * decoded text, or `None` when no file exists at the resolved path.
 */
module Config {
  import opened Wrappers
  import opened Utils

  /** The `characters` section; a key absent from the YAML is `None`. */
  datatype CharacterSources = CharacterSources(
    inline: Option<Text>,
    file: Option<string>,
    unicodeRanges: Option<seq<string>>)

  /** The `output` section (its `directory` is resolved outside the model). */
  datatype OutputSection = OutputSection(
    formats: seq<string>,
    fontFamily: Option<string>,
    metadata: Option<bool>)

  /** The `logging` section. */
  datatype LoggingSection = LoggingSection(level: Option<string>)

  /** The configuration dictionary; optional keys are `None` when absent. */
  datatype FontConfig = FontConfig(
    sourceFont: string,
    sizes: seq<int>,
    characters: Option<CharacterSources>,
    deduplicateChars: Option<bool>,
    stripWhitespace: Option<bool>,
    output: OutputSection,
    logging: Option<LoggingSection>)

  /**
   * Python's `str.isspace` on one code point: the characters Unicode classes
   * as space separators or as bidirectional whitespace, segment or paragraph
   * separators.
   */
  predicate IsSpace(c: CodePoint)
    ensures c == 0x20 || 0x09 <= c <= 0x0D ==> IsSpace(c)
    ensures 0x21 <= c <= 0x7E ==> !IsSpace(c)
    ensures IsSpace(c) ==> c <= 0x3000
  {
    (0x09 <= c <= 0x0D) || (0x1C <= c <= 0x20) || c == 0x85 || c == 0xA0 || c == 0x1680
    || (0x2000 <= c <= 0x200A) || c == 0x2028 || c == 0x2029 || c == 0x202F || c == 0x205F
    || c == 0x3000
  }

  /** `set(text)`: the distinct characters of a text. */
  function TextChars(t: Text): (s: set<CodePoint>)
    ensures forall c :: c in s <==> c in t
    decreases |t|
  {
    if t == [] then {} else TextChars(t[..|t| - 1]) + {t[|t| - 1]}
  }

  /** A text whose characters are pairwise distinct has as many distinct characters as characters. */
  lemma {:induction false} DistinctTextChars(t: Text)
    requires forall i, j :: 0 <= i < j < |t| ==> t[i] != t[j]
    ensures |TextChars(t)| == |t|
    decreases |t|
  {
    if t != [] {
      var init := t[..|t| - 1];
      DistinctTextChars(init);
      assert t[|t| - 1] !in init;
      assert t[|t| - 1] !in TextChars(init);
    }
  }

  /** What one range expression expands to, or why it raises. */
  type Expansion = Result<set<CodePoint>, RangeError>

  /** The expansion of each range expression, in order. */
  function Expansions(ranges: seq<string>): (es: seq<Expansion>)
    ensures |es| == |ranges|
    ensures forall i {:trigger RangeSpec(ranges[i])} :: 0 <= i < |ranges| ==> es[i] == RangeSpec(ranges[i])
  {
    seq(|ranges|, i requires 0 <= i < |ranges| => RangeSpec(ranges[i]))
  }

  /**
   * The `unicode_ranges` loop: the union of every expansion, or the error of
   * the first expression that fails.
   */
  function UnionOf(es: seq<Expansion>): (r: Expansion)
    ensures r.Err? ==> exists i :: 0 <= i < |es| && es[i] == Err(r.error)
    ensures r.Ok? ==> forall i :: 0 <= i < |es| ==> es[i].Ok? && es[i].value <= r.value
    decreases |es|
  {
    if es == [] then Ok({})
    else match UnionOf(es[..|es| - 1])
      case Err(e) => Err(e)
      case Ok(u) => (
        match es[|es| - 1]
        case Err(e) => Err(e)
        case Ok(s) => Ok(u + s))
  }

  /** The `unicode_ranges` loop over the configured expressions. */
  function RangesUnion(ranges: seq<string>): (r: Expansion)
    ensures r.Err? ==> exists i :: 0 <= i < |ranges| && RangeSpec(ranges[i]) == Err(r.error)
    ensures r.Ok? ==> forall i :: 0 <= i < |ranges| ==> RangeSpec(ranges[i]).Ok? && RangeSpec(ranges[i]).value <= r.value
  {
    UnionOf(Expansions(ranges))
  }

  /** `config.get("characters", {})`. */
  function Sources(cfg: FontConfig): (src: CharacterSources)
    ensures cfg.characters.None? ==> src.inline.None? && src.file.None? && src.unicodeRanges.None?
    ensures cfg.characters.Some? ==> src == cfg.characters.value
  {
    cfg.characters.GetOr(CharacterSources(None, None, None))
  }

  /**
   * The characters of all three sources before any stripping, gathered in
   * the order `collect_characters` adds them: the inline text, then the file
   * (only when the key is present and the file exists), then the ranges.
   */
  function SourceUnion(cfg: FontConfig, fileContents: Option<Text>, rangeChars: set<CodePoint>): (u: set<CodePoint>)
    ensures var src := Sources(cfg);
      forall c :: c in u <==>
        c in rangeChars
        || (src.inline.Some? && c in src.inline.value)
        || (src.file.Some? && fileContents.Some? && c in fileContents.value)
  {
    var src := Sources(cfg);
    var withInline := if src.inline.Some? then {} + TextChars(src.inline.value) else {};
    var withFile := if src.file.Some? && fileContents.Some? then withInline + TextChars(fileContents.value) else withInline;
    withFile + rangeChars
  }

  function WithoutSpace(chars: set<CodePoint>): (r: set<CodePoint>)
    ensures forall c :: c in r <==> c in chars && !IsSpace(c)
  {
    set c | c in chars && !IsSpace(c)
  }

  /** What `collect_characters` returns, or the `ValueError` it lets through. */
  function Collected(cfg: FontConfig, fileContents: Option<Text>): (r: Result<set<CodePoint>, RangeError>)
    ensures var u := RangesUnion(Sources(cfg).unicodeRanges.GetOr([]));
      (r.Err? <==> u.Err?) && (r.Err? ==> r.error == u.error)
      && (r.Ok? ==> r.value <= SourceUnion(cfg, fileContents, u.value))
    ensures r.Ok? && cfg.stripWhitespace.GetOr(false) ==> forall c :: c in r.value ==> !IsSpace(c)
  {
    match RangesUnion(Sources(cfg).unicodeRanges.GetOr([]))
    case Err(e) => Err(e)
    case Ok(rangeChars) =>
      var chars := SourceUnion(cfg, fileContents, rangeChars);
      Ok(if cfg.stripWhitespace.GetOr(false) then WithoutSpace(chars) else chars)
  }

  /** `collect_characters`: grows one set source by source, then filters it. */
  method CollectCharacters(cfg: FontConfig, fileContents: Option<Text>) returns (r: Result<set<CodePoint>, RangeError>)
    ensures r == Collected(cfg, fileContents)
  {
    var src := Sources(cfg);
    var chars: set<CodePoint> := {};
    if src.inline.Some? {
      chars := chars + TextChars(src.inline.value);
    }
    if src.file.Some? && fileContents.Some? {
      chars := chars + TextChars(fileContents.value);
    }
    var ranges := src.unicodeRanges.GetOr([]);
    var expanded := AddRanges(chars, ranges);
    if expanded.Err? {
      return Err(expanded.error);
    }
    chars := expanded.value;
    assert chars == SourceUnion(cfg, fileContents, RangesUnion(ranges).value);
    ghost var collected := chars;
    if cfg.deduplicateChars.GetOr(true) {
      chars := set c | c in chars;
      assert chars == collected;
    }
    if cfg.stripWhitespace.GetOr(false) {
      chars := set c | c in chars && !IsSpace(c);
      assert chars == WithoutSpace(collected);
    }
    CollectedWhenRangesExpand(cfg, fileContents);
    return Ok(chars);
  }

  /** The `unicode_ranges` loop of `collect_characters`: adds each expansion in turn, stopping at the first error. */
  method AddRanges(chars0: set<CodePoint>, ranges: seq<string>) returns (r: Expansion)
    ensures RangesUnion(ranges).Err? ==> r == RangesUnion(ranges)
    ensures RangesUnion(ranges).Ok? ==> r == Ok(chars0 + RangesUnion(ranges).value)
  {
    ghost var es := Expansions(ranges);
    assert es[..0] == [];
    assert UnionOf(es[..0]) == Ok({});
    var chars := chars0;
    var i := 0;
    while i < |ranges|
      invariant 0 <= i <= |ranges|
      invariant UnionOf(es[..i]).Ok?
      invariant chars == chars0 + UnionOf(es[..i]).value
    {
      var expanded := UnicodeRangeToChars(ranges[i]);
      assert expanded == es[i];
      UnionOfStep(es, i);
      if expanded.Err? {
        UnionOfErrSticky(es, i + 1);
        return Err(expanded.error);
      }
      chars := chars + expanded.value;
      i := i + 1;
    }
    assert es[..i] == es;
    return Ok(chars);
  }

  lemma CollectedWhenRangesExpand(cfg: FontConfig, fileContents: Option<Text>)
    requires RangesUnion(Sources(cfg).unicodeRanges.GetOr([])).Ok?
    ensures var chars := SourceUnion(cfg, fileContents, RangesUnion(Sources(cfg).unicodeRanges.GetOr([])).value);
      Collected(cfg, fileContents) == Ok(if cfg.stripWhitespace.GetOr(false) then WithoutSpace(chars) else chars)
  {
  }

  /** One more expansion: a failure of it fails the union, a success joins it. */
  lemma UnionOfStep(es: seq<Expansion>, i: nat)
    requires i < |es| && UnionOf(es[..i]).Ok?
    ensures es[i].Err? ==> UnionOf(es[..i + 1]) == Err(es[i].error)
    ensures es[i].Ok? ==> UnionOf(es[..i + 1]) == Ok(UnionOf(es[..i]).value + es[i].value)
  {
    assert es[..i + 1][..i] == es[..i];
  }

  /** Once a prefix of the expansions fails, every longer prefix fails with the same error. */
  lemma {:induction false} UnionOfErrSticky(es: seq<Expansion>, k: nat)
    requires k <= |es| && UnionOf(es[..k]).Err?
    ensures UnionOf(es) == UnionOf(es[..k])
    decreases |es| - k
  {
    if k < |es| {
      assert es[..k + 1][..k] == es[..k];
      UnionOfErrSticky(es, k + 1);
    } else {
      assert es[..k] == es;
    }
  }

  /**
   * The union succeeds exactly when every expansion does, and then holds
   * exactly the characters of the individual expansions.
   */
  lemma {:induction false} UnionOfMembers(es: seq<Expansion>)
    ensures UnionOf(es).Ok? <==> forall i :: 0 <= i < |es| ==> es[i].Ok?
    ensures UnionOf(es).Ok? ==> forall c :: c in UnionOf(es).value <==>
      exists i :: 0 <= i < |es| && c in es[i].value
    decreases |es|
  {
    if es != [] {
      var init, last := es[..|es| - 1], es[|es| - 1];
      UnionOfMembers(init);
      assert forall i :: 0 <= i < |init| ==> init[i] == es[i];
      if UnionOf(es).Ok? {
        forall c | c in UnionOf(es).value
          ensures exists i :: 0 <= i < |es| && c in es[i].value
        {
          if c !in last.value {
            var i :| 0 <= i < |init| && c in init[i].value;
            assert c in es[i].value;
          }
        }
        forall c | exists i :: 0 <= i < |es| && c in es[i].value
          ensures c in UnionOf(es).value
        {
          var i :| 0 <= i < |es| && c in es[i].value;
          if i < |init| {
            assert c in init[i].value;
          }
        }
      }
    }
  }

  /** A failing union carries the error of the first expansion that fails. */
  lemma {:induction false} UnionOfFirstError(es: seq<Expansion>)
    requires UnionOf(es).Err?
    ensures exists k :: (0 <= k < |es| && es[k] == Err(UnionOf(es).error)
      && (forall j :: 0 <= j < k ==> es[j].Ok?))
    decreases |es|
  {
    var init, last := es[..|es| - 1], es[|es| - 1];
    assert forall i :: 0 <= i < |init| ==> init[i] == es[i];
    if UnionOf(init).Err? {
      UnionOfFirstError(init);
      var k :| 0 <= k < |init| && init[k] == Err(UnionOf(init).error)
        && (forall j :: 0 <= j < k ==> init[j].Ok?);
      assert es[k] == Err(UnionOf(es).error);
    } else {
      UnionOfMembers(init);
      assert es[|init|] == Err(UnionOf(es).error);
    }
  }

  /** `collect_characters` raises the error of the first range expression that fails. */
  lemma FirstRangeErrorWins(cfg: FontConfig, fileContents: Option<Text>)
    requires Collected(cfg, fileContents).Err?
    ensures var ranges := Sources(cfg).unicodeRanges.GetOr([]);
      exists k :: (0 <= k < |ranges| && RangeSpec(ranges[k]) == Err(Collected(cfg, fileContents).error)
        && (forall j :: 0 <= j < k ==> RangeSpec(ranges[j]).Ok?))
  {
    var ranges := Sources(cfg).unicodeRanges.GetOr([]);
    UnionOfFirstError(Expansions(ranges));
  }

  /**
   * The characters collected: those of the inline text, of the file when it
   * exists, and of every range expansion, less the whitespace exactly when
   * stripping is on. Collection fails exactly when some range expression does.
   */
  lemma CollectedMembers(cfg: FontConfig, fileContents: Option<Text>)
    ensures var ranges := Sources(cfg).unicodeRanges.GetOr([]);
      Collected(cfg, fileContents).Ok? <==> forall i :: 0 <= i < |ranges| ==> RangeSpec(ranges[i]).Ok?
    ensures var src, ranges := Sources(cfg), Sources(cfg).unicodeRanges.GetOr([]);
      Collected(cfg, fileContents).Ok? ==> forall c :: c in Collected(cfg, fileContents).value <==>
        (  (src.inline.Some? && c in src.inline.value)
        || (src.file.Some? && fileContents.Some? && c in fileContents.value)
        || (exists i :: 0 <= i < |ranges| && c in RangeSpec(ranges[i]).value))
        && (cfg.stripWhitespace.GetOr(false) ==> !IsSpace(c))
  {
    UnionOfMembers(Expansions(Sources(cfg).unicodeRanges.GetOr([])));
  }

  /** Without a `characters` section there is nothing to collect. */
  lemma EmptyConfig(cfg: FontConfig, fileContents: Option<Text>)
    requires cfg.characters.None?
    ensures Collected(cfg, fileContents) == Ok({})
  {
    assert Expansions([]) == [];
    assert SourceUnion(cfg, fileContents, {}) == {};
    assert WithoutSpace({}) == {};
  }

  /** A `file` entry whose file does not exist contributes nothing and raises nothing. */
  lemma AbsentFileIgnored(cfg: FontConfig, src: CharacterSources, fileContents: Option<Text>)
    requires cfg.characters == Some(src)
    ensures Collected(cfg, None) == Collected(cfg.(characters := Some(src.(file := None))), fileContents)
  {
    var other := cfg.(characters := Some(src.(file := None)));
    assert forall rangeChars :: SourceUnion(cfg, None, rangeChars) == SourceUnion(other, fileContents, rangeChars);
  }

  /** `deduplicate_chars` does not change the result. */
  lemma DeduplicateIrrelevant(cfg: FontConfig, fileContents: Option<Text>, dedup: Option<bool>)
    ensures Collected(cfg.(deduplicateChars := dedup), fileContents) == Collected(cfg, fileContents)
  {
  }

  /** Stripping is off unless asked for: whitespace from the sources is kept. */
  lemma WhitespaceKeptByDefault(cfg: FontConfig, text: Text)
    requires cfg.characters == Some(CharacterSources(Some(text), None, None))
    requires cfg.stripWhitespace.None?
    ensures Collected(cfg, None) == Ok(TextChars(text))
    ensures forall c :: c in text && IsSpace(c) ==> c in Collected(cfg, None).value
  {
    assert Expansions([]) == [];
    assert SourceUnion(cfg, None, {}) == TextChars(text);
  }

  /** With stripping on, no whitespace remains and every other character is kept. */
  lemma StripRemovesExactlySpace(cfg: FontConfig, fileContents: Option<Text>, c: CodePoint)
    requires cfg.stripWhitespace == Some(true)
    requires Collected(cfg, fileContents).Ok?
    ensures var rangeChars := RangesUnion(Sources(cfg).unicodeRanges.GetOr([])).value;
      c in Collected(cfg, fileContents).value <==> c in SourceUnion(cfg, fileContents, rangeChars) && !IsSpace(c)
  {
  }

  /**
   * The result counts characters, not bytes: a character file of pairwise
   * distinct characters as the only source yields as many characters as the
   * decoded text has.
   */
  lemma DistinctTextCount(cfg: FontConfig, path: string, text: Text)
    requires cfg.characters == Some(CharacterSources(None, Some(path), None))
    requires cfg.stripWhitespace.None?
    requires forall i, j :: 0 <= i < j < |text| ==> text[i] != text[j]
    ensures Collected(cfg, Some(text)).Ok?
    ensures |Collected(cfg, Some(text)).value| == |text|
  {
    DistinctTextChars(text);
    assert Expansions([]) == [];
    assert SourceUnion(cfg, Some(text), {}) == TextChars(text);
  }
}
