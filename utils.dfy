/**
 * Character-set utilities of `src/cp_font_gen/utils.py`: code-point order,
 * `U+XXXX` names, expansion of `U+HHHH[-HHHH]` range expressions, and the
 * partition of a requested character set against the code points a font maps.
 *
 * A character is its Unicode code point. Python's `chr` accepts every integer
 * in [0, 0x10FFFF], surrogates included, so a character here is any integer in
 * that interval rather than a Dafny `char`.
 */
module Utils {
  import opened Wrappers
  import opened Numerals

  const MaxCodePoint := 0x10FFFF

  type CodePoint = c: int | 0 <= c <= 0x10FFFF

  /** A Python `str`: a sequence of code points. */
  type Text = seq<CodePoint>

  predicate StrictlyIncreasing(s: seq<int>) {
    forall i, j :: 0 <= i < j < |s| ==> s[i] < s[j]
  }

  // ---------------------------------------------------------------------------
  // Code-point order (`sorted(chars)`)
  // ---------------------------------------------------------------------------

  /** `m` is the smallest member of `s`. */
  predicate IsMinOf(m: CodePoint, s: set<CodePoint>) {
    m in s && forall x :: x in s ==> m <= x
  }

  lemma {:induction false} MinExists(s: set<CodePoint>)
    requires s != {}
    ensures exists m :: IsMinOf(m, s)
    decreases |s|
  {
    var y :| y in s;
    if s == {y} {
      assert IsMinOf(y, s);
    } else {
      MinExists(s - {y});
      var m :| IsMinOf(m, s - {y});
      var least := if y < m then y else m;
      forall x | x in s
        ensures least <= x
      {
        if x != y {
          assert x in s - {y};
        }
      }
      assert IsMinOf(least, s);
    }
  }

  /** The smallest code point of a non-empty set. */
  function Min(s: set<CodePoint>): (m: CodePoint)
    requires s != {}
    ensures m in s && forall x :: x in s ==> m <= x
  {
    MinExists(s);
    var m :| IsMinOf(m, s);
    m
  }

  /** A value below every element of an increasing sequence can be put in front of it. */
  lemma ConsIncreasing(m: CodePoint, rest: seq<CodePoint>)
    requires StrictlyIncreasing(rest)
    requires forall x :: x in rest ==> m < x
    ensures StrictlyIncreasing([m] + rest)
  {
    var r := [m] + rest;
    forall i, j | 0 <= i < j < |r|
      ensures r[i] < r[j]
    {
      assert r[j] == rest[j - 1];
      if i > 0 {
        assert r[i] == rest[i - 1];
      } else {
        assert rest[j - 1] in rest;
      }
    }
  }

  /** `sorted(chars)`: the characters of the set in ascending code-point order. */
  function Sorted(s: set<CodePoint>): (r: seq<CodePoint>)
    ensures |r| == |s|
    ensures forall x :: x in r <==> x in s
    ensures StrictlyIncreasing(r)
    decreases |s|
  {
    if s == {} then []
    else
      var m := Min(s);
      var rest := Sorted(s - {m});
      assert |s - {m}| == |s| - 1;
      assert forall x :: x in rest ==> m < x;
      ConsIncreasing(m, rest);
      [m] + rest
  }

  // ---------------------------------------------------------------------------
  // `U+XXXX` names (`f"U+{ord(c):04X}"`)
  // ---------------------------------------------------------------------------

  /** The code point a `U+` name denotes: `int(name[2:], 16)` on plain hex digits. */
  function NameCode(name: string): Option<nat> {
    if |name| >= 2 && name[..2] == "U+" then ParseDigits(name[2..], 16) else None
  }

  /**
   * `f"U+{ord(c):04X}"`: upper-case hex, zero-padded to exactly four digits
   * for the Basic Multilingual Plane, and without leading zeros beyond it.
   */
  function UnicodeName(c: CodePoint): (name: string)
    ensures 6 <= |name| && IsUnicodeName(name)
    ensures NameCode(name) == Some(c)
    ensures c <= 0xFFFF ==> |name| == 6
    ensures |name| > 6 ==> name[2] != '0'
  {
    var hex := FormatDigits(c, 16);
    FormatParseRoundTrip(c, 16);
    ZerosValue(|ZeroPad(hex, 4)| - |hex|, hex, 16);
    var name := "U+" + ZeroPad(hex, 4);
    assert name[2..] == ZeroPad(hex, 4);
    HexWidth(c);
    name
  }

  /** The hex digits of a code point: at most four in the Basic Multilingual Plane, no leading zero beyond one digit. */
  lemma HexWidth(c: CodePoint)
    ensures c <= 0xFFFF ==> |FormatDigits(c, 16)| <= 4
    ensures |FormatDigits(c, 16)| > 1 ==> FormatDigits(c, 16)[0] != '0'
  {
    if c <= 0xFFFF {
      assert Power(16, 4) == 0x10000;
      FormatLength(c, 16, 4);
    }
    if c > 0 {
      FormatLeading(c, 16);
    }
  }

  /** The names of a sequence of code points, position by position. */
  function NameList(cs: seq<CodePoint>): (names: seq<string>)
    ensures |names| == |cs|
    ensures forall i :: 0 <= i < |cs| ==> names[i] == UnicodeName(cs[i])
  {
    seq(|cs|, i requires 0 <= i < |cs| => UnicodeName(cs[i]))
  }

  /** The names of an ascending listing of a set name each member once, in order. */
  lemma NameListOfSorted(cs: seq<CodePoint>, chars: set<CodePoint>)
    requires forall x :: x in cs <==> x in chars
    requires StrictlyIncreasing(cs)
    ensures var names := NameList(cs);
      && (forall i :: 0 <= i < |names| ==> 6 <= |names[i]| && IsUnicodeName(names[i]))
      && (forall i :: 0 <= i < |names| ==> NameCode(names[i]).Some? && NameCode(names[i]).value in chars)
      && (forall c :: c in chars ==> exists i :: 0 <= i < |names| && NameCode(names[i]) == Some(c))
      && (forall i, j :: 0 <= i < j < |names| ==> NameCode(names[i]).value < NameCode(names[j]).value)
  {
    var names := NameList(cs);
    forall c | c in chars
      ensures exists i :: 0 <= i < |names| && NameCode(names[i]) == Some(c)
    {
      var i :| 0 <= i < |cs| && cs[i] == c;
      assert NameCode(names[i]) == Some(c);
    }
  }

  /**
   * `chars_to_unicode_list`: one `U+XXXX` name per character, in strictly
   * ascending code-point order.
   */
  function CharsToUnicodeList(chars: set<CodePoint>): (names: seq<string>)
    ensures |names| == |chars|
    ensures forall i :: 0 <= i < |names| ==> 6 <= |names[i]| && IsUnicodeName(names[i])
    ensures forall i :: 0 <= i < |names| ==> NameCode(names[i]).Some? && NameCode(names[i]).value in chars
    ensures forall c :: c in chars ==> exists i :: 0 <= i < |names| && NameCode(names[i]) == Some(c)
    ensures forall i, j :: 0 <= i < j < |names| ==> NameCode(names[i]).value < NameCode(names[j]).value
    ensures forall i :: 0 <= i < |names| ==> names[i] == UnicodeName(Sorted(chars)[i])
  {
    var sorted := Sorted(chars);
    NameListOfSorted(sorted, chars);
    NameList(sorted)
  }

  // ---------------------------------------------------------------------------
  // Range expressions (`unicode_range_to_chars`)
  // ---------------------------------------------------------------------------

  /**
   * Why `unicode_range_to_chars` raises: a `ValueError` from the split or from
   * `int`, or the error `chr` raises for a code above 0x10FFFF (a `ValueError`,
   * or an `OverflowError` from 2**31 on).
   */
  datatype RangeError =
    | TooManyDashes                    // `start, end = s.split("-")` with more than one dash
    | InvalidHexLiteral(literal: string) // `int(literal, 16)` rejects the literal
    | ChrOutOfRange                    // `chr(code)` with code > 0x10FFFF

  /** The two shapes a range expression takes once its `U+` marks are removed. */
  datatype RangeForm = Single(code: nat) | Span(first: nat, last: nat)

  /** `s.replace("U+", "")`: every non-overlapping `U+`, scanning left to right, is removed. */
  function RemoveUPlus(s: string): (r: string)
    ensures |r| <= |s|
    decreases |s|
  {
    if |s| >= 2 && s[0] == 'U' && s[1] == '+' then RemoveUPlus(s[2..])
    else if s == [] then []
    else [s[0]] + RemoveUPlus(s[1..])
  }

  /** The first position of `c` in `s`. */
  function IndexOf(s: string, c: char): (k: Option<nat>)
    ensures k.Some? ==> k.value < |s| && s[k.value] == c && c !in s[..k.value]
    ensures k.None? ==> c !in s
  {
    if s == [] then None
    else if s[0] == c then Some(0)
    else match IndexOf(s[1..], c)
      case None => None
      case Some(k) =>
        assert s[..k + 1] == [s[0]] + s[1..][..k];
        Some(k + 1)
  }

  function HexLiteral(s: string): (r: Result<nat, RangeError>)
    ensures r.Ok? <==> ParseDigits(s, 16).Some?
  {
    match ParseDigits(s, 16)
    case Some(v) => Ok(v)
    case None => Err(InvalidHexLiteral(s))
  }

  /**
   * The parse half of `unicode_range_to_chars`: remove the `U+` marks; with a
   * dash, split into exactly two hex literals (start first); without one, read
   * a single hex literal.
   */
  function ParseRange(unicodeRange: string): (r: Result<RangeForm, RangeError>)
    ensures var body := RemoveUPlus(unicodeRange);
      r.Ok? && r.value.Single? ==> '-' !in body && ParseDigits(body, 16) == Some(r.value.code)
    ensures var body, k := RemoveUPlus(unicodeRange), IndexOf(RemoveUPlus(unicodeRange), '-');
      r.Ok? && r.value.Span? ==>
        k.Some? && '-' !in body[k.value + 1..]
        && ParseDigits(body[..k.value], 16) == Some(r.value.first)
        && ParseDigits(body[k.value + 1..], 16) == Some(r.value.last)
    ensures var body, k := RemoveUPlus(unicodeRange), IndexOf(RemoveUPlus(unicodeRange), '-');
      r == Err(TooManyDashes) <==> k.Some? && '-' in body[k.value + 1..]
    ensures var body := RemoveUPlus(unicodeRange);
      '-' !in body && ParseDigits(body, 16).Some? ==> r == Ok(Single(ParseDigits(body, 16).value))
    ensures var body, k := RemoveUPlus(unicodeRange), IndexOf(RemoveUPlus(unicodeRange), '-');
      k.Some? && '-' !in body[k.value + 1..]
      && ParseDigits(body[..k.value], 16).Some? && ParseDigits(body[k.value + 1..], 16).Some? ==>
        r == Ok(Span(ParseDigits(body[..k.value], 16).value, ParseDigits(body[k.value + 1..], 16).value))
    ensures r.Err? && r.error.InvalidHexLiteral? ==> ParseDigits(r.error.literal, 16).None?
    ensures r.Err? && r != Err(TooManyDashes) ==> r.error.InvalidHexLiteral?
    ensures var body, k := RemoveUPlus(unicodeRange), IndexOf(RemoveUPlus(unicodeRange), '-');
      r.Err? && r.error.InvalidHexLiteral? ==>
        r.error.literal == if k.None? then body
          else if ParseDigits(body[..k.value], 16).None? then body[..k.value]
          else body[k.value + 1..]
  {
    var body := RemoveUPlus(unicodeRange);
    match IndexOf(body, '-')
    case Some(k) =>
      if '-' in body[k + 1..] then Err(TooManyDashes)
      else (
        match HexLiteral(body[..k])
        case Err(e) => Err(e)
        case Ok(first) => (
          match HexLiteral(body[k + 1..])
          case Err(e) => Err(e)
          case Ok(last) => Ok(Span(first, last))))
    case None =>
      match HexLiteral(body)
      case Err(e) => Err(e)
      case Ok(code) => Ok(Single(code))
  }

  /** The code points `first..last` inclusive: empty when `first > last`. */
  function Interval(first: int, last: int): (r: set<CodePoint>)
    ensures forall c: int :: c in r <==> 0 <= c && first <= c <= last && c <= MaxCodePoint
    ensures first <= last + 1 && 0 <= first && last <= MaxCodePoint ==> |r| == last - first + 1
    decreases last - first
  {
    if first > last || last < 0 then {}
    else if last > MaxCodePoint then Interval(first, MaxCodePoint)
    else Interval(first, last - 1) + {last as CodePoint}
  }

  /**
   * What `unicode_range_to_chars` returns or raises: `chr` fails on the first
   * code point above 0x10FFFF that the loop reaches, so a span fails exactly
   * when it is non-empty and ends above 0x10FFFF.
   */
  function RangeSpec(unicodeRange: string): (r: Result<set<CodePoint>, RangeError>)
    ensures ParseRange(unicodeRange).Err? ==> r == Err(ParseRange(unicodeRange).error)
    ensures var p := ParseRange(unicodeRange); p.Ok? && p.value.Single? ==>
      (r.Ok? <==> p.value.code <= MaxCodePoint) && (r.Ok? ==> forall c :: c in r.value <==> c == p.value.code)
    ensures var p := ParseRange(unicodeRange); p.Ok? && p.value.Span? ==>
      (r.Ok? <==> p.value.first > p.value.last || p.value.last <= MaxCodePoint)
      && (r.Ok? ==> forall c :: c in r.value <==> p.value.first <= c <= p.value.last)
    ensures r.Err? && r.error == ChrOutOfRange ==> ParseRange(unicodeRange).Ok?
  {
    match ParseRange(unicodeRange)
    case Err(e) => Err(e)
    case Ok(Single(code)) =>
      if code <= MaxCodePoint then Ok({code as CodePoint}) else Err(ChrOutOfRange)
    case Ok(Span(first, last)) => SpanOutcome(first, last)
  }

  /** The outcome of adding `chr(code)` for every `code` from `first` to `last`. */
  function SpanOutcome(first: nat, last: nat): (r: Result<set<CodePoint>, RangeError>)
    ensures r.Ok? <==> first > last || last <= MaxCodePoint
    ensures r.Err? ==> r.error == ChrOutOfRange
    ensures r.Ok? ==> forall c :: c in r.value <==> first <= c <= last
  {
    if first <= last && last > MaxCodePoint then Err(ChrOutOfRange) else Ok(Interval(first, last))
  }

  /** The loop of `unicode_range_to_chars` over a span: stops at the first code point `chr` rejects. */
  method FillSpan(first: nat, last: nat) returns (r: Result<set<CodePoint>, RangeError>)
    ensures r == SpanOutcome(first, last)
  {
    var chars: set<CodePoint> := {};
    var code := first;
    while code <= last
      invariant code == first || first <= code <= last + 1
      invariant code == first || code <= MaxCodePoint + 1
      invariant chars == Interval(first, code - 1)
      decreases last + 1 - code
    {
      if code > MaxCodePoint {
        return Err(ChrOutOfRange);
      }
      chars := chars + {code};
      code := code + 1;
    }
    assert chars == Interval(first, last) by {
      if first <= last {
        assert code == last + 1;
      } else {
        assert code == first;
      }
    }
    return Ok(chars);
  }

  /** `unicode_range_to_chars`: fills the set one code point at a time. */
  method UnicodeRangeToChars(unicodeRange: string) returns (r: Result<set<CodePoint>, RangeError>)
    ensures r == RangeSpec(unicodeRange)
  {
    var parsed := ParseRange(unicodeRange);
    if parsed.Err? {
      return Err(parsed.error);
    }
    match parsed.value {
      case Span(first, last) =>
        r := FillSpan(first, last);
      case Single(code) =>
        if code > MaxCodePoint {
          return Err(ChrOutOfRange);
        }
        var chars: set<CodePoint> := {};
        chars := chars + {code};
        assert chars == {code as CodePoint};
        r := Ok(chars);
    }
  }

  /** `U+s-e` with `s <= e` holds exactly `e - s + 1` characters. */
  lemma {:induction false} IntervalSize(first: int, last: int)
    requires 0 <= first && last <= MaxCodePoint && first <= last + 1
    ensures |Interval(first, last)| == last - first + 1
    decreases last - first
  {
    if first <= last {
      IntervalSize(first, last - 1);
      assert Interval(first, last) == Interval(first, last - 1) + {last};
    } else {
      assert Interval(first, last) == {};
    }
  }

  /** A string without any `U` keeps every character under `replace("U+", "")`. */
  lemma {:induction false} RemoveUPlusNoU(s: string)
    requires 'U' !in s
    ensures RemoveUPlus(s) == s
    decreases |s|
  {
    if s != [] {
      assert 'U' !in s[1..];
      RemoveUPlusNoU(s[1..]);
    }
  }

  /** Upper-case hex digits after the `U+`: no second `U+` and no dash to trip the parser. */
  predicate IsUnicodeName(name: string) {
    |name| > 2 && name[..2] == "U+" && forall i :: 2 <= i < |name| ==> IsUpperDigit(name[i])
  }

  lemma HexBodyParses(name: string)
    requires IsUnicodeName(name)
    ensures RemoveUPlus(name) == name[2..]
    ensures '-' !in name[2..]
  {
    var digits := name[2..];
    assert name == "U+" + digits;
    assert 'U' !in digits && '-' !in digits by {
      forall i | 0 <= i < |digits| ensures digits[i] != 'U' && digits[i] != '-' {
        assert IsUpperDigit(name[i + 2]);
      }
    }
    RemoveUPlusNoU(digits);
  }

  /** A well-formed `U+` name expands to the single code point it denotes. */
  lemma NameExpands(name: string, c: CodePoint)
    requires IsUnicodeName(name) && NameCode(name) == Some(c)
    ensures RangeSpec(name) == Ok({c})
  {
    HexBodyParses(name);
    var body := RemoveUPlus(name);
    assert IndexOf(body, '-').None?;
    assert HexLiteral(body) == Ok(c);
  }

  /** Round trip: the name of a code point expands to exactly that code point. */
  lemma UnicodeNameRoundTrip(c: CodePoint)
    ensures RangeSpec(UnicodeName(c)) == Ok({c})
    ensures RangeSpec(CharsToUnicodeList({c})[0]) == Ok({c})
  {
    NameExpands(UnicodeName(c), c);
    SingletonListed(c);
  }

  /** A single character is listed as its own name. */
  lemma SingletonListed(c: CodePoint)
    ensures CharsToUnicodeList({c}) == [UnicodeName(c)]
  {
    var sorted := Sorted({c});
    assert sorted[0] in {c};
    assert sorted == [c];
  }

  /** `{"A", "B", "C"}` is listed as `["U+0041", "U+0042", "U+0043"]`. */
  lemma LatinCapitalsListed()
    ensures CharsToUnicodeList({0x41, 0x42, 0x43}) == ["U+0041", "U+0042", "U+0043"]
  {
    var chars: set<CodePoint> := {0x41, 0x42, 0x43};
    var sorted := Sorted(chars);
    assert sorted == [0x41, 0x42, 0x43] by {
      assert sorted[0] in chars && sorted[1] in chars && sorted[2] in chars;
      assert sorted[0] < sorted[1] < sorted[2];
    }
    assert CharsToUnicodeList(chars) == NameList(sorted);
    var names := NameList(sorted);
    assert |names| == 3 && names[0] == UnicodeName(sorted[0]) && names[1] == UnicodeName(sorted[1])
      && names[2] == UnicodeName(sorted[2]);
    LatinCapitalNames();
    ThreeElements(names, "U+0041", "U+0042", "U+0043");
  }

  /** A three-element sequence is the display of its elements. */
  lemma ThreeElements<T>(s: seq<T>, a: T, b: T, c: T)
    requires |s| == 3 && s[0] == a && s[1] == b && s[2] == c
    ensures s == [a, b, c]
  {
  }

  /** The names of `A`, `B` and `C`. */
  lemma LatinCapitalNames()
    ensures UnicodeName(0x41) == "U+0041" && UnicodeName(0x42) == "U+0042" && UnicodeName(0x43) == "U+0043"
  {
    NameOfLatinCapital(0x41, '1');
    NameOfLatinCapital(0x42, '2');
    NameOfLatinCapital(0x43, '3');
  }

  /** The name of a code point from 0x41 to 0x49 is `U+004` and its last hex digit. */
  lemma NameOfLatinCapital(c: CodePoint, last: char)
    requires 0x41 <= c <= 0x49 && last == ('0' as int + c - 0x40) as char
    ensures UnicodeName(c) == ['U', '+', '0', '0', '4', last]
  {
    var hex := FormatDigits(c, 16);
    assert c / 16 == 4 && c % 16 == c - 0x40;
    assert FormatDigits(4, 16) == "4";
    assert hex == "4" + [last];
    assert ZeroPad(hex, 4) == "00" + hex;
  }

  /** `U+0041-0043` expands to `{"A", "B", "C"}`. */
  lemma LatinCapitalsRange()
    ensures RangeSpec("U+0041-0043") == Ok({0x41, 0x42, 0x43})
  {
    var n1, n2 := "U+0041", "U+0043";
    assert IsUnicodeName(n1) && IsUnicodeName(n2);
    assert n1 + "-" + n2[2..] == "U+0041-0043";
    ZeroDigitsValue("0041", 0x41);
    ZeroDigitsValue("0043", 0x43);
    assert n1[2..] == "0041" && n2[2..] == "0043";
    NamesSpan(n1, n2, 0x41, 0x43);
    assert Interval(0x41, 0x43) == {0x41, 0x42, 0x43};
  }

  /** `00` followed by the two digits `4` and `d` reads as `0x40 + d`. */
  lemma ZeroDigitsValue(s: string, v: nat)
    requires |s| == 4 && s[..3] == "004" && '1' <= s[3] <= '9' && v == 0x40 + (s[3] as int - '0' as int)
    ensures ParseDigits(s, 16) == Some(v)
  {
    var tail := s[2..];
    assert tail[..1] == "4" && "4"[..0] == [];
    assert AllDigits(tail, 16);
    assert ValueOf(tail, 16) == v;
    assert s == Zeros(2) + tail;
    ZerosValue(2, tail, 16);
  }

  /** A form without a dash is one code point, or an error above 0x10FFFF. */
  lemma SingleForm(unicodeRange: string)
    requires '-' !in RemoveUPlus(unicodeRange)
    requires ParseDigits(RemoveUPlus(unicodeRange), 16).Some?
    ensures var code := ParseDigits(RemoveUPlus(unicodeRange), 16).value;
      RangeSpec(unicodeRange) == if code <= MaxCodePoint then Ok({code}) else Err(ChrOutOfRange)
  {
  }

  /**
   * A span within the code-point range expands to `{c | s <= c <= e}`, which
   * has `e - s + 1` members when `s <= e` and none otherwise.
   */
  lemma SpanForm(unicodeRange: string, first: nat, last: nat)
    requires ParseRange(unicodeRange) == Ok(Span(first, last))
    requires last <= MaxCodePoint || first > last
    ensures RangeSpec(unicodeRange) == Ok(Interval(first, last))
    ensures forall c :: c in RangeSpec(unicodeRange).value <==> first <= c <= last
    ensures |RangeSpec(unicodeRange).value| == if first <= last then last - first + 1 else 0
  {
    if first <= last {
      IntervalSize(first, last);
    } else {
      assert Interval(first, last) == {};
    }
  }

  /** The first dash of `left + "-" + right` separates the two parts when `left` has none. */
  lemma DashSplit(left: string, right: string)
    requires '-' !in left
    ensures var body := left + "-" + right;
      IndexOf(body, '-') == Some(|left|) && body[..|left|] == left && body[|left| + 1..] == right
  {
    var body := left + "-" + right;
    assert body[|left|] == '-';
  }

  /**
   * `U+HHHH-HHHH` built from two well-formed names expands to the inclusive
   * interval between the code points they denote (empty when the first is larger).
   */
  lemma NamesSpan(n1: string, n2: string, first: CodePoint, last: CodePoint)
    requires IsUnicodeName(n1) && NameCode(n1) == Some(first)
    requires IsUnicodeName(n2) && NameCode(n2) == Some(last)
    ensures RangeSpec(n1 + "-" + n2[2..]) == Ok(Interval(first, last))
  {
    HexBodyParses(n1);
    HexBodyParses(n2);
    var d1, d2 := n1[2..], n2[2..];
    var expr := n1 + "-" + d2;
    var body := d1 + "-" + d2;
    assert expr == "U+" + body;
    assert 'U' !in body by {
      forall i | 0 <= i < |body| ensures body[i] != 'U' {
        if i < |d1| {
          assert IsUpperDigit(n1[i + 2]);
        } else if i > |d1| {
          assert IsUpperDigit(n2[i - |d1| + 1]);
        }
      }
    }
    RemoveUPlusNoU(body);
    DashSplit(d1, d2);
    assert ParseRange(expr) == Ok(Span(first, last));
    SpanForm(expr, first, last);
  }

  /** The range expression `U+<first>-<last>` written with `U+XXXX` names. */
  lemma SpanOfNames(first: CodePoint, last: CodePoint)
    ensures RangeSpec(UnicodeName(first) + "-" + UnicodeName(last)[2..]) == Ok(Interval(first, last))
  {
    NamesSpan(UnicodeName(first), UnicodeName(last), first, last);
  }

  // ---------------------------------------------------------------------------
  // Coverage (`check_character_coverage`, without the font loading)
  // ---------------------------------------------------------------------------

  /**
   * The loop of `check_character_coverage`: every requested character goes to
   * `found` when the font maps its code point and to `missing` otherwise.
   */
  method PartitionCoverage(requested: set<CodePoint>, available: set<int>)
    returns (found: set<CodePoint>, missing: set<CodePoint>)
    ensures found + missing == requested && found !! missing
    ensures forall c :: c in found ==> c in available
    ensures forall c :: c in missing ==> c !in available
  {
    found, missing := {}, {};
    var rest := requested;
    while rest != {}
      invariant forall x :: x in requested <==> x in found || x in missing || x in rest
      invariant found !! missing && found !! rest && missing !! rest
      invariant forall c :: c in found ==> c in available
      invariant forall c :: c in missing ==> c !in available
      decreases |rest|
    {
      var c :| c in rest;
      if c in available {
        found := found + {c};
      } else {
        missing := missing + {c};
      }
      rest := rest - {c};
    }
  }

  /** The coverage statistics dictionary, `error` present only on the failure path. */
  datatype CoverageStats = CoverageStats(
    requested: nat,
    foundInSource: nat,
    missingCount: nat,
    missing: seq<string>,
    error: Option<string>)

  /** The statistics after a successful font load. */
  function SummarizeCoverage(requested: set<CodePoint>, found: set<CodePoint>, missing: set<CodePoint>)
    : (stats: CoverageStats)
    requires found + missing == requested && found !! missing
    ensures stats.requested == |requested| == stats.foundInSource + stats.missingCount
    ensures stats.foundInSource == |found| && stats.missingCount == |missing| == |stats.missing|
    ensures forall i :: 0 <= i < |stats.missing| ==> NameCode(stats.missing[i]).Some? && NameCode(stats.missing[i]).value in missing
    ensures stats.missing == CharsToUnicodeList(missing)
    ensures stats.error.None?
  {
    CoverageStats(|requested|, |found|, |missing|, if missing != {} then CharsToUnicodeList(missing) else [], None)
  }

  /** The statistics when loading the font raised: nothing found, everything missing. */
  function FailedCoverage(requested: set<CodePoint>, message: string): (stats: CoverageStats)
    ensures stats.requested == |requested| == stats.missingCount == |stats.missing|
    ensures stats.foundInSource == 0
    ensures forall i :: 0 <= i < |stats.missing| ==> NameCode(stats.missing[i]).Some? && NameCode(stats.missing[i]).value in requested
    ensures stats.missing == CharsToUnicodeList(requested)
    ensures stats.error == Some(message)
  {
    CoverageStats(|requested|, 0, |requested|, CharsToUnicodeList(requested), Some(message))
  }
}
