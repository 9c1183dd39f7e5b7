/** The duration parser (src/parseDuration.js): a finite number is taken as milliseconds, a
    string such as "500ms", "2s", "1.5m" or "1h" is lower-cased, trimmed, matched against
    `^(\d+(?:\.\d+)?)\s*(ms|s|m|h)$` and scaled by its unit's multiplier; anything else throws.
    Values are exact reals: the rounding of `parseFloat` is not modelled. */
module Durations {
  import opened Values

  datatype Unit = Ms | Sec | Min | Hour

  /** The `timeMultipliers` table. */
  function Multiplier(u: Unit): real
  {
    match u
    case Ms => 1.0
    case Sec => 1000.0
    case Min => 60000.0
    case Hour => 3600000.0
  }

  /** `value * timeMultipliers[unit]`, written per unit. */
  function Scaled(x: real, u: Unit): real
  {
    match u
    case Ms => x
    case Sec => x * 1000.0
    case Min => x * 60000.0
    case Hour => x * 3600000.0
  }

  function UnitText(u: Unit): string
  {
    match u
    case Ms => "ms"
    case Sec => "s"
    case Min => "m"
    case Hour => "h"
  }

  /** JavaScript's white space and line terminators: the characters `trim()` removes and `\s`
      matches. */
  predicate IsSpace(c: char)
  {
    var n := c as int;
    n == 0x09 || n == 0x0A || n == 0x0B || n == 0x0C || n == 0x0D || n == 0x20 ||
    n == 0xA0 || n == 0x1680 || (0x2000 <= n <= 0x200A) || n == 0x2028 || n == 0x2029 ||
    n == 0x202F || n == 0x205F || n == 0x3000 || n == 0xFEFF
  }

  predicate IsDigit(c: char)
  {
    '0' <= c <= '9'
  }

  predicate AllDigits(s: string)
  {
    forall i :: 0 <= i < |s| ==> IsDigit(s[i])
  }

  predicate AllSpace(s: string)
  {
    forall i :: 0 <= i < |s| ==> IsSpace(s[i])
  }

  /** `toLowerCase()` on the ASCII letters. No character outside ASCII lower-cases to a digit,
      a dot, white space or one of the letters m, s, h, so acceptance does not depend on the
      rest of Unicode's case mapping. */
  function LowerChar(c: char): char
  {
    if 'A' <= c <= 'Z' then (c as int + 32) as char else c
  }

  function Lower(s: string): (r: string)
    ensures |r| == |s|
  {
    if s == [] then [] else [LowerChar(s[0])] + Lower(s[1..])
  }

  function TrimStart(s: string): string
  {
    if |s| > 0 && IsSpace(s[0]) then TrimStart(s[1..]) else s
  }

  function TrimEnd(s: string): string
  {
    if |s| > 0 && IsSpace(s[|s| - 1]) then TrimEnd(s[..|s| - 1]) else s
  }

  function Normalize(s: string): string
  {
    TrimEnd(TrimStart(Lower(s)))
  }

  /** Length of the run of digits that starts the string. */
  function DigitRun(s: string): (k: nat)
    ensures k <= |s|
    ensures AllDigits(s[..k])
    ensures k < |s| ==> !IsDigit(s[k])
  {
    if |s| > 0 && IsDigit(s[0]) then
      var k := 1 + DigitRun(s[1..]);
      assert s[..k] == [s[0]] + s[1..][..k - 1];
      k
    else 0
  }

  /** The numeral of the pattern: `\d+(?:\.\d+)?`. */
  predicate IsNumeral(n: string)
  {
    var k := DigitRun(n);
    k > 0 && (k == |n| || (n[k] == '.' && k + 1 < |n| && AllDigits(n[k + 1..])))
  }

  function DigitsValue(d: string): nat
    requires AllDigits(d)
  {
    if d == [] then 0 else DigitsValue(d[..|d| - 1]) * 10 + (d[|d| - 1] as int - '0' as int)
  }

  /** The value of the digits after a decimal point: ".25" is (2 + 5 / 10) / 10. */
  function FractionValue(d: string): (r: real)
    requires AllDigits(d)
    ensures 0.0 <= r < 1.0
  {
    if d == [] then 0.0
    else
      assert AllDigits(d[1..]) by {
        forall i | 0 <= i < |d[1..]| ensures IsDigit(d[1..][i]) { assert d[1..][i] == d[i + 1]; }
      }
      ((d[0] as int - '0' as int) as real + FractionValue(d[1..])) / 10.0
  }

  /** `parseFloat` of a numeral, as an exact decimal. */
  function NumeralValue(n: string): real
    requires IsNumeral(n)
  {
    var k := DigitRun(n);
    var whole := DigitsValue(n[..k]) as real;
    if k == |n| then whole else whole + FractionValue(n[k + 1..])
  }

  /** Splits off the unit at the end of an already normalised text; the unit alternatives are
      tried so that "ms" wins over "s", as the regular expression does (a numeral can never end
      in "m"). */
  function SplitUnit(t: string): Option<(string, Unit)>
  {
    if |t| >= 2 && t[|t| - 2..] == "ms" then Some((t[..|t| - 2], Ms))
    else if |t| >= 1 && t[|t| - 1] == 's' then Some((t[..|t| - 1], Sec))
    else if |t| >= 1 && t[|t| - 1] == 'm' then Some((t[..|t| - 1], Min))
    else if |t| >= 1 && t[|t| - 1] == 'h' then Some((t[..|t| - 1], Hour))
    else None
  }

  /** The match of a normalised text against the pattern, and the scaled value. */
  function ParseText(t: string): (r: Result<real>)
    ensures r.Err? ==> r.error == InvalidDurationFormat
  {
    var split := SplitUnit(t);
    if split.None? then Err(InvalidDurationFormat)
    else
      var n := TrimEnd(split.value.0);
      if IsNumeral(n) then Ok(Scaled(NumeralValue(n), split.value.1)) else Err(InvalidDurationFormat)
  }

  /** `parseDuration(input)`: a string that does not parse is a format error, and a value that
      is neither a number nor a string is a TypeError. */
  function ParseDuration(v: Value): (r: Result<real>)
    ensures r.Err? ==> r.error == (if v.Str? then InvalidDurationFormat else TypeError)
  {
    match v
    case Number(x) => Ok(x)
    case Str(s) => ParseText(Normalize(s))
    case _ => Err(TypeError)
  }

  // ---------------------------------------------------------------------------------------
  // Properties

  /** A finite number comes back unchanged, negative and fractional ones included. */
  lemma NumberUnchanged(x: real)
    ensures ParseDuration(Number(x)) == Ok(x)
  {
  }

  /** Anything that is neither a finite number nor a string is a TypeError (NaN and the
      infinities included). */
  lemma NonStringIsTypeError(v: Value)
    requires !v.Number? && !v.Str?
    ensures ParseDuration(v) == Err(TypeError)
  {
  }

  lemma {:induction false} TrimEndOfSpaces(n: string, sp: string)
    requires |n| > 0 && !IsSpace(n[|n| - 1])
    requires AllSpace(sp)
    ensures TrimEnd(n + sp) == n
    decreases |sp|
  {
    if sp == [] {
      assert n + sp == n;
    } else {
      var t := n + sp;
      assert t[|t| - 1] == sp[|sp| - 1];
      assert t[..|t| - 1] == n + sp[..|sp| - 1];
      TrimEndOfSpaces(n, sp[..|sp| - 1]);
    }
  }

  lemma {:induction false} TrimEndSplits(p: string)
    ensures |TrimEnd(p)| <= |p|
    ensures TrimEnd(p) == p[..|TrimEnd(p)|]
    ensures AllSpace(p[|TrimEnd(p)|..])
    decreases |p|
  {
    if |p| > 0 && IsSpace(p[|p| - 1]) {
      var q := p[..|p| - 1];
      TrimEndSplits(q);
      var k := |TrimEnd(q)|;
      assert p[..k] == q[..k];
      assert p[k..] == q[k..] + [p[|p| - 1]];
    }
  }

  lemma NumeralEndsInDigit(n: string)
    requires IsNumeral(n)
    ensures |n| > 0 && IsDigit(n[|n| - 1]) && IsDigit(n[0])
  {
    var k := DigitRun(n);
    assert n[..k][0] == n[0];
    if k == |n| {
      assert n[..k][k - 1] == n[k - 1];
    } else {
      assert n[k + 1..][|n| - k - 2] == n[|n| - 1];
    }
  }

  lemma SplitUnitOf(p: string, u: Unit)
    requires |p| > 0 && p[|p| - 1] != 'm'
    ensures SplitUnit(p + UnitText(u)) == Some((p, u))
  {
    var t := p + UnitText(u);
    match u
    case Ms =>
      assert t[|t| - 2..] == "ms";
      assert t[..|t| - 2] == p;
    case Sec =>
      assert t[|t| - 2] == p[|p| - 1];
      assert t[|t| - 2..] != "ms";
      assert t[..|t| - 1] == p;
    case Min =>
      assert t[|t| - 1] == 'm';
      assert t[|t| - 2..][1] != "ms"[1];
      assert t[..|t| - 1] == p;
    case Hour =>
      assert t[|t| - 1] == 'h';
      assert t[|t| - 2..][1] != "ms"[1];
      assert t[..|t| - 1] == p;
  }

  /** Completeness: every text of the pattern's shape (numeral, white space, unit) is accepted,
      with the numeral's value times the unit's multiplier. */
  lemma AcceptsPattern(n: string, sp: string, u: Unit)
    requires IsNumeral(n) && AllSpace(sp)
    ensures ParseText(n + sp + UnitText(u)) == Ok(NumeralValue(n) * Multiplier(u))
  {
    var p := n + sp;
    LastOfPadded(n, sp);
    SplitUnitOf(p, u);
    TrimEndOfSpaces(n, sp);
    ParseTextOfSplit(p + UnitText(u), p, u);
    ScaledIsProduct(NumeralValue(n), u);
  }

  lemma ScaledIsProduct(x: real, u: Unit)
    ensures Scaled(x, u) == x * Multiplier(u)
    ensures Scaled(x, u) / Multiplier(u) == x
  {
  }

  /** A normalised text whose unit splits off, leaving a numeral before the white space, is
      accepted with that numeral's value. */
  lemma ParseTextOfSplit(t: string, p: string, u: Unit)
    requires SplitUnit(t) == Some((p, u)) && IsNumeral(TrimEnd(p))
    ensures ParseText(t) == Ok(Scaled(NumeralValue(TrimEnd(p)), u))
  {
    var split := SplitUnit(t);
    assert split.value.0 == p && split.value.1 == u;
    var n := TrimEnd(split.value.0);
    assert n == TrimEnd(p);
  }

  /** A numeral, padded with white space or not, ends in neither 'm' nor white space before
      the padding. */
  lemma LastOfPadded(n: string, sp: string)
    requires IsNumeral(n) && AllSpace(sp)
    ensures |n| > 0 && !IsSpace(n[|n| - 1])
    ensures |n + sp| > 0 && (n + sp)[|n + sp| - 1] != 'm'
  {
    NumeralEndsInDigit(n);
    var p := n + sp;
    if |sp| > 0 {
      assert p[|p| - 1] == sp[|sp| - 1];
      assert IsSpace(sp[|sp| - 1]);
    } else {
      assert p[|p| - 1] == n[|n| - 1];
    }
  }

  /** Soundness: an accepted text has exactly that shape, and its value is the numeral's value
      times the unit's multiplier. With AcceptsPattern this is the pattern's if-and-only-if. */
  lemma AcceptedHasPattern(t: string)
    requires ParseText(t).Ok?
    ensures exists n: string, sp: string, u: Unit ::
      IsNumeral(n) && AllSpace(sp) && t == n + sp + UnitText(u) &&
      ParseText(t).value == NumeralValue(n) * Multiplier(u)
  {
    var prefix, u := AcceptedSplit(t);
    var n := TrimEnd(prefix);
    TrimEndSplits(prefix);
    var sp := prefix[|n|..];
    assert prefix == n + sp;
    ScaledIsProduct(NumeralValue(n), u);
    assert IsNumeral(n) && AllSpace(sp) && t == n + sp + UnitText(u);
  }

  /** An accepted text splits into a prefix and a unit, and its value comes from the numeral
      before the prefix's trailing white space. */
  lemma AcceptedSplit(t: string) returns (prefix: string, u: Unit)
    requires ParseText(t).Ok?
    ensures t == prefix + UnitText(u) && IsNumeral(TrimEnd(prefix))
    ensures ParseText(t).value == Scaled(NumeralValue(TrimEnd(prefix)), u)
  {
    var split := SplitUnit(t);
    prefix, u := split.value.0, split.value.1;
    match u
    case Ms => assert t == t[..|t| - 2] + t[|t| - 2..];
    case _ => assert t == t[..|t| - 1] + [t[|t| - 1]];
  }

  lemma NumeralNonNegative(n: string)
    requires IsNumeral(n)
    ensures NumeralValue(n) >= 0.0
  {
  }

  /** Every accepted string yields a duration of at least zero. */
  lemma StringDurationNonNegative(s: string)
    requires ParseDuration(Str(s)).Ok?
    ensures ParseDuration(Str(s)).value >= 0.0
  {
    var t := Normalize(s);
    var prefix, u := SplitUnit(t).value.0, SplitUnit(t).value.1;
    NumeralNonNegative(TrimEnd(prefix));
  }

  lemma {:induction false} LowerKeepsLowerText(t: string)
    requires forall i :: 0 <= i < |t| ==> !('A' <= t[i] <= 'Z')
    ensures Lower(t) == t
    decreases |t|
  {
    if t != [] {
      LowerKeepsLowerText(t[1..]);
    }
  }

  lemma NumeralChars(n: string)
    requires IsNumeral(n)
    ensures forall i :: 0 <= i < |n| ==> IsDigit(n[i]) || n[i] == '.'
  {
    var k := DigitRun(n);
    forall i | 0 <= i < |n| ensures IsDigit(n[i]) || n[i] == '.' {
      if i < k {
        assert n[..k][i] == n[i];
      } else if i > k {
        assert n[k + 1..][i - k - 1] == n[i];
      }
    }
  }

  lemma WrittenHasNoUpper(n: string, u: Unit)
    requires IsNumeral(n)
    ensures var t := n + UnitText(u); forall i :: 0 <= i < |t| ==> !('A' <= t[i] <= 'Z')
  {
    var t := n + UnitText(u);
    NumeralChars(n);
    forall i | 0 <= i < |t| ensures !('A' <= t[i] <= 'Z') {
      if i < |n| {
        assert t[i] == n[i];
      } else {
        assert t[i] == UnitText(u)[i - |n|];
      }
    }
  }

  /** A written duration starts with a digit and ends with a unit letter: there is nothing to
      trim. */
  lemma WrittenIsTrimmed(n: string, u: Unit)
    requires IsNumeral(n)
    ensures TrimStart(n + UnitText(u)) == n + UnitText(u)
    ensures TrimEnd(n + UnitText(u)) == n + UnitText(u)
  {
    var t := n + UnitText(u);
    NumeralEndsInDigit(n);
    assert t[0] == n[0];
    assert t[|t| - 1] == UnitText(u)[|UnitText(u)| - 1];
  }

  lemma WrittenIsNormal(n: string, u: Unit)
    requires IsNumeral(n)
    ensures Normalize(n + UnitText(u)) == n + UnitText(u)
  {
    WrittenHasNoUpper(n, u);
    LowerKeepsLowerText(n + UnitText(u));
    WrittenIsTrimmed(n, u);
  }

  /** A numeral written with a unit, as "1.5m" or "500ms", parses to the numeral's value in that
      unit: dividing the result by the unit's multiplier gives back the written magnitude. */
  lemma WrittenDurationRoundTrip(n: string, u: Unit)
    requires IsNumeral(n)
    ensures ParseDuration(Str(n + UnitText(u))) == Ok(NumeralValue(n) * Multiplier(u))
    ensures ParseDuration(Str(n + UnitText(u))).value / Multiplier(u) == NumeralValue(n)
  {
    WrittenIsNormal(n, u);
    AcceptsPattern(n, [], u);
    assert n + [] + UnitText(u) == n + UnitText(u);
    ScaledIsProduct(NumeralValue(n), u);
  }

  /** The shapes the parser turns away with the invalid-format error: no number and an unknown
      unit. */
  lemma RejectedExamples()
    ensures ParseDuration(Str("")) == Err(InvalidDurationFormat)
    ensures ParseDuration(Str("2x")) == Err(InvalidDurationFormat)
  {
    assert Normalize("") == "";
    assert SplitUnit("") == None;
    assert Normalize("2x") == "2x";
    assert SplitUnit("2x") == None;
  }

  /** A sign is not part of the pattern. */
  lemma RejectedSign()
    ensures ParseDuration(Str("-1s")) == Err(InvalidDurationFormat)
  {
    assert Normalize("-1s") == "-1s";
    assert "-1s"[2] == 's' && "-1s"[1..] != "ms" && "-1s"[..2] == "-1";
    assert TrimEnd("-1") == "-1";
    assert DigitRun("-1") == 0;
  }

  /** A decimal point needs digits on both sides. */
  lemma RejectedDecimalPoints()
    ensures ParseDuration(Str(".5s")) == Err(InvalidDurationFormat)
    ensures ParseDuration(Str("1.s")) == Err(InvalidDurationFormat)
  {
    assert Normalize(".5s") == ".5s";
    assert TrimEnd(".5") == ".5";
    assert DigitRun(".5") == 0;
    assert Normalize("1.s") == "1.s";
    assert TrimEnd("1.") == "1.";
    assert DigitRun("1.") == 1;
  }

  lemma DigitsValue500()
    ensures IsNumeral("500") && NumeralValue("500") == 500.0
  {
    assert DigitRun("500"[2..]) == 1;
    assert DigitRun("500"[1..]) == 2;
    assert DigitRun("500") == 3;
    assert "500"[..3] == "500" && "500"[..2] == "50" && "50"[..1] == "5" && "5"[..0] == "";
    assert DigitsValue("5") == 5;
    assert DigitsValue("50") == 50;
  }

  lemma NumeralOneAndAHalf()
    ensures IsNumeral("1.5") && NumeralValue("1.5") == 1.5
  {
    assert DigitRun("1.5"[1..]) == 0;
    assert DigitRun("1.5") == 1;
    assert "1.5"[..1] == "1" && "1"[..0] == "" && "1.5"[2..] == "5" && "5"[1..] == "";
    assert DigitsValue("1") == 1 && FractionValue("5") == 0.5;
  }

  lemma NumeralTwo()
    ensures IsNumeral("2") && NumeralValue("2") == 2.0
  {
    assert DigitRun("2"[1..]) == 0;
    assert DigitRun("2") == 1;
    assert "2"[..1] == "2" && "2"[..0] == "";
  }

  /** The documented examples, including upper case and surrounding white space. */
  lemma AcceptedExamples()
    ensures ParseDuration(Str("500ms")) == Ok(500.0)
    ensures ParseDuration(Str("1.5m")) == Ok(90000.0)
    ensures ParseDuration(Str(" 2S ")) == Ok(2000.0)
  {
    AcceptedMilliseconds();
    AcceptedMinutes();
    AcceptedPaddedSeconds();
  }

  lemma AcceptedMilliseconds()
    ensures ParseDuration(Str("500ms")) == Ok(500.0)
  {
    DigitsValue500();
    WrittenDurationRoundTrip("500", Ms);
    assert "500" + UnitText(Ms) == "500ms";
  }

  lemma AcceptedMinutes()
    ensures ParseDuration(Str("1.5m")) == Ok(90000.0)
  {
    NumeralOneAndAHalf();
    WrittenDurationRoundTrip("1.5", Min);
    assert "1.5" + UnitText(Min) == "1.5m";
  }

  lemma AcceptedPaddedSeconds()
    ensures ParseDuration(Str(" 2S ")) == Ok(2000.0)
  {
    NumeralTwo();
    PaddedUpperNormalizes();
    SameNormalForm(" 2S ", "2s");
    WrittenDurationRoundTrip("2", Sec);
    assert "2" + UnitText(Sec) == "2s";
  }

  lemma SameNormalForm(s: string, t: string)
    requires Normalize(s) == Normalize(t)
    ensures ParseDuration(Str(s)) == ParseDuration(Str(t))
  {
  }

  lemma PaddedUpperNormalizes()
    ensures Normalize(" 2S ") == "2s" && Normalize("2s") == "2s"
  {
    assert Lower(" 2S ") == " 2s ";
    assert TrimStart(" 2s ") == "2s ";
    assert TrimEnd("2s ") == "2s";
    assert Lower("2s") == "2s";
  }
}
