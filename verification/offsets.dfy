/** The `/notifyme` `before` argument (bot.py:123-130): the last character picks the unit, the rest
    goes through Python's int(), and the product is a signed count of minutes. */
module Offsets {
  import opened Wrappers
  import opened Text

  /** The whitespace int() strips: the ASCII characters C's isspace() accepts (space and
      tab to carriage return) and the non-ASCII characters str.isspace() accepts. The ASCII
      separators U+001C-U+001F count as whitespace for str.isspace() but not for int(). */
  predicate IntSpace(c: char) {
    IsSpace(c) && !('\U{1C}' <= c <= '\U{1F}')
  }

  function TrimStart(s: string): (t: string)
    decreases |s|
  {
    if s != [] && IntSpace(s[0]) then TrimStart(s[1..]) else s
  }

  function TrimEnd(s: string): (t: string)
    decreases |s|
  {
    if s != [] && IntSpace(s[|s| - 1]) then TrimEnd(s[..|s| - 1]) else s
  }

  /** int() ignores whitespace around the literal. */
  function Strip(s: string): string {
    TrimEnd(TrimStart(s))
  }

  /** The digits of an int() literal: a decimal digit, then digits each optionally preceded
      by one underscore (Python's `digit (["_"] digit)*`). */
  predicate IsDigitGroups(s: string)
    decreases |s|
  {
    && |s| >= 1 && IsDigit(s[0])
    && (|s| == 1
        || (IsDigit(s[1]) && IsDigitGroups(s[1..]))
        || (|s| >= 3 && s[1] == '_' && IsDigitGroups(s[2..])))
  }

  /** A digit-group literal holds only digits and underscores. */
  lemma {:induction false} DigitGroupsChars(s: string)
    requires IsDigitGroups(s)
    ensures forall k :: 0 <= k < |s| ==> IsDigit(s[k]) || s[k] == '_'
    decreases |s|
  {
    if |s| > 1 {
      if IsDigit(s[1]) && IsDigitGroups(s[1..]) {
        DigitGroupsChars(s[1..]);
        assert forall k :: 1 <= k < |s| ==> s[k] == s[1..][k - 1];
      } else {
        DigitGroupsChars(s[2..]);
        assert forall k :: 2 <= k < |s| ==> s[k] == s[2..][k - 2];
      }
    }
  }

  /** A nonempty run of digits is a digit-group literal. */
  lemma {:induction false} DigitsAreGroups(s: string)
    requires s != [] && AllDigits(s)
    ensures IsDigitGroups(s)
    decreases |s|
  {
    if |s| > 1 {
      assert AllDigits(s[1..]) by {
        forall k | 0 <= k < |s[1..]| ensures IsDigit(s[1..][k]) {
          assert s[1..][k] == s[k + 1];
        }
      }
      DigitsAreGroups(s[1..]);
    }
  }

  /** The literal with its underscores removed. */
  function WithoutUnderscores(s: string): (t: string)
    ensures (forall k :: 0 <= k < |s| ==> IsDigit(s[k]) || s[k] == '_') ==> AllDigits(t)
    decreases |s|
  {
    if s == [] then []
    else
      var rest := WithoutUnderscores(s[1..]);
      assert (forall k :: 0 <= k < |s| ==> IsDigit(s[k]) || s[k] == '_')
          ==> (forall k :: 0 <= k < |s[1..]| ==> IsDigit(s[1..][k]) || s[1..][k] == '_');
      (if s[0] == '_' then [] else [s[0]]) + rest
  }

  function Magnitude(s: string): nat
    requires IsDigitGroups(s)
  {
    DigitGroupsChars(s);
    NumberOf(WithoutUnderscores(s))
  }

  /** Python's int(s) in base 10, None where it raises ValueError. */
  function PyInt(s: string): Option<int> {
    var t := Strip(s);
    if |t| > 0 && (t[0] == '+' || t[0] == '-') then
      if IsDigitGroups(t[1..]) then
        Some(if t[0] == '-' then 0 - Magnitude(t[1..]) else Magnitude(t[1..]))
      else None
    else if IsDigitGroups(t) then Some(Magnitude(t))
    else None
  }

  lemma {:induction false} WithoutUnderscoresDigits(s: string)
    requires AllDigits(s)
    ensures WithoutUnderscores(s) == s
    decreases |s|
  {
    if s != [] {
      assert AllDigits(s[1..]) by {
        forall k | 0 <= k < |s[1..]| ensures IsDigit(s[1..][k]) {
          assert s[1..][k] == s[k + 1];
        }
      }
      WithoutUnderscoresDigits(s[1..]);
      assert s == [s[0]] + s[1..];
    }
  }

  /** A string with no whitespace at either end is its own stripped form. */
  lemma StripNoSpace(s: string)
    requires s != [] && !IntSpace(s[0]) && !IntSpace(s[|s| - 1])
    ensures Strip(s) == s
  {
    assert TrimStart(s) == s;
  }

  /** int() reads back what str() writes, for every integer. */
  lemma PyIntDecimal(n: int)
    ensures PyInt(Decimal(n)) == Some(n)
  {
    var s := Decimal(n);
    StripNoSpace(s);
    if n < 0 {
      PyIntNegative(NatDigits(-n));
    } else {
      PyIntDigits(s);
    }
  }

  lemma PyIntDigits(s: string)
    requires s != [] && AllDigits(s)
    ensures PyInt(s).Some? && PyInt(s).value == NumberOf(s)
  {
    StripNoSpace(s);
    assert !(s[0] == '+' || s[0] == '-');
    DigitsAreGroups(s);
    WithoutUnderscoresDigits(s);
  }

  lemma PyIntNegative(digits: string)
    requires digits != [] && AllDigits(digits)
    ensures PyInt("-" + digits).Some? && PyInt("-" + digits).value == 0 - NumberOf(digits)
  {
    var s := "-" + digits;
    assert s[0] == '-' && s[1..] == digits && s[|s| - 1] == digits[|digits| - 1];
    StripNoSpace(s);
    DigitsAreGroups(digits);
    PyIntMinus(s);
    WithoutUnderscoresDigits(digits);
  }

  lemma PyIntMinus(s: string)
    requires Strip(s) == s && |s| > 1 && s[0] == '-' && IsDigitGroups(s[1..])
    ensures PyInt(s).Some? && PyInt(s).value == 0 - Magnitude(s[1..])
  {
  }

  /** The `mult` table of bot.py:123: minutes per unit. */
  function Multiplier(unit: char): Option<int> {
    if unit == 'm' then Some(1)
    else if unit == 'h' then Some(60)
    else if unit == 'd' then Some(1440)
    else None
  }

  /** The minutes a `before` argument stands for, or None where bot.py:128 catches an exception. */
  function ParseOffset(before: string): (r: Option<int>)
    ensures before == [] ==> r == None
    ensures before != [] && Multiplier(before[|before| - 1]) == None ==> r == None
    ensures before != [] && PyInt(before[..|before| - 1]) == None ==> r == None
    ensures && before != []
            && PyInt(before[..|before| - 1]).Some?
            && Multiplier(before[|before| - 1]).Some?
            ==> r == Some(PyInt(before[..|before| - 1]).value * Multiplier(before[|before| - 1]).value)
  {
    if before == [] then None
    else
      match (PyInt(before[..|before| - 1]), Multiplier(before[|before| - 1]))
      case (Some(value), Some(k)) => Some(value * k)
      case _ => None
  }

  /** Every integer followed by m, h or d is accepted, as that many minutes, hours or days. */
  lemma ParseOffsetDecimal(n: int, unit: char)
    requires Multiplier(unit).Some?
    ensures ParseOffset(Decimal(n) + [unit]) == Some(n * Multiplier(unit).value)
  {
    var s := Decimal(n) + [unit];
    assert s[..|s| - 1] == Decimal(n);
    PyIntDecimal(n);
  }

  /** A sign is accepted, so a negative offset gets through. */
  lemma ParseOffsetSigned(s: string)
    requires s == "-5m"
    ensures ParseOffset(s) == Some(-5)
  {
    assert DigitChar(5) == '5';
    assert Decimal(-5) == "-5";
    assert s == Decimal(-5) + ['m'];
    ParseOffsetDecimal(-5, 'm');
  }

  /** A `before` argument of 2 hours is 120 minutes. */
  lemma ParseOffsetHours(s: string)
    requires s == "2h"
    ensures ParseOffset(s) == Some(120)
  {
    assert DigitChar(2) == '2';
    assert Decimal(2) == "2";
    assert s == Decimal(2) + ['h'];
    ParseOffsetDecimal(2, 'h');
  }

  /** A fraction is not an int() literal, and a bare unit has no number before it. */
  lemma ParseOffsetRejects(s: string, t: string)
    requires s == "1.5h" && t == "m"
    ensures ParseOffset(s) == None && ParseOffset(t) == None
  {
  }

  /** int() does not strip the file separator U+001C, although str.isspace() accepts it,
      while it does strip a tab. */
  lemma ParseOffsetSeparators(s: string, t: string)
    requires s == "\U{1C}5m" && t == "\t5m"
    ensures ParseOffset(s) == None
    ensures ParseOffset(t) == Some(5)
  {
    assert t[..2] == "\t5";
    assert TrimStart("\t5") == "5";
    assert DigitChar(5) == '5';
    PyIntDigits("5");
  }
}
