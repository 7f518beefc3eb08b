/** Characters and decimal digit strings, as Python's text handling sees them. */
module Text {

  /** An ASCII decimal digit. */
  predicate IsDigit(c: char) {
    '0' <= c <= '9'
  }

  function DigitValue(c: char): (n: nat)
    requires IsDigit(c)
    ensures n < 10
  {
    c as int - '0' as int
  }

  function DigitChar(n: nat): (c: char)
    requires n < 10
    ensures IsDigit(c) && DigitValue(c) == n
  {
    ('0' as int + n) as char
  }

  predicate AllDigits(s: string) {
    forall k :: 0 <= k < |s| ==> IsDigit(s[k])
  }

  /** The value of a string of decimal digits, most significant first. */
  function NumberOf(s: string): nat
    requires AllDigits(s)
  {
    if s == [] then 0 else NumberOf(s[..|s| - 1]) * 10 + DigitValue(s[|s| - 1])
  }

  function Pow10(w: nat): (p: nat)
    ensures p >= 1
  {
    if w == 0 then 1 else 10 * Pow10(w - 1)
  }

  /** NumberOf spelled out for the short digit strings of a date. */
  lemma NumberOfShort(s: string)
    requires AllDigits(s) && 1 <= |s| <= 4
    ensures |s| == 1 ==> NumberOf(s) == DigitValue(s[0])
    ensures |s| == 2 ==> NumberOf(s) == 10 * DigitValue(s[0]) + DigitValue(s[1])
    ensures |s| == 4 ==> NumberOf(s) == 1000 * DigitValue(s[0]) + 100 * DigitValue(s[1])
                                        + 10 * DigitValue(s[2]) + DigitValue(s[3])
  {
    var a := s[..|s| - 1];
    if |s| >= 2 {
      var b := a[..|a| - 1];
      assert b[..0] == [];
      if |s| == 4 {
        var c := b[..|b| - 1];
        assert c[..|c| - 1] == [];
      }
    } else {
      assert a == [];
    }
  }

  /** The w-digit zero-padded decimal rendering of n. */
  function Pad(n: nat, w: nat): (s: string)
    requires n < Pow10(w)
    ensures |s| == w && AllDigits(s) && NumberOf(s) == n
  {
    if w == 0 then ""
    else
      var s := Pad(n / 10, w - 1) + [DigitChar(n % 10)];
      assert s[..|s| - 1] == Pad(n / 10, w - 1);
      s
  }

  /** A digit string is its own zero-padded rendering at its own width. */
  lemma {:induction false} PadNumberOf(s: string)
    requires AllDigits(s)
    ensures NumberOf(s) < Pow10(|s|) && Pad(NumberOf(s), |s|) == s
  {
    if s != [] {
      var init := s[..|s| - 1];
      PadNumberOf(init);
      assert NumberOf(s) / 10 == NumberOf(init);
      assert s == init + [s[|s| - 1]];
    }
  }

  /** The shortest decimal rendering of n (the digits of Python's str(n) for n >= 0). */
  function NatDigits(n: nat): (s: string)
    ensures 1 <= |s| && AllDigits(s) && NumberOf(s) == n
  {
    if n < 10 then [DigitChar(n)]
    else
      var s := NatDigits(n / 10) + [DigitChar(n % 10)];
      assert s[..|s| - 1] == NatDigits(n / 10);
      s
  }

  /** Python's str(n): an optional minus sign, then the digits. */
  function Decimal(n: int): (s: string)
    ensures 1 <= |s| && IsDigit(s[|s| - 1])
  {
    if n < 0 then "-" + NatDigits(-n) else NatDigits(n)
  }

  /** The characters Python's str.isspace() accepts, which are also what `\s` matches in a
      str pattern. */
  predicate IsSpace(c: char) {
    var k := c as int;
    k == 0x20 || 0x09 <= k <= 0x0D || 0x1C <= k <= 0x1F || k == 0x85 || k == 0xA0
    || k == 0x1680 || 0x2000 <= k <= 0x200A || k == 0x2028 || k == 0x2029
    || k == 0x202F || k == 0x205F || k == 0x3000
  }
}
