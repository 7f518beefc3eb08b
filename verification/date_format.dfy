/** `parse_datetime` (bot.py:44-48), i.e. `datetime.strptime(s, "%Y-%m-%d %H:%M")` with every
    failure turned into None, and `strftime("%Y-%m-%d %H:%M")` (bot.py:163, 166).

    strptime compiles the pattern to the regular expression
      (\d\d\d\d)-(1[0-2]|0[1-9]|[1-9])-(3[01]|[12]\d|0[1-9]|[1-9]| [1-9])\s+(2[0-3]|[0-1]\d|\d):([0-5]\d|\d)
    which must match the whole string, then builds a `datetime`, which rejects year 0 and a day
    past the end of its month. Every field is followed by a non-digit or the end, so each field
    is exactly the run of digits where it starts. */
module DateFormat {
  import opened Wrappers
  import opened Text
  import opened Calendar

  /** Length of the run of ASCII digits starting at i. */
  function DigitRun(s: string, i: nat): (n: nat)
    requires i <= |s|
    ensures i + n <= |s| && AllDigits(s[i..i + n])
    ensures i + n == |s| || !IsDigit(s[i + n])
    decreases |s| - i
  {
    if i < |s| && IsDigit(s[i]) then
      var n := 1 + DigitRun(s, i + 1);
      assert s[i..i + n] == [s[i]] + s[i + 1..i + n];
      n
    else 0
  }

  /** Length of the run of whitespace starting at i (what `\s+` consumes). */
  function SpaceRun(s: string, i: nat): (n: nat)
    requires i <= |s|
    ensures i + n <= |s|
    ensures forall k :: i <= k < i + n ==> IsSpace(s[k])
    ensures i + n == |s| || !IsSpace(s[i + n])
    decreases |s| - i
  {
    if i < |s| && IsSpace(s[i]) then 1 + SpaceRun(s, i + 1) else 0
  }

  /** A one- or two-digit field at i: its value and the index after it. */
  function Field(s: string, i: nat): Option<(int, nat)>
    requires i <= |s|
  {
    var n := DigitRun(s, i);
    if 1 <= n <= 2 then Some((NumberOf(s[i..i + n]), i + n)) else None
  }

  /** The day field, which also admits a space followed by one non-zero digit. */
  function DayField(s: string, i: nat): Option<(int, nat)>
    requires i <= |s|
  {
    if i < |s| && s[i] == ' ' then
      if i + 1 < |s| && '1' <= s[i + 1] <= '9' then Some((DigitValue(s[i + 1]), i + 2)) else None
    else Field(s, i)
  }

  /** `parse_datetime(s)`. */
  function Parse(s: string): (r: Option<DateTime>)
    ensures r.Some? ==> Valid(r.value)
  {
    if |s| < 5 || !AllDigits(s[..4]) || s[4] != '-' then None
    else match Field(s, 5)
      case None => None
      case Some((month, i)) =>
        if i == |s| || s[i] != '-' then None
        else match DayField(s, i + 1)
          case None => None
          case Some((day, j)) =>
            var k := j + SpaceRun(s, j);
            if k == j then None
            else match Field(s, k)
              case None => None
              case Some((hour, l)) =>
                if l == |s| || s[l] != ':' then None
                else match Field(s, l + 1)
                  case None => None
                  case Some((minute, e)) =>
                    var d := DateTime(NumberOf(s[..4]), month, day, hour, minute);
                    if e == |s| && Valid(d) then Some(d) else None
  }

  /** `d.strftime("%Y-%m-%d %H:%M")`: every field zero padded. */
  function Format(d: DateTime): string
    requires Valid(d)
  {
    Pad(d.year, 4) + "-" + Pad(d.month, 2) + "-" + Pad(d.day, 2) + " "
      + Pad(d.hour, 2) + ":" + Pad(d.minute, 2)
  }

  /** strftime writes the zero-padded layout, and the numbers in it are d's fields. */
  lemma FormatCanonical(d: DateTime)
    requires Valid(d)
    ensures Canonical(Format(d)) && FieldsOf(Format(d)) == d
  {
    var s := Format(d);
    assert s[..4] == Pad(d.year, 4) && s[5..7] == Pad(d.month, 2) && s[8..10] == Pad(d.day, 2);
    assert s[11..13] == Pad(d.hour, 2) && s[14..16] == Pad(d.minute, 2);
  }

  /** The zero-padded layout YYYY-MM-DD HH:MM that strftime writes. */
  predicate Canonical(s: string) {
    |s| == 16 && s[4] == '-' && s[7] == '-' && s[10] == ' ' && s[13] == ':'
    && AllDigits(s[..4]) && AllDigits(s[5..7]) && AllDigits(s[8..10])
    && AllDigits(s[11..13]) && AllDigits(s[14..16])
  }

  /** The five numbers written in a canonical string. */
  function FieldsOf(s: string): DateTime
    requires Canonical(s)
  {
    DateTime(NumberOf(s[..4]), NumberOf(s[5..7]), NumberOf(s[8..10]),
             NumberOf(s[11..13]), NumberOf(s[14..16]))
  }

  /** On a zero-padded string, parse_datetime accepts exactly the real dates and times:
      month 1-12, a day within the month (February 29 only in leap years), hour 0-23,
      minute 0-59, year 1-9999. */
  lemma ParseCanonical(s: string)
    requires Canonical(s)
    ensures Parse(s) == if Valid(FieldsOf(s)) then Some(FieldsOf(s)) else None
  {
    TwoDigitRun(s, 5);
    TwoDigitRun(s, 8);
    TwoDigitRun(s, 11);
    TwoDigitRun(s, 14);
    assert SpaceRun(s, 11) == 0;
    assert SpaceRun(s, 10) == 1;
  }

  /** In a canonical string, each two-digit field is a run of exactly two digits. */
  lemma TwoDigitRun(s: string, i: nat)
    requires i + 2 <= |s| && AllDigits(s[i..i + 2]) && (i + 2 == |s| || !IsDigit(s[i + 2]))
    ensures DigitRun(s, i) == 2
  {
    assert s[i..i + 2][0] == s[i] && s[i..i + 2][1] == s[i + 1];
    assert DigitRun(s, i + 2) == 0;
    assert DigitRun(s, i + 1) == 1;
  }

  /** Formatting and re-parsing gives back the same date-time (the re-parse at bot.py:143 of a
      time written at bot.py:163). */
  lemma ParseFormat(d: DateTime)
    requires Valid(d)
    ensures Parse(Format(d)) == Some(d)
  {
    FormatCanonical(d);
    ParseCanonical(Format(d));
  }

  /** A zero-padded string that parses is exactly the rendering of what it parses to. */
  lemma FormatParse(s: string)
    requires Canonical(s) && Parse(s).Some?
    ensures Format(Parse(s).value) == s
  {
    ParseCanonical(s);
    var d := FieldsOf(s);
    PadNumberOf(s[..4]);
    assert Pad(d.year, 4) == s[..4];
    PadNumberOf(s[5..7]);
    assert Pad(d.month, 2) == s[5..7];
    PadNumberOf(s[8..10]);
    assert Pad(d.day, 2) == s[8..10];
    PadNumberOf(s[11..13]);
    assert Pad(d.hour, 2) == s[11..13];
    PadNumberOf(s[14..16]);
    assert Pad(d.minute, 2) == s[14..16];
    CanonicalPieces(s);
  }

  lemma CanonicalPieces(s: string)
    requires Canonical(s)
    ensures s == s[..4] + "-" + s[5..7] + "-" + s[8..10] + " " + s[11..13] + ":" + s[14..16]
  {
    var t := s[..4] + "-" + s[5..7] + "-" + s[8..10] + " " + s[11..13] + ":" + s[14..16];
    assert |t| == 16;
    forall k | 0 <= k < 16 ensures t[k] == s[k] {
    }
  }

  /** strptime also takes one-digit fields; such a string stays as typed in the record
      (bot.py:65, 74) and differs from the zero-padded text an advance writes (bot.py:163). */
  lemma ParseOneDigitFields(s: string)
    requires s == "2025-8-5 9:05"
    ensures Parse(s) == Some(DateTime(2025, 8, 5, 9, 5))
    ensures Format(Parse(s).value) != s
  {
    OneDigitFieldRuns(s);
  }

  lemma OneDigitFieldRuns(s: string)
    requires s == "2025-8-5 9:05"
    ensures DigitRun(s, 5) == 1 && DigitRun(s, 7) == 1 && SpaceRun(s, 8) == 1
    ensures DigitRun(s, 9) == 1 && DigitRun(s, 11) == 2
    ensures AllDigits(s[..4]) && NumberOf(s[..4]) == 2025 && NumberOf(s[5..6]) == 8
    ensures NumberOf(s[7..8]) == 5 && NumberOf(s[9..10]) == 9 && NumberOf(s[11..13]) == 5
  {
    OneDigitFieldValues(s);
    assert DigitRun(s, 5) == 1;
    assert DigitRun(s, 7) == 1;
    assert DigitRun(s, 9) == 1;
    assert DigitRun(s, 11) == 2;
  }

  lemma OneDigitFieldValues(s: string)
    requires s == "2025-8-5 9:05"
    ensures AllDigits(s[..4]) && NumberOf(s[..4]) == 2025 && NumberOf(s[5..6]) == 8
    ensures NumberOf(s[7..8]) == 5 && NumberOf(s[9..10]) == 9 && NumberOf(s[11..13]) == 5
  {
    assert s[..4] == "2025" && s[5..6] == "8" && s[7..8] == "5" && s[9..10] == "9";
    assert s[11..13] == "05";
    NumberOfShort("2025");
    NumberOfShort("8");
    NumberOfShort("5");
    NumberOfShort("9");
    NumberOfShort("05");
  }

  /** February 29 is a real date in 2024 and not in 2025. */
  lemma ParseLeapDay(s: string, t: string)
    requires s == "2024-02-29 10:00" && t == "2025-02-29 10:00"
    ensures Parse(s) == Some(DateTime(2024, 2, 29, 10, 0))
    ensures Parse(t) == None
  {
    LeapDayFields(s);
    CommonYearLeapDayFields(t);
    ParseCanonical(s);
    ParseCanonical(t);
  }

  lemma LeapDayFields(s: string)
    requires s == "2024-02-29 10:00"
    ensures Canonical(s) && FieldsOf(s) == DateTime(2024, 2, 29, 10, 0)
  {
    assert s[..4] == "2024" && s[5..7] == "02" && s[8..10] == "29";
    assert s[11..13] == "10" && s[14..16] == "00";
    NumberOfShort("2024");
    NumberOfShort("02");
    NumberOfShort("29");
    NumberOfShort("10");
    NumberOfShort("00");
  }

  lemma CommonYearLeapDayFields(s: string)
    requires s == "2025-02-29 10:00"
    ensures Canonical(s) && FieldsOf(s) == DateTime(2025, 2, 29, 10, 0)
  {
    assert s[..4] == "2025" && s[5..7] == "02" && s[8..10] == "29";
    assert s[11..13] == "10" && s[14..16] == "00";
    NumberOfShort("2025");
    NumberOfShort("02");
    NumberOfShort("29");
    NumberOfShort("10");
    NumberOfShort("00");
  }

  /** strftime pads every field: the day after 2025-08-05 14:30 is written
      "2025-08-06 14:30", and that text reads back as the same date-time. */
  lemma FormatPadsFields(s: string)
    requires s == "2025-08-06 14:30"
    ensures Parse(s) == Some(DateTime(2025, 8, 6, 14, 30))
    ensures Format(DateTime(2025, 8, 6, 14, 30)) == s
  {
    PaddedFields(s);
    ParseCanonical(s);
    FormatParse(s);
  }

  lemma PaddedFields(s: string)
    requires s == "2025-08-06 14:30"
    ensures Canonical(s) && FieldsOf(s) == DateTime(2025, 8, 6, 14, 30)
  {
    assert s[..4] == "2025" && s[5..7] == "08" && s[8..10] == "06";
    assert s[11..13] == "14" && s[14..16] == "30";
    NumberOfShort(s[..4]);
    NumberOfShort("08");
    NumberOfShort("06");
    NumberOfShort("14");
    NumberOfShort("30");
  }
}
