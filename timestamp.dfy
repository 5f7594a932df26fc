/** `DateTime.ParseExact(token, "[yyyy.MM.dd-HH.mm.ss]", InvariantCulture)` and the
    `DateTime` ordering used to drop stale events. The parse accepts exactly the
    21-character bracketed shape with fixed-width digit fields, and only dates that
    exist on the proleptic Gregorian calendar .NET uses (years 1 to 9999). */
module Timestamp {
  import opened Common

  datatype DateTime = DateTime(year: int, month: int, day: int, hour: int, minute: int, second: int)

  predicate IsLeapYear(y: int)
  {
    y % 4 == 0 && (y % 100 != 0 || y % 400 == 0)
  }

  function DaysInMonth(y: int, m: int): (d: int)
    requires 1 <= m <= 12
    ensures 28 <= d <= 31
  {
    if m == 2 then (if IsLeapYear(y) then 29 else 28)
    else if m == 4 || m == 6 || m == 9 || m == 11 then 30
    else 31
  }

  /** The values `new DateTime(y, M, d, H, m, s)` accepts. */
  predicate Valid(dt: DateTime)
  {
    && 1 <= dt.year <= 9999
    && 1 <= dt.month <= 12
    && 1 <= dt.day <= DaysInMonth(dt.year, dt.month)
    && 0 <= dt.hour < 24
    && 0 <= dt.minute < 60
    && 0 <= dt.second < 60
  }

  /** `a < b` on two `DateTime` values: chronological, so lexicographic on the fields. */
  predicate Before(a: DateTime, b: DateTime)
    ensures Before(a, b) ==> a != b
  {
    if a.year != b.year then a.year < b.year
    else if a.month != b.month then a.month < b.month
    else if a.day != b.day then a.day < b.day
    else if a.hour != b.hour then a.hour < b.hour
    else if a.minute != b.minute then a.minute < b.minute
    else a.second < b.second
  }

  predicate IsDigit(c: char)
  {
    '0' <= c <= '9'
  }

  predicate AllDigits(s: string)
  {
    forall i :: 0 <= i < |s| ==> IsDigit(s[i])
  }

  /** The value of a digit character. */
  function Digit(c: char): int
  {
    (c as int) - ('0' as int)
  }

  function DigitChar(d: nat): (c: char)
    requires d < 10
    ensures IsDigit(c) && Digit(c) == d
  {
    (('0' as int) + d) as char
  }

  function Pow10(n: nat): (p: nat)
    ensures p >= 1
  {
    if n == 0 then 1 else 10 * Pow10(n - 1)
  }

  /** The value of a run of decimal digits, most significant first. */
  function Number(s: string): (n: nat)
    requires AllDigits(s)
    ensures n < Pow10(|s|)
  {
    if |s| == 0 then 0
    else Number(s[..|s| - 1]) * 10 + Digit(s[|s| - 1])
  }

  /** `n` written with exactly `width` digits, zero-padded on the left
      (the custom format specifiers `yyyy`, `MM`, `dd`, `HH`, `mm`, `ss`). */
  function Pad(n: nat, width: nat): (s: string)
    ensures |s| == width && AllDigits(s)
  {
    if width == 0 then "" else Pad(n / 10, width - 1) + [DigitChar(n % 10)]
  }

  /** The token layout: six digit fields between the bracket and separator characters. */
  function Assemble(y: string, mo: string, d: string, h: string, mi: string, se: string): string
  {
    "[" + y + "." + mo + "." + d + "-" + h + "." + mi + "." + se + "]"
  }

  /** The timestamp token written in the log format. */
  function Format(dt: DateTime): (s: string)
    requires Valid(dt)
    ensures |s| == 21
  {
    Assemble(Pad(dt.year, 4), Pad(dt.month, 2), Pad(dt.day, 2), Pad(dt.hour, 2), Pad(dt.minute, 2), Pad(dt.second, 2))
  }

  /** The fixed characters of the layout. */
  predicate Punctuated(s: string)
  {
    && |s| == 21
    && s[0] == '[' && s[5] == '.' && s[8] == '.' && s[11] == '-'
    && s[14] == '.' && s[17] == '.' && s[20] == ']'
  }

  /** True when the token has the bracketed shape with digits in every field. */
  predicate WellShaped(s: string)
  {
    && Punctuated(s)
    && AllDigits(s[1..5]) && AllDigits(s[6..8]) && AllDigits(s[9..11])
    && AllDigits(s[12..14]) && AllDigits(s[15..17]) && AllDigits(s[18..20])
  }

  function Fields(s: string): DateTime
    requires WellShaped(s)
  {
    DateTime(Number(s[1..5]), Number(s[6..8]), Number(s[9..11]),
             Number(s[12..14]), Number(s[15..17]), Number(s[18..20]))
  }

  /** `DateTime.ParseExact(s, "[yyyy.MM.dd-HH.mm.ss]", ...)`; `None` stands for the
      `FormatException` it throws. */
  function ParseExact(s: string): (r: Option<DateTime>)
    ensures r.Some? ==> Valid(r.value) && WellShaped(s)
  {
    if WellShaped(s) && Valid(Fields(s)) then Some(Fields(s)) else None
  }

  lemma {:induction false} NumberPad(n: nat, width: nat)
    requires n < Pow10(width)
    ensures Number(Pad(n, width)) == n
    decreases width
  {
    if width > 0 {
      var p := Pad(n / 10, width - 1);
      var s := p + [DigitChar(n % 10)];
      assert s[..|s| - 1] == p;
      NumberPad(n / 10, width - 1);
    }
  }

  lemma {:induction false} PadNumber(s: string)
    requires AllDigits(s)
    ensures Pad(Number(s), |s|) == s
    decreases |s|
  {
    if |s| > 0 {
      var p := s[..|s| - 1];
      var n := Number(s);
      assert n / 10 == Number(p);
      assert n % 10 == (s[|s| - 1] as int) - ('0' as int);
      PadNumber(p);
      assert p + [s[|s| - 1]] == s;
    }
  }

  /** The fields of an assembled token are where the layout puts them. */
  lemma AssembleSlices(y: string, mo: string, d: string, h: string, mi: string, se: string)
    requires |y| == 4 && |mo| == 2 && |d| == 2 && |h| == 2 && |mi| == 2 && |se| == 2
    ensures var s := Assemble(y, mo, d, h, mi, se);
            && Punctuated(s)
            && s[1..5] == y && s[6..8] == mo && s[9..11] == d
            && s[12..14] == h && s[15..17] == mi && s[18..20] == se
  {
    var s := Assemble(y, mo, d, h, mi, se);
    var a := ['['] + y + ['.'];
    var b := a + mo + ['.'];
    var c := b + d + ['-'];
    var e := c + h + ['.'];
    var f := e + mi + ['.'];
    assert s == f + se + [']'];
    assert s[1..5] == a[1..5] == y;
    assert s[6..8] == b[6..8] == mo;
    assert s[9..11] == c[9..11] == d;
    assert s[12..14] == e[12..14] == h;
    assert s[15..17] == f[15..17] == mi;
    assert s[18..20] == (f + se)[18..20] == se;
  }

  /** A token with the layout's fixed characters is the assembly of its own fields. */
  lemma SlicesAssemble(s: string)
    requires Punctuated(s)
    ensures Assemble(s[1..5], s[6..8], s[9..11], s[12..14], s[15..17], s[18..20]) == s
  {
    var t := Assemble(s[1..5], s[6..8], s[9..11], s[12..14], s[15..17], s[18..20]);
    AssembleSlices(s[1..5], s[6..8], s[9..11], s[12..14], s[15..17], s[18..20]);
    forall i | 0 <= i < 21 ensures t[i] == s[i] {
      if 1 <= i < 5 { assert t[i] == t[1..5][i - 1]; }
      else if 6 <= i < 8 { assert t[i] == t[6..8][i - 6]; }
      else if 9 <= i < 11 { assert t[i] == t[9..11][i - 9]; }
      else if 12 <= i < 14 { assert t[i] == t[12..14][i - 12]; }
      else if 15 <= i < 17 { assert t[i] == t[15..17][i - 15]; }
      else if 18 <= i < 20 { assert t[i] == t[18..20][i - 18]; }
    }
  }

  /** Every valid timestamp survives formatting followed by parsing. */
  lemma ParseFormat(dt: DateTime)
    requires Valid(dt)
    ensures ParseExact(Format(dt)) == Some(dt)
  {
    AssembleSlices(Pad(dt.year, 4), Pad(dt.month, 2), Pad(dt.day, 2), Pad(dt.hour, 2), Pad(dt.minute, 2), Pad(dt.second, 2));
    NumberPad(dt.year, 4);
    NumberPad(dt.month, 2);
    NumberPad(dt.day, 2);
    NumberPad(dt.hour, 2);
    NumberPad(dt.minute, 2);
    NumberPad(dt.second, 2);
  }

  /** A token that parses is exactly the formatted form of what it parses to: the
      format accepts no variant spellings (no missing zeros, no extra characters). */
  lemma FormatParse(s: string)
    requires ParseExact(s).Some?
    ensures Format(ParseExact(s).value) == s
  {
    PadNumber(s[1..5]);
    PadNumber(s[6..8]);
    PadNumber(s[9..11]);
    PadNumber(s[12..14]);
    PadNumber(s[15..17]);
    PadNumber(s[18..20]);
    SlicesAssemble(s);
  }

  /** A well-shaped token contains no space, so it is always a single log-line token. */
  lemma WellShapedHasNoSpace(s: string)
    requires WellShaped(s)
    ensures ' ' !in s
  {
    forall i | 0 <= i < 21 ensures s[i] != ' ' {
      if 1 <= i < 5 { assert s[i] == s[1..5][i - 1]; }
      else if 6 <= i < 8 { assert s[i] == s[6..8][i - 6]; }
      else if 9 <= i < 11 { assert s[i] == s[9..11][i - 9]; }
      else if 12 <= i < 14 { assert s[i] == s[12..14][i - 12]; }
      else if 15 <= i < 17 { assert s[i] == s[15..17][i - 15]; }
      else if 18 <= i < 20 { assert s[i] == s[18..20][i - 18]; }
    }
  }

  lemma NumberTwo(s: string)
    requires |s| == 2 && AllDigits(s)
    ensures Number(s) == 10 * Digit(s[0]) + Digit(s[1])
  {
    assert s[..1][..0] == [];
  }

  lemma NumberFour(s: string)
    requires |s| == 4 && AllDigits(s)
    ensures Number(s) == 1000 * Digit(s[0]) + 100 * Digit(s[1]) + 10 * Digit(s[2]) + Digit(s[3])
  {
    assert s[..3][..2] == s[..2];
    NumberTwo(s[..2]);
  }

  /** A token read character by character: the layout's fixed characters and a digit
      everywhere else make it well shaped, with fields read off its digits. */
  lemma FieldsByDigits(s: string)
    requires Punctuated(s)
    requires forall i :: 0 < i < 20 && i != 5 && i != 8 && i != 11 && i != 14 && i != 17 ==> IsDigit(s[i])
    ensures WellShaped(s)
    ensures Fields(s) == DateTime(1000 * Digit(s[1]) + 100 * Digit(s[2]) + 10 * Digit(s[3]) + Digit(s[4]),
                                  10 * Digit(s[6]) + Digit(s[7]), 10 * Digit(s[9]) + Digit(s[10]),
                                  10 * Digit(s[12]) + Digit(s[13]), 10 * Digit(s[15]) + Digit(s[16]),
                                  10 * Digit(s[18]) + Digit(s[19]))
  {
    assert AllDigits(s[1..5]) by { forall i | 0 <= i < 4 ensures IsDigit(s[1..5][i]) { assert s[1..5][i] == s[i + 1]; } }
    assert AllDigits(s[6..8]) by { forall i | 0 <= i < 2 ensures IsDigit(s[6..8][i]) { assert s[6..8][i] == s[i + 6]; } }
    assert AllDigits(s[9..11]) by { forall i | 0 <= i < 2 ensures IsDigit(s[9..11][i]) { assert s[9..11][i] == s[i + 9]; } }
    assert AllDigits(s[12..14]) by { forall i | 0 <= i < 2 ensures IsDigit(s[12..14][i]) { assert s[12..14][i] == s[i + 12]; } }
    assert AllDigits(s[15..17]) by { forall i | 0 <= i < 2 ensures IsDigit(s[15..17][i]) { assert s[15..17][i] == s[i + 15]; } }
    assert AllDigits(s[18..20]) by { forall i | 0 <= i < 2 ensures IsDigit(s[18..20][i]) { assert s[18..20][i] == s[i + 18]; } }
    NumberFour(s[1..5]);
    NumberTwo(s[6..8]);
    NumberTwo(s[9..11]);
    NumberTwo(s[12..14]);
    NumberTwo(s[15..17]);
    NumberTwo(s[18..20]);
  }

  /** A punctuated timestamp whose digits spell a valid date parses to that date. */
  lemma ParseDigits(s: string, dt: DateTime)
    requires Punctuated(s)
    requires forall i :: 0 < i < 20 && i != 5 && i != 8 && i != 11 && i != 14 && i != 17 ==> IsDigit(s[i])
    requires dt == DateTime(1000 * Digit(s[1]) + 100 * Digit(s[2]) + 10 * Digit(s[3]) + Digit(s[4]),
                            10 * Digit(s[6]) + Digit(s[7]), 10 * Digit(s[9]) + Digit(s[10]),
                            10 * Digit(s[12]) + Digit(s[13]), 10 * Digit(s[15]) + Digit(s[16]),
                            10 * Digit(s[18]) + Digit(s[19]))
    requires Valid(dt)
    ensures ParseExact(s) == Some(dt)
  {
    FieldsByDigits(s);
  }

  /** `Before` is the strict chronological order: irreflexive, transitive and total. */
  lemma BeforeIsStrictTotalOrder(a: DateTime, b: DateTime, c: DateTime)
    ensures !Before(a, a)
    ensures Before(a, b) && Before(b, c) ==> Before(a, c)
    ensures a != b ==> Before(a, b) || Before(b, a)
    ensures Before(a, b) ==> !Before(b, a)
  {
  }
}
