/** The monthly file name `RADAR_<YYYY_MM>.xlsx`, built from the current year and month. */
module Period {
  import opened Wrappers

  /** A year `strftime('%Y')` writes with four digits, and a calendar month. */
  predicate ValidPeriod(year: int, month: int) {
    1000 <= year <= 9999 && 1 <= month <= 12
  }

  function Pow10(n: nat): nat {
    if n == 0 then 1 else 10 * Pow10(n - 1)
  }

  predicate IsDigit(ch: char) {
    '0' <= ch <= '9'
  }

  predicate AllDigits(s: string) {
    forall j :: 0 <= j < |s| ==> IsDigit(s[j])
  }

  /** `n` written with exactly `width` decimal digits, zero-padded on the left. */
  function Decimal(n: nat, width: nat): (s: string)
    requires n < Pow10(width)
    ensures |s| == width && AllDigits(s)
  {
    if width == 0 then ""
    else Decimal(n / 10, width - 1) + [('0' as int + n % 10) as char]
  }

  /** The number a string of decimal digits denotes. */
  function DecimalValue(s: string): nat
    requires AllDigits(s)
  {
    if s == [] then 0
    else DecimalValue(s[..|s| - 1]) * 10 + (s[|s| - 1] as int - '0' as int)
  }

  lemma {:induction false} DecimalRoundTrip(n: nat, width: nat)
    requires n < Pow10(width)
    ensures DecimalValue(Decimal(n, width)) == n
  {
    if width > 0 {
      var s := Decimal(n, width);
      assert s[..|s| - 1] == Decimal(n / 10, width - 1);
      DecimalRoundTrip(n / 10, width - 1);
    }
  }

  lemma {:induction false} DecimalValueBound(s: string)
    requires AllDigits(s)
    ensures DecimalValue(s) < Pow10(|s|)
  {
    if s != [] {
      DecimalValueBound(s[..|s| - 1]);
    }
  }

  lemma {:induction false} DecimalOfValue(s: string)
    requires AllDigits(s)
    ensures DecimalValue(s) < Pow10(|s|) && Decimal(DecimalValue(s), |s|) == s
  {
    DecimalValueBound(s);
    if s != [] {
      var init := s[..|s| - 1];
      var d := s[|s| - 1] as int - '0' as int;
      DecimalOfValue(init);
      assert DecimalValue(s) / 10 == DecimalValue(init);
      assert DecimalValue(s) % 10 == d;
      assert s == init + [s[|s| - 1]];
    }
  }

  /** `strftime('%Y_%m')`: the four-digit year, an underscore, the two-digit month. */
  function PeriodKey(year: int, month: int): (key: string)
    requires ValidPeriod(year, month)
    ensures |key| == 7 && key[4] == '_'
  {
    Decimal(year, 4) + "_" + Decimal(month, 2)
  }

  /** The name of the month's consolidated spreadsheet, locally and on the Drive. */
  function PeriodFileName(year: int, month: int): (name: string)
    requires ValidPeriod(year, month)
    ensures |name| == 18 && name[..6] == "RADAR_" && name[13..] == ".xlsx"
  {
    "RADAR_" + PeriodKey(year, month) + ".xlsx"
  }

  /** Reads the year and month back from a monthly file name. */
  function ParsePeriodFileName(name: string): Option<(int, int)> {
    if |name| == 18 && name[..6] == "RADAR_" && name[10] == '_' && name[13..] == ".xlsx"
       && AllDigits(name[6..10]) && AllDigits(name[11..13])
    then
      var year := DecimalValue(name[6..10]);
      var month := DecimalValue(name[11..13]);
      if ValidPeriod(year, month) then Some((year, month)) else None
    else None
  }

  /** The file name determines its period. */
  lemma PeriodFileNameRoundTrip(year: int, month: int)
    requires ValidPeriod(year, month)
    ensures ParsePeriodFileName(PeriodFileName(year, month)) == Some((year, month))
  {
    var name := PeriodFileName(year, month);
    assert name[6..10] == Decimal(year, 4);
    assert name[11..13] == Decimal(month, 2);
    DecimalRoundTrip(year, 4);
    DecimalRoundTrip(month, 2);
  }

  /** Every name the parser accepts is the file name of the period it reads. */
  lemma ParsePeriodFileNameSound(name: string)
    requires ParsePeriodFileName(name).Some?
    ensures var (year, month) := ParsePeriodFileName(name).value;
            ValidPeriod(year, month) && PeriodFileName(year, month) == name
  {
    DecimalOfValue(name[6..10]);
    DecimalOfValue(name[11..13]);
    var (year, month) := ParsePeriodFileName(name).value;
    assert name == name[..6] + name[6..10] + [name[10]] + name[11..13] + name[13..];
  }

  /** One file per calendar month: two periods share a file name exactly when they are equal. */
  lemma OneFilePerMonth(y1: int, m1: int, y2: int, m2: int)
    requires ValidPeriod(y1, m1) && ValidPeriod(y2, m2)
    ensures PeriodFileName(y1, m1) == PeriodFileName(y2, m2) <==> y1 == y2 && m1 == m2
  {
    PeriodFileNameRoundTrip(y1, m1);
    PeriodFileNameRoundTrip(y2, m2);
  }

  /** December 2024 is written to RADAR_2024_12.xlsx. */
  lemma PeriodFileNameExample()
    ensures PeriodFileName(2024, 12) == "RADAR_2024_12.xlsx"
  {
  }
}
