/** The timestamped file names of `download()` and `transform()`:
    `caso_full_` + `strftime("%Y%m%d_%H_%M")` + a fixed extension. */
module FileNames {
  import opened Base

  const RawDir := "data_lake/raw/"
  const TrustedDir := "data_lake/trusted/"
  const Dataset := "caso_full_"
  const RawSuffix := ".csv.gz"
  const TrustedSuffix := ".parquet.gzip"

  /** A local time to the minute, as `datetime.now()` would give it. */
  datatype DateTime = DateTime(year: int, month: int, day: int, hour: int, minute: int)

  /** Bounds that every Python `datetime` meets: its year, month, hour and
      minute ranges, and a day of at most 31 (Python further limits the
      day to the length of the month; the name format does not need it). */
  predicate ValidDateTime(t: DateTime) {
    && 1 <= t.year <= 9999
    && 1 <= t.month <= 12
    && 1 <= t.day <= 31
    && 0 <= t.hour < 24
    && 0 <= t.minute < 60
  }

  predicate IsDigit(c: char) {
    '0' <= c <= '9'
  }

  predicate AllDigits(s: string) {
    forall i :: 0 <= i < |s| ==> IsDigit(s[i])
  }

  function DigitChar(d: nat): (c: char)
    requires d < 10
    ensures IsDigit(c)
  {
    (48 + d) as char
  }

  function DigitValue(c: char): (d: nat)
    requires IsDigit(c)
    ensures d < 10
  {
    c as int - 48
  }

  /** The decimal digits of `n`, without leading zeros. */
  function Decimal(n: nat): (s: string)
    ensures |s| >= 1 && AllDigits(s)
    decreases n
  {
    if n < 10 then [DigitChar(n)] else Decimal(n / 10) + [DigitChar(n % 10)]
  }

  /** The number a string of decimal digits denotes. */
  function DecimalValue(s: string): nat
    requires AllDigits(s)
  {
    if s == [] then 0 else 10 * DecimalValue(s[..|s| - 1]) + DigitValue(s[|s| - 1])
  }

  /** Two digits with a leading zero, as `%m`, `%d`, `%H` and `%M` print. */
  function Pad2(n: nat): (s: string)
    requires n < 100
    ensures |s| == 2 && AllDigits(s)
  {
    [DigitChar(n / 10), DigitChar(n % 10)]
  }

  /** `strftime("%Y%m%d_%H_%M")`. `%Y` prints the year's digits without
      padding, as the C library on Linux does. */
  function Stamp(t: DateTime): (s: string)
    requires ValidDateTime(t)
    ensures |s| == |Decimal(t.year)| + 10
    ensures s[|s| - 6] == '_' && s[|s| - 3] == '_'
    ensures forall i :: 0 <= i < |s| && i != |s| - 6 && i != |s| - 3 ==> IsDigit(s[i])
  {
    Decimal(t.year) + Pad2(t.month) + Pad2(t.day) + "_" + Pad2(t.hour) + "_" + Pad2(t.minute)
  }

  /** The name `download()` gives the raw snapshot. */
  function RawFileName(t: DateTime): (name: string)
    requires ValidDateTime(t)
    ensures |name| > |Dataset| + |RawSuffix| && Dataset <= name
    ensures name[|name| - |RawSuffix|..] == RawSuffix
    ensures ParseFileName(name, RawSuffix) == Some(t)
  {
    FileNameRoundTrip(t, RawSuffix);
    Dataset + Stamp(t) + RawSuffix
  }

  /** The name `transform()` gives the trusted table. */
  function TrustedFileName(t: DateTime): (name: string)
    requires ValidDateTime(t)
    ensures |name| > |Dataset| + |TrustedSuffix| && Dataset <= name
    ensures name[|name| - |TrustedSuffix|..] == TrustedSuffix
    ensures ParseFileName(name, TrustedSuffix) == Some(t)
  {
    FileNameRoundTrip(t, TrustedSuffix);
    Dataset + Stamp(t) + TrustedSuffix
  }

  /** Reads a stamp back: the last ten characters hold month, day, hour
      and minute with their separators, everything before them the year. */
  function ParseStamp(s: string): Option<DateTime> {
    if |s| < 11 then None
    else
      var n := |s| - 10;
      if && AllDigits(s[..n]) && AllDigits(s[n..n + 2]) && AllDigits(s[n + 2..n + 4])
         && s[n + 4] == '_' && AllDigits(s[n + 5..n + 7])
         && s[n + 7] == '_' && AllDigits(s[n + 8..])
      then
        Some(DateTime(DecimalValue(s[..n]), DecimalValue(s[n..n + 2]), DecimalValue(s[n + 2..n + 4]),
                      DecimalValue(s[n + 5..n + 7]), DecimalValue(s[n + 8..])))
      else None
  }

  /** Reads a file name back: the dataset prefix, a stamp, the suffix. */
  function ParseFileName(name: string, suffix: string): Option<DateTime> {
    var p := |Dataset|;
    if |name| >= p + |suffix| && name[..p] == Dataset && name[|name| - |suffix|..] == suffix
    then ParseStamp(name[p..|name| - |suffix|])
    else None
  }

  lemma {:induction false} DecimalRoundTrip(n: nat)
    ensures DecimalValue(Decimal(n)) == n
    decreases n
  {
    var s := Decimal(n);
    if n >= 10 {
      DecimalRoundTrip(n / 10);
      assert s[..|s| - 1] == Decimal(n / 10);
    }
  }

  lemma Pad2RoundTrip(n: nat)
    requires n < 100
    ensures DecimalValue(Pad2(n)) == n
  {
    var s := Pad2(n);
    assert s[..1][..0] == [];
    assert DecimalValue(s[..1]) == n / 10;
  }

  /** Parsing a stamp gives back the time it was printed from. */
  lemma StampRoundTrip(t: DateTime)
    requires ValidDateTime(t)
    ensures ParseStamp(Stamp(t)) == Some(t)
  {
    var y := Decimal(t.year);
    var s := Stamp(t);
    var n := |y|;
    assert |s| == n + 10;
    assert s[..n] == y;
    assert s[n..n + 2] == Pad2(t.month);
    assert s[n + 2..n + 4] == Pad2(t.day);
    assert s[n + 4] == '_';
    assert s[n + 5..n + 7] == Pad2(t.hour);
    assert s[n + 7] == '_';
    assert s[n + 8..] == Pad2(t.minute);
    DecimalRoundTrip(t.year);
    Pad2RoundTrip(t.month);
    Pad2RoundTrip(t.day);
    Pad2RoundTrip(t.hour);
    Pad2RoundTrip(t.minute);
  }

  lemma FileNameRoundTrip(t: DateTime, suffix: string)
    requires ValidDateTime(t)
    ensures ParseFileName(Dataset + Stamp(t) + suffix, suffix) == Some(t)
  {
    var name := Dataset + Stamp(t) + suffix;
    var p := |Dataset|;
    assert name[..p] == Dataset;
    assert name[|name| - |suffix|..] == suffix;
    assert name[p..|name| - |suffix|] == Stamp(t);
    StampRoundTrip(t);
  }

  /** Both file names can be read back, so two runs in different minutes
      never write to the same name, and two runs in the same minute do. */
  lemma FileNamesDetermineTime(t1: DateTime, t2: DateTime)
    requires ValidDateTime(t1) && ValidDateTime(t2)
    ensures ParseFileName(RawFileName(t1), RawSuffix) == Some(t1)
    ensures ParseFileName(TrustedFileName(t1), TrustedSuffix) == Some(t1)
    ensures RawFileName(t1) == RawFileName(t2) <==> t1 == t2
    ensures TrustedFileName(t1) == TrustedFileName(t2) <==> t1 == t2
  {
    FileNameRoundTrip(t1, RawSuffix);
    FileNameRoundTrip(t1, TrustedSuffix);
    FileNameRoundTrip(t2, RawSuffix);
    FileNameRoundTrip(t2, TrustedSuffix);
  }

  lemma FourDigitDecimal(n: nat)
    requires 1000 <= n <= 9999
    ensures |Decimal(n)| == 4
  {
    assert |Decimal(n / 1000)| == 1;
    assert |Decimal(n / 100)| == 2;
    assert |Decimal(n / 10)| == 3;
  }

  /** For four-digit years the stamp has a fixed layout: eight digits, an
      underscore, two digits, an underscore, two digits; the file names
      then have fixed lengths. */
  lemma FourDigitYearLayout(t: DateTime)
    requires ValidDateTime(t) && 1000 <= t.year
    ensures |Stamp(t)| == 14
    ensures Stamp(t)[8] == '_' && Stamp(t)[11] == '_'
    ensures forall i :: 0 <= i < 14 && i != 8 && i != 11 ==> IsDigit(Stamp(t)[i])
    ensures |RawFileName(t)| == 31 && |TrustedFileName(t)| == 37
  {
    FourDigitDecimal(t.year);
    var s := Stamp(t);
    assert s == Decimal(t.year) + Pad2(t.month) + Pad2(t.day) + "_" + Pad2(t.hour) + "_" + Pad2(t.minute);
  }
}
