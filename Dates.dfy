/** Calendar dates as the loader prints them with `strftime("%Y%m%d")`. */
module Dates {
  import opened Text

  datatype Date = Date(year: int, month: int, day: int)

  /** Dates whose year has four digits; `%Y` pads nothing further. */
  predicate Valid(d: Date)
  {
    1000 <= d.year <= 9999 && 1 <= d.month <= 12 && 1 <= d.day <= 31
  }

  /** `d.strftime("%Y%m%d")`. */
  function Yyyymmdd(d: Date): (r: string)
    requires Valid(d)
    ensures |r| == 8 && IsDigits(r)
  {
    Digits(d.year, 4) + Digits(d.month, 2) + Digits(d.day, 2)
  }

  /** Reads a `YYYYMMDD` stamp back into its fields. */
  function ParseYyyymmdd(s: string): Date
    requires |s| == 8 && IsDigits(s)
  {
    Date(ValueOf(s[..4]), ValueOf(s[4..6]), ValueOf(s[6..]))
  }

  /** The stamp loses nothing: the date can be read back from it. */
  lemma YyyymmddRoundTrip(d: Date)
    requires Valid(d)
    ensures ParseYyyymmdd(Yyyymmdd(d)) == d
  {
    var s := Yyyymmdd(d);
    assert s[..4] == Digits(d.year, 4);
    assert s[4..6] == Digits(d.month, 2);
    assert s[6..] == Digits(d.day, 2);
    assert Pow10(4) == 10000 && Pow10(2) == 100;
    DigitsValue(d.year, 4);
    DigitsValue(d.month, 2);
    DigitsValue(d.day, 2);
  }

  /**
   * `timestamp[:-2]`: the stamp without its day, i.e. `%Y%m`, from which the
   * year and the month can still be read.
   */
  function Yyyymm(d: Date): (r: string)
    requires Valid(d)
    ensures |r| == 6 && r == Yyyymmdd(d)[..|Yyyymmdd(d)| - 2]
    ensures IsDigits(r) && ValueOf(r[..4]) == d.year && ValueOf(r[4..]) == d.month
  {
    var s := Yyyymmdd(d);
    YyyymmddRoundTrip(d);
    assert s[..6][..4] == s[..4] && s[..6][4..] == s[4..6];
    s[..6]
  }
}
