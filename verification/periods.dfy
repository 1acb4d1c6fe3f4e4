/** Year-month periods and the `%Y%m` date format the loader parses
    row keys with. */
module Periods {
  import opened Wrappers

  /** A month: the timestamp pandas builds is the first day of it. */
  datatype Period = Period(year: int, month: int)

  predicate IsDigit(c: char) {
    '0' <= c <= '9'
  }

  function DigitValue(c: char): (d: nat)
    requires IsDigit(c)
    ensures d < 10
  {
    c as int - '0' as int
  }

  function DigitChar(d: nat): (c: char)
    requires d < 10
    ensures IsDigit(c) && DigitValue(c) == d
  {
    ('0' as int + d) as char
  }

  /** Pandas' default nanosecond timestamps cover 1677-09-21 to 2262-04-11;
      the first day of the month must fall inside that range. */
  predicate Representable(p: Period) {
    && (p.year > 1677 || (p.year == 1677 && p.month >= 10))
    && (p.year < 2262 || (p.year == 2262 && p.month <= 4))
  }

  /** A period the loader can produce. */
  predicate Valid(p: Period) {
    1 <= p.month <= 12 && Representable(p)
  }

  /** The six-character `YYYYMM` spelling of a period. */
  function Format(p: Period): (t: string)
    requires 0 <= p.year <= 9999 && 1 <= p.month <= 12
    ensures |t| == 6 && forall i | 0 <= i < 6 :: IsDigit(t[i])
  {
    var tens := p.year / 10;
    var hundreds := tens / 10;
    [DigitChar(hundreds / 10), DigitChar(hundreds % 10), DigitChar(tens % 10),
     DigitChar(p.year % 10), DigitChar(p.month / 10), DigitChar(p.month % 10)]
  }

  predicate AllDigits(t: string) {
    forall i | 0 <= i < |t| :: IsDigit(t[i])
  }

  /** The number the first four characters of a six-digit key spell. */
  function KeyYear(t: string): nat
    requires |t| == 6 && AllDigits(t)
  {
    DigitValue(t[0]) * 1000 + DigitValue(t[1]) * 100 + DigitValue(t[2]) * 10 + DigitValue(t[3])
  }

  /** The number the last two characters of a six-digit key spell. */
  function KeyMonth(t: string): nat
    requires |t| == 6 && AllDigits(t)
  {
    DigitValue(t[4]) * 10 + DigitValue(t[5])
  }

  /** Spelling the numbers read from a six-digit key gives the key back. */
  lemma SpellKey(t: string)
    requires |t| == 6 && AllDigits(t) && KeyYear(t) <= 9999 && 1 <= KeyMonth(t) <= 12
    ensures Format(Period(KeyYear(t), KeyMonth(t))) == t
  {
    ShiftDigit(DigitValue(t[0]) * 100 + DigitValue(t[1]) * 10 + DigitValue(t[2]), DigitValue(t[3]));
    ShiftDigit(DigitValue(t[0]) * 10 + DigitValue(t[1]), DigitValue(t[2]));
    ShiftDigit(DigitValue(t[0]), DigitValue(t[1]));
    ShiftDigit(DigitValue(t[4]), DigitValue(t[5]));
    var f := Format(Period(KeyYear(t), KeyMonth(t)));
    assert forall i | 0 <= i < 6 :: f[i] == t[i];
  }

  /** `pd.to_datetime(t, format="%Y%m")` on one key: `%Y` takes exactly
      four digits, `%m` must take the remaining two as 01 to 12 (a single
      digit leaves unconverted data, an error), and the date must be
      representable. `None` stands for the exception. */
  function Parse(t: string): (r: Option<Period>)
    ensures r.Some? ==> Valid(r.value) && Format(r.value) == t
  {
    if |t| == 6 && AllDigits(t) then
      var p := Period(KeyYear(t), KeyMonth(t));
      if Valid(p) then
        SpellKey(t);
        Some(p)
      else None
    else None
  }

  /** Appending the decimal digit `d` to `q` and splitting it off again. */
  lemma ShiftDigit(q: nat, d: nat)
    requires d < 10
    ensures (10 * q + d) / 10 == q && (10 * q + d) % 10 == d
  {
  }

  /** Every period the loader can produce is read back from its own spelling. */
  lemma ParseFormat(p: Period)
    requires Valid(p)
    ensures Parse(Format(p)) == Some(p)
  {
    var t := Format(p);
    var tens := p.year / 10;
    var hundreds := tens / 10;
    assert p.year == 10 * tens + p.year % 10;
    assert tens == 10 * hundreds + tens % 10;
    assert hundreds == 10 * (hundreds / 10) + hundreds % 10;
    assert DigitValue(t[0]) * 1000 + DigitValue(t[1]) * 100
           + DigitValue(t[2]) * 10 + DigitValue(t[3]) == p.year;
    assert DigitValue(t[4]) * 10 + DigitValue(t[5]) == p.month;
  }

  /** A key parses to `p` exactly when it is the spelling of the valid
      period `p`. */
  lemma ParseIff(t: string, p: Period)
    ensures Parse(t) == Some(p) <==> Valid(p) && Format(p) == t
  {
    if Valid(p) && Format(p) == t {
      ParseFormat(p);
    }
  }

  /** `p` is the same month as `start` or a later one. */
  predicate OnOrAfter(p: Period, start: Period) {
    p.year > start.year || (p.year == start.year && p.month >= start.month)
  }
}
