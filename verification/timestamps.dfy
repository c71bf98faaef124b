/**
 * A naive `datetime` and the three text forms the program uses:
 * `isoformat()` (written to the last-sync file), `fromisoformat()` (read back
 * from it) and `strftime("%Y-%m-%d %H:%M:%S")` (sent in every POST body).
 */
module Timestamps {
  import opened Wrappers
  import opened PyText

  datatype DateTime = DateTime(year: int, month: int, day: int,
                               hour: int, minute: int, second: int, micro: int)

  predicate IsLeap(y: int) {
    y % 4 == 0 && (y % 100 != 0 || y % 400 == 0)
  }

  function DaysInMonth(y: int, m: int): int
    requires 1 <= m <= 12
  {
    if m == 2 then (if IsLeap(y) then 29 else 28)
    else if m == 4 || m == 6 || m == 9 || m == 11 then 30
    else 31
  }

  /** The values `datetime(...)` accepts: years 1 to 9999 and real calendar dates. */
  predicate Valid(t: DateTime) {
    && 1 <= t.year <= 9999
    && 1 <= t.month <= 12
    && 1 <= t.day <= DaysInMonth(t.year, t.month)
    && 0 <= t.hour < 24
    && 0 <= t.minute < 60
    && 0 <= t.second < 60
    && 0 <= t.micro < 1000000
  }

  /** A value a Python `datetime` object can hold. */
  type Instant = t: DateTime | Valid(t) witness DateTime(1, 1, 1, 0, 0, 0, 0)

  /** `n` in exactly `w` decimal digits, zero-padded (`%0wd` for n < 10^w). */
  function Pad(n: nat, w: nat): (r: string)
    ensures |r| == w && AllDigits(r)
  {
    if w == 0 then [] else Pad(n / 10, w - 1) + [DigitChar(n % 10)]
  }

  function Pow10(w: nat): nat {
    if w == 0 then 1 else 10 * Pow10(w - 1)
  }

  lemma {:induction false} PadValue(n: nat, w: nat)
    requires n < Pow10(w)
    ensures DigitsValue(Pad(n, w)) == n
  {
    if w > 0 {
      var r := Pad(n, w);
      assert r[..w - 1] == Pad(n / 10, w - 1);
      PadValue(n / 10, w - 1);
    }
  }

  /** A fixed-width field of digits, None when any character is not a digit. */
  function Field(s: string): (r: Option<nat>)
    ensures r.Some? <==> AllDigits(s)
  {
    if AllDigits(s) then Some(DigitsValue(s)) else None
  }

  lemma FieldOfPad(n: nat, w: nat)
    requires n < Pow10(w)
    ensures Field(Pad(n, w)) == Some(n)
  {
    PadValue(n, w);
  }

  /** `YYYY-MM-DD` */
  function DateText(t: DateTime): (r: string)
    requires Valid(t)
    ensures |r| == 10 && r[4] == '-' && r[7] == '-'
  {
    Pad(t.year, 4) + "-" + Pad(t.month, 2) + "-" + Pad(t.day, 2)
  }

  /** `HH:MM:SS` */
  function ClockText(t: DateTime): (r: string)
    requires Valid(t)
    ensures |r| == 8 && r[2] == ':' && r[5] == ':'
  {
    Pad(t.hour, 2) + ":" + Pad(t.minute, 2) + ":" + Pad(t.second, 2)
  }

  /** `t.isoformat()` for a naive datetime: microseconds only when non-zero. */
  function IsoFormat(t: DateTime): (r: string)
    requires Valid(t)
    ensures |r| == (if t.micro != 0 then 26 else 19)
    ensures r[4] == '-' && r[7] == '-' && r[10] == 'T' && r[13] == ':' && r[16] == ':'
  {
    DateText(t) + "T" + ClockText(t) + (if t.micro != 0 then "." + Pad(t.micro, 6) else "")
  }

  /** `t.strftime("%Y-%m-%d %H:%M:%S")`: second precision, a space between date and time. */
  function Strftime(t: DateTime): (r: string)
    requires Valid(t)
  {
    DateText(t) + " " + ClockText(t)
  }

  /**
   * The `%Y-%m-%d %H:%M:%S` text is nineteen characters: digits everywhere
   * but the two dashes, the space and the two colons.
   */
  predicate SecondsText(r: string) {
    && |r| == 19
    && r[4] == '-' && r[7] == '-' && r[10] == ' ' && r[13] == ':' && r[16] == ':'
    && forall k :: 0 <= k < |r| && k != 4 && k != 7 && k != 10 && k != 13 && k != 16 ==> IsDigit(r[k])
  }

  lemma StrftimeShape(t: DateTime)
    requires Valid(t)
    ensures SecondsText(Strftime(t))
  {
    var d := DateText(t);
    var c := ClockText(t);
    var r := Strftime(t);
    assert d[..4] == Pad(t.year, 4) && d[5..7] == Pad(t.month, 2) && d[8..10] == Pad(t.day, 2);
    assert c[..2] == Pad(t.hour, 2) && c[3..5] == Pad(t.minute, 2) && c[6..8] == Pad(t.second, 2);
    forall k | 0 <= k < |r| && k != 4 && k != 7 && k != 10 && k != 13 && k != 16
      ensures IsDigit(r[k])
    {
      if k < 10 {
        assert r[k] == d[k];
        if k < 4 { assert d[k] == d[..4][k]; }
        else if k < 7 { assert d[k] == d[5..7][k - 5]; }
        else { assert d[k] == d[8..10][k - 8]; }
      } else {
        assert r[k] == c[k - 11];
        if k < 13 { assert c[k - 11] == c[..2][k - 11]; }
        else if k < 16 { assert c[k - 11] == c[3..5][k - 14]; }
        else { assert c[k - 11] == c[6..8][k - 17]; }
      }
    }
  }

  /** The time of day read from an ISO string. */
  datatype Clock = Clock(hour: int, minute: int, second: int, micro: int)

  /** The clock part of an ISO string: `HH`, `HH:MM`, `HH:MM:SS`, `HH:MM:SS.fff` or `HH:MM:SS.ffffff`. */
  function ParseClock(c: string): (r: Option<Clock>)
  {
    if |c| == 2 then
      (match Field(c) case Some(h) => Some(Clock(h, 0, 0, 0)) case None => None)
    else if |c| == 5 && c[2] == ':' then
      (match (Field(c[..2]), Field(c[3..]))
       case (Some(h), Some(m)) => Some(Clock(h, m, 0, 0))
       case _ => None)
    else if |c| >= 8 && c[2] == ':' && c[5] == ':' then
      match (Field(c[..2]), Field(c[3..5]), Field(c[6..8]), ParseFraction(c[8..]))
      case (Some(h), Some(m), Some(s), Some(us)) => Some(Clock(h, m, s, us))
      case _ => None
    else None
  }

  /** What may follow the seconds: nothing, or a dot and three or six digits. */
  function ParseFraction(f: string): (r: Option<int>)
  {
    if f == [] then Some(0)
    else if |f| == 4 && f[0] == '.' then
      (match Field(f[1..]) case Some(ms) => Some(ms * 1000) case None => None)
    else if |f| == 7 && f[0] == '.' then Field(f[1..])
    else None
  }

  /**
   * `datetime.fromisoformat(s)`: `YYYY-MM-DD`, optionally followed by any one
   * separator character and a clock part; None stands for the ValueError,
   * also raised when the fields do not form a valid datetime.
   */
  function FromIsoFormat(s: string): (r: Option<DateTime>)
    ensures r.Some? ==> Valid(r.value)
  {
    if |s| < 10 || s[4] != '-' || s[7] != '-' then None
    else
      match (Field(s[..4]), Field(s[5..7]), Field(s[8..10]))
      case (Some(y), Some(mo), Some(d)) =>
        var clock: Option<Clock> := if |s| == 10 then Some(Clock(0, 0, 0, 0)) else ParseClock(s[11..]);
        (match clock
         case Some(Clock(h, mi, sec, us)) =>
           var t := DateTime(y, mo, d, h, mi, sec, us);
           if Valid(t) then Some(t) else None
         case None => None)
      case _ => None
  }

  lemma DateTextFields(t: DateTime)
    requires Valid(t)
    ensures var d := DateText(t);
      && d[4] == '-' && d[7] == '-'
      && Field(d[..4]) == Some(t.year)
      && Field(d[5..7]) == Some(t.month)
      && Field(d[8..10]) == Some(t.day)
  {
    var d := DateText(t);
    assert d[..4] == Pad(t.year, 4);
    assert d[5..7] == Pad(t.month, 2);
    assert d[8..10] == Pad(t.day, 2);
    FieldOfPad(t.year, 4);
    FieldOfPad(t.month, 2);
    FieldOfPad(t.day, 2);
  }

  lemma ClockTextFields(t: DateTime, frac: string)
    requires Valid(t)
    requires ParseFraction(frac).Some?
    ensures ParseClock(ClockText(t) + frac) == Some(Clock(t.hour, t.minute, t.second, ParseFraction(frac).value))
  {
    var c := ClockText(t) + frac;
    assert c[..2] == Pad(t.hour, 2);
    assert c[3..5] == Pad(t.minute, 2);
    assert c[6..8] == Pad(t.second, 2);
    assert c[8..] == frac;
    FieldOfPad(t.hour, 2);
    FieldOfPad(t.minute, 2);
    FieldOfPad(t.second, 2);
  }

  lemma FractionOfMicro(t: DateTime)
    requires Valid(t)
    ensures ParseFraction(if t.micro != 0 then "." + Pad(t.micro, 6) else "") == Some(t.micro)
  {
    if t.micro != 0 {
      var f := "." + Pad(t.micro, 6);
      assert f[1..] == Pad(t.micro, 6);
      FieldOfPad(t.micro, 6);
    }
  }

  /** A text made of a date, one separator and a clock part parses field by field. */
  lemma ParseJoined(t: DateTime, sep: char, frac: string)
    requires Valid(t)
    requires ParseFraction(frac) == Some(t.micro)
    ensures FromIsoFormat(DateText(t) + [sep] + ClockText(t) + frac) == Some(t)
  {
    var s := DateText(t) + [sep] + ClockText(t) + frac;
    DateTextFields(t);
    ClockTextFields(t, frac);
    assert s[..10] == DateText(t);
    assert s[..4] == DateText(t)[..4];
    assert s[5..7] == DateText(t)[5..7];
    assert s[8..10] == DateText(t)[8..10];
    assert s[11..] == ClockText(t) + frac;
    ParsedFrom(s, t);
  }

  /** A text whose date fields and clock part read as the fields of a valid t parses to t. */
  lemma ParsedFrom(s: string, t: DateTime)
    requires Valid(t) && |s| > 10 && s[4] == '-' && s[7] == '-'
    requires Field(s[..4]) == Some(t.year) && Field(s[5..7]) == Some(t.month) && Field(s[8..10]) == Some(t.day)
    requires ParseClock(s[11..]) == Some(Clock(t.hour, t.minute, t.second, t.micro))
    ensures FromIsoFormat(s) == Some(t)
  {
  }

  /** `datetime.fromisoformat(t.isoformat()) == t` */
  lemma IsoRoundTrip(t: DateTime)
    requires Valid(t)
    ensures FromIsoFormat(IsoFormat(t)) == Some(t)
  {
    FractionOfMicro(t);
    ParseJoined(t, 'T', if t.micro != 0 then "." + Pad(t.micro, 6) else "");
  }

  /**
   * The POST timestamp is `t` truncated to the second: reading it back gives
   * `t` with its microseconds dropped, so two records that differ only below
   * the second are sent with the same timestamp.
   */
  lemma StrftimeDropsMicros(t: DateTime)
    requires Valid(t)
    ensures FromIsoFormat(Strftime(t)) == Some(t.(micro := 0))
    ensures Strftime(t) == Strftime(t.(micro := 0))
  {
    ParseJoined(t.(micro := 0), ' ', "");
    assert Strftime(t) == DateText(t.(micro := 0)) + [' '] + ClockText(t.(micro := 0)) + "";
  }

  /** Valid datetimes with different isoformat texts are different, and conversely. */
  lemma IsoFormatInjective(a: DateTime, b: DateTime)
    requires Valid(a) && Valid(b)
    ensures IsoFormat(a) == IsoFormat(b) <==> a == b
  {
    if IsoFormat(a) == IsoFormat(b) {
      IsoRoundTrip(a);
      IsoRoundTrip(b);
    }
  }
}
