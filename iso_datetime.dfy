/**
 * The two library behaviours the datetime helper relies on: the string shape
 * zod's `z.iso.datetime()` accepts, and `Date.prototype.toISOString`.
 */
module IsoDatetime {
  import opened Wrappers

  predicate IsDigit(c: char) {
    '0' <= c <= '9'
  }

  predicate AllDigits(s: string) {
    forall i | 0 <= i < |s| :: IsDigit(s[i])
  }

  lemma DigitsHaveNoDot(s: string)
    requires AllDigits(s)
    ensures '.' !in s
  {
  }

  /**
   * `z.iso.datetime()` with its default options: `YYYY-MM-DDThh:mm`, then
   * optionally `:ss`, then (only after seconds) optionally `.` and one or more
   * fraction digits, then `Z`; no offset and no local time.
   */
  predicate IsIsoDatetime(s: string) {
    && |s| >= 17
    && AllDigits(s[0..4]) && s[4] == '-' && AllDigits(s[5..7]) && s[7] == '-' && AllDigits(s[8..10])
    && s[10] == 'T' && AllDigits(s[11..13]) && s[13] == ':' && AllDigits(s[14..16])
    && IsSecondsTail(s[16..])
  }

  predicate IsSecondsTail(t: string) {
    || t == "Z"
    || (|t| >= 4 && t[0] == ':' && AllDigits(t[1..3]) && IsFractionTail(t[3..]))
  }

  predicate IsFractionTail(t: string) {
    || t == "Z"
    || (|t| >= 3 && t[0] == '.' && AllDigits(t[1..|t| - 1]) && t[|t| - 1] == 'Z')
  }

  /** `…` + `.` + three digits + `Z`, with no other `.` */
  predicate EndsWithMilliseconds(s: string) {
    && |s| >= 5
    && '.' !in s[..|s| - 5]
    && s[|s| - 5] == '.'
    && AllDigits(s[|s| - 4..|s| - 1])
    && s[|s| - 1] == 'Z'
  }

  /** An accepted datetime has no `.`, or exactly one, right after the seconds. */
  lemma IsoDot(s: string)
    requires IsIsoDatetime(s)
    ensures '.' in s ==> |s| >= 22 && s[19] == '.' && '.' !in s[..19] && '.' !in s[20..]
    ensures '.' in s <==> |s| >= 22 && s[19] == '.'
  {
    assert s == s[0..4] + [s[4]] + s[5..7] + [s[7]] + s[8..10] + [s[10]] + s[11..13] + [s[13]] + s[14..16] + s[16..];
    DigitsHaveNoDot(s[0..4]);
    DigitsHaveNoDot(s[5..7]);
    DigitsHaveNoDot(s[8..10]);
    DigitsHaveNoDot(s[11..13]);
    DigitsHaveNoDot(s[14..16]);
    assert '.' !in s[..16];
    var t := s[16..];
    if t != "Z" {
      DigitsHaveNoDot(t[1..3]);
      assert t == [t[0]] + t[1..3] + t[3..];
      var f := t[3..];
      if f == "Z" {
        assert '.' !in t;
      } else {
        DigitsHaveNoDot(f[1..|f| - 1]);
        assert f == [f[0]] + f[1..|f| - 1] + [f[|f| - 1]];
        assert s[..19] == s[..16] + t[..3];
        assert s[20..] == f[1..];
        assert f[1..] == f[1..|f| - 1] + [f[|f| - 1]];
      }
    }
    assert s == s[..16] + t;
  }

  /** `YYYY-MM-DD` */
  predicate IsDateField(date: string) {
    |date| == 10 && AllDigits(date[0..4]) && date[4] == '-' && AllDigits(date[5..7]) && date[7] == '-' && AllDigits(date[8..10])
  }

  /** `hh:mm` */
  predicate IsTimeField(time: string) {
    |time| == 5 && AllDigits(time[0..2]) && time[2] == ':' && AllDigits(time[3..5])
  }

  /** `YYYY-MM-DDThh:mm` followed by an accepted seconds part is an accepted datetime. */
  lemma IsoFromParts(head: string, tail: string)
    requires |head| == 16 && IsDateField(head[..10]) && head[10] == 'T' && IsTimeField(head[11..])
    requires IsSecondsTail(tail)
    ensures IsIsoDatetime(head + tail)
  {
    var s := head + tail;
    assert s[..16] == head && s[16..] == tail;
    assert s[0..4] == head[..10][0..4] && s[5..7] == head[..10][5..7] && s[8..10] == head[..10][8..10];
    assert s[11..13] == head[11..][0..2] && s[14..16] == head[11..][3..5];
  }

  /** `YYYY-MM-DD`, `T` and `hh:mm` make the sixteen characters before the seconds. */
  lemma HeadFields(date: string, time: string)
    requires IsDateField(date) && IsTimeField(time)
    ensures var head := date + "T" + time;
      |head| == 16 && head[..10] == date && head[10] == 'T' && head[11..] == time
  {
  }

  /** `:ss.f…Z` with two seconds digits and at least one fraction digit is an accepted seconds part. */
  lemma FractionTail(seconds: string, fraction: string)
    requires |seconds| == 2 && AllDigits(seconds)
    requires |fraction| >= 1 && AllDigits(fraction)
    ensures IsSecondsTail(":" + seconds + ("." + fraction + "Z"))
  {
    var f := "." + fraction + "Z";
    var t := ":" + seconds + f;
    assert t[1..3] == seconds && t[3..] == f;
    assert f[1..|f| - 1] == fraction;
  }

  /** Assembles an accepted datetime with seconds and a fraction from its fields. */
  lemma IsoWithFraction(date: string, time: string, seconds: string, fraction: string)
    requires IsDateField(date) && IsTimeField(time)
    requires |seconds| == 2 && AllDigits(seconds)
    requires |fraction| >= 1 && AllDigits(fraction)
    ensures IsIsoDatetime((date + "T" + time) + (":" + seconds + ("." + fraction + "Z")))
  {
    HeadFields(date, time);
    FractionTail(seconds, fraction);
    IsoFromParts(date + "T" + time, ":" + seconds + ("." + fraction + "Z"));
  }

  /**
   * A JavaScript `Date`, by its UTC calendar fields (month 1 to 12), or the
   * invalid date. Fields are within the ranges a `Date` can hold.
   */
  datatype DateValue =
    | InvalidDate
    | Instant(year: int, month: int, day: int, hour: int, minute: int, second: int, millisecond: int)

  predicate InRange(d: DateValue) {
    d.Instant? ==>
      && -271821 <= d.year <= 275760
      && 1 <= d.month <= 12 && 1 <= d.day <= 31
      && 0 <= d.hour <= 23 && 0 <= d.minute <= 59 && 0 <= d.second <= 59
      && 0 <= d.millisecond <= 999
  }

  type Date = d: DateValue | InRange(d) witness InvalidDate

  function DigitChar(n: nat): (c: char)
    requires n < 10
    ensures IsDigit(c)
  {
    ('0' as int + n) as char
  }

  /** The last `width` decimal digits of `n`, zero-padded. */
  function Digits(n: nat, width: nat): (s: string)
    ensures |s| == width && AllDigits(s) && '.' !in s
    decreases width
  {
    if width == 0 then "" else Digits(n / 10, width - 1) + [DigitChar(n % 10)]
  }

  /** Four digits for years 0 to 9999, otherwise a sign and six digits. */
  function YearText(y: int): (s: string)
    ensures '.' !in s
  {
    if 0 <= y <= 9999 then Digits(y, 4)
    else (if y < 0 then "-" else "+") + Digits(if y < 0 then -y else y, 6)
  }

  /** The part of `toISOString` before the `.`: `YYYY-MM-DDThh:mm:ss`. */
  function DateTimeText(d: Date): (s: string)
    requires d.Instant?
    ensures '.' !in s
  {
    YearText(d.year) + "-" + Digits(d.month, 2) + "-" + Digits(d.day, 2)
      + "T" + Digits(d.hour, 2) + ":" + Digits(d.minute, 2) + ":" + Digits(d.second, 2)
  }

  /**
   * `Date.prototype.toISOString`: `YYYY-MM-DDThh:mm:ss.sssZ` in UTC, with
   * exactly three millisecond digits; an invalid date throws (`None`).
   */
  function ToIsoString(d: Date): (r: Option<string>)
    ensures r.None? <==> d.InvalidDate?
    ensures r.Some? ==> EndsWithMilliseconds(r.value)
  {
    match d
    case InvalidDate => None
    case Instant(_, _, _, _, _, _, ms) =>
      var p, f := DateTimeText(d), Digits(ms, 3);
      var s := p + "." + f + "Z";
      assert s[..|s| - 5] == p;
      assert s[|s| - 4..|s| - 1] == f;
      Some(s)
  }

  lemma JoinExampleText(y: string, mo: string, d: string, h: string, mi: string, sec: string)
    requires y == "2020" && mo == "02" && d == "01" && h == "01" && mi == "02" && sec == "03"
    ensures y + "-" + mo + "-" + d + "T" + h + ":" + mi + ":" + sec == "2020-02-01T01:02:03"
  {
  }

  /** The date part of the text `toISOString` gives for 1 February 2020 01:02:03.123 UTC. */
  lemma DateExampleText(d: Date)
    requires d == Instant(2020, 2, 1, 1, 2, 3, 123)
    ensures DateTimeText(d) == "2020-02-01T01:02:03"
  {
    assert YearText(2020) == "2020" by {
      assert Digits(2020, 4) == "2020";
    }
    assert Digits(2, 2) == "02";
    assert Digits(1, 2) == "01";
    assert Digits(3, 2) == "03";
    JoinExampleText(YearText(2020), Digits(2, 2), Digits(1, 2), Digits(1, 2), Digits(2, 2), Digits(3, 2));
  }
}
