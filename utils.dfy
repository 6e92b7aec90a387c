/**
 * `addMicrosecondOffsetToIsoDatetime`: widen the three millisecond digits of
 * an ISO datetime to six by appending `000` before the final `Z`.
 */
module Utils {
  import opened Wrappers
  import opened IsoDatetime
  import opened Sequences

  /** The helper accepts a string or a `Date`. */
  datatype DatetimeInput = Text(text: string) | DateObject(date: Date)

  /** What the helper can throw. */
  datatype DatetimeError =
    | ValidationError(input: string)  // the string fails `z.iso.datetime()`
    | RangeError                      // `toISOString` of an invalid date
    | TypeError                       // no `.`: the millisecond part is undefined
    | FormatError(message: string)    // the millisecond part is not `[0-9]{3}Z`

  const MillisErrorPrefix: string :=
    "Expected milliseconds of datetime to match \"[0-9]{3}Z\" but instead received "

  /** `String.prototype.split` with a one-character separator: no part holds the separator. */
  function Split(s: string, sep: char): (parts: seq<string>)
    ensures |parts| >= 1
    ensures forall i | 0 <= i < |parts| :: sep !in parts[i]
  {
    if s == [] then [""]
    else
      var rest := Split(s[1..], sep);
      if s[0] == sep then [""] + rest else [[s[0]] + rest[0]] + rest[1..]
  }

  /** `Array.prototype.join` with a one-character separator. */
  function Join(parts: seq<string>, sep: char): string
    requires |parts| >= 1
    decreases |parts|
  {
    if |parts| == 1 then parts[0] else parts[0] + [sep] + Join(parts[1..], sep)
  }

  /** Joining the parts of a split with the separator gives the text back. */
  lemma {:induction false} SplitJoin(s: string, sep: char)
    ensures Join(Split(s, sep), sep) == s
  {
    if s != [] {
      var rest := Split(s[1..], sep);
      SplitJoin(s[1..], sep);
      var parts := Split(s, sep);
      if s[0] == sep {
        assert parts[1..] == rest;
      } else {
        assert parts[0] == [s[0]] + rest[0] && parts[1..] == rest[1..];
        if |rest| > 1 {
          assert Join(rest, sep) == rest[0] + [sep] + Join(rest[1..], sep);
        }
      }
      assert [s[0]] + s[1..] == s;
    }
  }

  lemma {:induction false} SplitWithoutSeparator(s: string, sep: char)
    requires sep !in s
    ensures Split(s, sep) == [s]
  {
    if s != [] {
      SplitWithoutSeparator(s[1..], sep);
      assert [s[0]] + s[1..] == s;
    }
  }

  lemma {:induction false} SplitOnce(p: string, sep: char, q: string)
    requires sep !in p && sep !in q
    ensures Split(p + [sep] + q, sep) == [p, q]
  {
    if p == [] {
      assert p + [sep] + q == [sep] + q;
      assert ([sep] + q)[1..] == q;
      SplitWithoutSeparator(q, sep);
    } else {
      SplitOnce(p[1..], sep, q);
      assert (p + [sep] + q)[1..] == p[1..] + [sep] + q;
      assert [p[0]] + p[1..] == p;
    }
  }

  /** `/^[0-9]{3}Z$/`: a matching part holds no `.`. */
  function MatchesMillis(m: string): (ok: bool)
    ensures ok ==> '.' !in m
  {
    if |m| != 4 then false
    else
      assert m == m[..3] + [m[3]];
      AllDigits(m[..3]) && m[3] == 'Z'
  }

  /** The datetime text the helper works on, or what was thrown getting it. */
  function DatetimeText(input: DatetimeInput): (r: Result<string, DatetimeError>)
    ensures r.Success? ==> IsIsoDatetime(r.value) || EndsWithMilliseconds(r.value)
    ensures input.Text? ==>
      r == if IsIsoDatetime(input.text) then Success(input.text) else Failure(ValidationError(input.text))
    ensures input.DateObject? ==>
      && (r.Success? <==> input.date.Instant?)
      && (r.Success? ==> Some(r.value) == ToIsoString(input.date))
      && (r.Failure? ==> r.error == RangeError)
  {
    match input
    case DateObject(d) =>
      (match ToIsoString(d)
       case Some(s) => Success(s)
       case None => Failure(RangeError))
    case Text(s) =>
      if IsIsoDatetime(s) then Success(s) else Failure(ValidationError(s))
  }

  /** The position of the first `c` in `s`, or `|s|` when there is none. */
  function IndexOf(s: string, c: char): (i: nat)
    ensures i <= |s| && c !in s[..i]
    ensures i < |s| <==> c in s
    ensures i < |s| ==> s[i] == c
  {
    if s == [] then 0
    else if s[0] == c then 0
    else
      var j := IndexOf(s[1..], c);
      assert s[..j + 1] == [s[0]] + s[1..][..j];
      1 + j
  }

  lemma {:induction false} IndexOfFirst(s: string, c: char, i: nat)
    requires i < |s| && s[i] == c && c !in s[..i]
    ensures IndexOf(s, c) == i
  {
    if i > 0 {
      assert s[0] == s[..i][0];
      assert s[1..][..i - 1] == s[..i][1..];
      IndexOfFirst(s[1..], c, i - 1);
    }
  }

  /** The only `.`, at position `i`, splits the text into the parts on either side of it. */
  lemma SplitAtOnlyDot(s: string, i: int)
    requires 0 <= i < |s| && s[i] == '.' && '.' !in s[..i] && '.' !in s[i + 1..]
    ensures IndexOf(s, '.') == i
    ensures Split(s, '.') == [s[..i], s[i + 1..]]
  {
    IndexOfFirst(s, '.', i);
    SplitAround(s, i);
    SplitOnce(s[..i], '.', s[i + 1..]);
  }

  /** After the `.` of a text ending in milliseconds come three digits and `Z`, and no other `.`. */
  lemma MillisAfterDot(s: string)
    requires EndsWithMilliseconds(s)
    ensures '.' !in s[|s| - 4..] && MatchesMillis(s[|s| - 4..])
  {
    var m := s[|s| - 4..];
    assert m[..3] == s[|s| - 4..|s| - 1];
    DigitsHaveNoDot(m[..3]);
    assert m == m[..3] + [m[3]];
  }

  /** A datetime text splits on `.` into at most two parts. */
  lemma SplitDatetime(s: string)
    requires IsIsoDatetime(s) || EndsWithMilliseconds(s)
    ensures '.' !in s ==> Split(s, '.') == [s]
    ensures '.' in s ==> var i := IndexOf(s, '.'); Split(s, '.') == [s[..i], s[i + 1..]]
  {
    if '.' !in s {
      SplitWithoutSeparator(s, '.');
    } else if IsIsoDatetime(s) {
      IsoDot(s);
      SplitAtOnlyDot(s, 19);
    } else {
      MillisAfterDot(s);
      SplitAtOnlyDot(s, |s| - 5);
    }
  }

  /** When the part after the only `.` is three digits and `Z`, the padded text is the input with `000` before the `Z`. */
  lemma PaddedText(s: string, i: int)
    requires 0 <= i < |s| && s[i] == '.' && '.' !in s[..i] && MatchesMillis(s[i + 1..])
    ensures EndsWithMilliseconds(s)
    ensures s[..i] + "." + s[i + 1..][..3] + "000" + "Z" == s[..|s| - 1] + "000Z"
  {
    assert i == |s| - 5;
    assert s[|s| - 4..|s| - 1] == s[i + 1..][..3];
    assert s[..|s| - 1] == s[..i] + "." + s[i + 1..][..3];
  }

  /**
   * The helper: obtain the datetime text, split it at `.`, check the part
   * after the first `.` is three digits and `Z`, and put `000` before the `Z`.
   */
  function AddMicrosecondOffsetToIsoDatetime(input: DatetimeInput): (r: Result<string, DatetimeError>)
    ensures DatetimeText(input).Failure? ==> r == Failure(DatetimeText(input).error)
    ensures r.Success? ==>
      var s := DatetimeText(input).value;
      EndsWithMilliseconds(s) && r.value == s[..|s| - 1] + "000Z"
  {
    match DatetimeText(input)
    case Failure(e) => Failure(e)
    case Success(dtString) => PadMilliseconds(dtString)
  }

  /** What the helper does with the datetime text once it has it. */
  function PadMilliseconds(dtString: string): (r: Result<string, DatetimeError>)
    requires IsIsoDatetime(dtString) || EndsWithMilliseconds(dtString)
    ensures r.Success? ==> EndsWithMilliseconds(dtString) && r.value == dtString[..|dtString| - 1] + "000Z"
  {
    var parts := Split(dtString, '.');
    if |parts| < 2 then
      Failure(TypeError)
    else
      var dtDateTime, dtMillis := parts[0], parts[1];
      if !MatchesMillis(dtMillis) then
        Failure(FormatError(MillisErrorPrefix + dtMillis))
      else
        var dtMillisNum := dtMillis[..|dtMillis| - 1] + "000";
        SplitDatetime(dtString);
        PaddedText(dtString, IndexOf(dtString, '.'));
        Success(dtDateTime + "." + dtMillisNum + "Z")
  }

  /** `P.dddZ` with three digits and no `.` in `P` becomes `P.ddd000Z`. */
  lemma PadsThreeDigits(p: string, ddd: string)
    requires '.' !in p && |ddd| == 3 && AllDigits(ddd)
    requires IsIsoDatetime(p + "." + ddd + "Z")
    ensures AddMicrosecondOffsetToIsoDatetime(Text(p + "." + ddd + "Z")) == Success(p + "." + ddd + "000Z")
  {
    var s := p + "." + ddd + "Z";
    DigitsHaveNoDot(ddd);
    assert s == p + ['.'] + (ddd + "Z");
    SplitOnce(p, '.', ddd + "Z");
    assert (ddd + "Z")[..3] == ddd;
  }

  /**
   * Whatever the input, once its datetime text is obtained the helper succeeds
   * exactly when that text ends in three millisecond digits, and then its
   * result is the text with `000` before the final `Z`.
   */
  lemma PadsExactlyMilliseconds(input: DatetimeInput)
    requires DatetimeText(input).Success?
    ensures var s := DatetimeText(input).value;
      AddMicrosecondOffsetToIsoDatetime(input).Success? <==> EndsWithMilliseconds(s)
    ensures var s := DatetimeText(input).value;
      EndsWithMilliseconds(s) ==> AddMicrosecondOffsetToIsoDatetime(input) == Success(s[..|s| - 1] + "000Z")
  {
    var s := DatetimeText(input).value;
    if EndsWithMilliseconds(s) {
      PadsMillisecondText(s);
    }
  }

  lemma PadsMillisecondText(s: string)
    requires EndsWithMilliseconds(s)
    ensures PadMilliseconds(s) == Success(s[..|s| - 1] + "000Z")
  {
    MillisAfterDot(s);
    SplitAtOnlyDot(s, |s| - 5);
  }

  /** Any other fraction fails with the exact message, ending in the text after the `.`. */
  lemma FormatErrorNamesSuffix(s: string)
    requires IsIsoDatetime(s) && |s| >= 22 && s[19] == '.'
    requires !MatchesMillis(s[20..])
    ensures AddMicrosecondOffsetToIsoDatetime(Text(s)) == Failure(FormatError(MillisErrorPrefix + s[20..]))
  {
    IsoDot(s);
    SplitAtOnlyDot(s, 19);
  }

  /** An accepted datetime without a fraction has no millisecond part, and reading it throws. */
  lemma NoFractionIsTypeError(s: string)
    requires IsIsoDatetime(s) && '.' !in s
    ensures AddMicrosecondOffsetToIsoDatetime(Text(s)) == Failure(TypeError)
  {
    SplitWithoutSeparator(s, '.');
  }

  /** The validation runs before any splitting. */
  lemma InvalidTextIsValidationError(s: string)
    requires !IsIsoDatetime(s)
    ensures AddMicrosecondOffsetToIsoDatetime(Text(s)) == Failure(ValidationError(s))
  {
  }

  /** A valid `Date` always takes the padding path: its milliseconds gain three zeros. */
  lemma DatePadded(d: Date)
    requires d.Instant?
    ensures AddMicrosecondOffsetToIsoDatetime(DateObject(d))
         == Success(DateTimeText(d) + "." + Digits(d.millisecond, 3) + "000Z")
  {
    var s := ToIsoString(d).value;
    PadsExactlyMilliseconds(DateObject(d));
    assert s == DateTimeText(d) + "." + Digits(d.millisecond, 3) + "Z";
    assert s[..|s| - 1] == DateTimeText(d) + "." + Digits(d.millisecond, 3);
  }

  /**
   * The output is the datetime text with `000` before the final `Z`: three
   * characters longer, and everything before the `Z` copied unchanged.
   */
  lemma PaddedShape(input: DatetimeInput)
    requires AddMicrosecondOffsetToIsoDatetime(input).Success?
    ensures var s := DatetimeText(input).value;
      var out := AddMicrosecondOffsetToIsoDatetime(input).value;
      && |out| == |s| + 3
      && out[..|s| - 1] == s[..|s| - 1]
      && out[|s| - 1..] == "000Z"
  {
  }

  /** Six fraction digits are not three: the fifth character from the end of a padded text is a digit. */
  lemma PaddedIsNotMilliseconds(s: string)
    requires EndsWithMilliseconds(s)
    ensures !EndsWithMilliseconds(s[..|s| - 1] + "000Z")
  {
    var out := s[..|s| - 1] + "000Z";
    assert out[|out| - 5] == s[|s| - 4..|s| - 1][2];
  }

  /** The output has six fraction digits, so feeding it back in always fails. */
  lemma NotIdempotent(input: DatetimeInput)
    requires AddMicrosecondOffsetToIsoDatetime(input).Success?
    ensures AddMicrosecondOffsetToIsoDatetime(Text(AddMicrosecondOffsetToIsoDatetime(input).value)).Failure?
  {
    var s := DatetimeText(input).value;
    PaddedIsNotMilliseconds(s);
  }

  /** The fields shared by the string examples. */
  lemma ExampleFields(date: string, time: string, seconds: string, fraction: string)
    requires date == "2020-02-01" && time == "01:02" && seconds == "03"
    ensures IsDateField(date) && IsTimeField(time) && |seconds| == 2 && AllDigits(seconds)
    ensures (date + "T" + time) + (":" + seconds + ("." + fraction + "Z")) == "2020-02-01T01:02:03" + "." + fraction + "Z"
    ensures '.' !in "2020-02-01T01:02:03"
  {
  }

  /** The pieces of the string example around its `.`. */
  lemma StringExampleParts(p: string, ddd: string)
    requires p == "2020-02-01T01:02:03" && ddd == "123"
    ensures '.' !in p && |ddd| == 3 && AllDigits(ddd)
    ensures p + "." + ddd + "Z" == "2020-02-01T01:02:03.123Z"
    ensures p + "." + ddd + "000Z" == "2020-02-01T01:02:03.123000Z"
  {
  }

  /** The string example: three digits padded to six. */
  lemma StringExample(s: string)
    requires s == "2020-02-01T01:02:03.123Z"
    ensures AddMicrosecondOffsetToIsoDatetime(Text(s)) == Success("2020-02-01T01:02:03.123000Z")
  {
    var p, ddd := "2020-02-01T01:02:03", "123";
    ExampleFields("2020-02-01", "01:02", "03", ddd);
    IsoWithFraction("2020-02-01", "01:02", "03", ddd);
    StringExampleParts(p, ddd);
    PadsThreeDigits(p, ddd);
  }

  lemma DateExampleJoin(text: string, millis: string)
    requires text == "2020-02-01T01:02:03" && millis == "123"
    ensures text + "." + millis + "000Z" == "2020-02-01T01:02:03.123000Z"
  {
  }

  /** The `Date` example, 1 February 2020 01:02:03.123 in UTC. */
  lemma DateExample(d: Date)
    requires d == Instant(2020, 2, 1, 1, 2, 3, 123)
    ensures AddMicrosecondOffsetToIsoDatetime(DateObject(d)) == Success("2020-02-01T01:02:03.123000Z")
  {
    DateExampleText(d);
    assert Digits(123, 3) == "123";
    DatePadded(d);
    DateExampleJoin(DateTimeText(d), Digits(123, 3));
  }

  /** A date that is not an ISO datetime fails validation. */
  lemma SlashDateExample()
    ensures AddMicrosecondOffsetToIsoDatetime(Text("02/01/2020")) == Failure(ValidationError("02/01/2020"))
  {
  }

  /** The pieces of the microsecond example around its `.`. */
  lemma MicrosecondsExampleParts(s: string)
    requires s == "2020-02-01T01:02:03.123456Z"
    ensures s == "2020-02-01T01:02:03" + "." + "123456" + "Z"
    ensures |s| >= 22 && s[19] == '.' && s[20..] == "123456Z"
  {
  }

  /** Microsecond input fails with the format message naming `123456Z`. */
  lemma MicrosecondsExample(s: string)
    requires s == "2020-02-01T01:02:03.123456Z"
    ensures AddMicrosecondOffsetToIsoDatetime(Text(s)) == Failure(FormatError(MillisErrorPrefix + "123456Z"))
  {
    ExampleFields("2020-02-01", "01:02", "03", "123456");
    IsoWithFraction("2020-02-01", "01:02", "03", "123456");
    MicrosecondsExampleParts(s);
    FormatErrorNamesSuffix(s);
  }
}
