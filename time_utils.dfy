/**
 * Time formatting: zero padding, floor division, the `hh:mm:ss:cc`-style
 * timestamp (whose fields are not reduced modulo 60) and the UI clock
 * `hh:mm:ss.cc` / `mm:ss.cc`.
 */
module TimeUtils {
  import opened Strings
  import opened JsMath

  /** padZeros: `String(num)` left-padded with '0' to at least `len` characters. */
  function PadZeros(num: int, len: int): (s: string)
    ensures |s| == if len <= |IntToString(num)| then |IntToString(num)| else len
    ensures EndsWith(s, IntToString(num))
    ensures forall i :: 0 <= i < |s| - |IntToString(num)| ==> s[i] == '0'
  {
    PadStart(IntToString(num), len, '0')
  }

  /** A padded non-negative number is all digits and reads back as the number. */
  lemma PadZerosRoundTrip(num: nat, len: int)
    ensures IsDigits(PadZeros(num, len)) && ParseDecimal(PadZeros(num, len)) == num
    ensures |PadZeros(num, len)| >= len
  {
    PadStartRoundTrip(num, len);
  }

  /** integerDivide: `Math.floor(a / b)`. */
  function IntegerDivide(a: real, b: real): (q: int)
    requires b != 0.0
    ensures q as real <= a / b < q as real + 1.0
    ensures b > 0.0 ==> b * (q as real) <= a < b * (q as real) + b
  {
    if b > 0.0 then FloorDivBounds(a, b); Floor(a / b) else Floor(a / b)
  }

  /** The divisors of secondToTimestamp's four fields. */
  const MULTIPLIERS: seq<real> := [3600.0, 60.0, 1.0, 0.01]

  /** The four fields of secondToTimestamp, before joining. */
  function TimestampFields(num: real): (fields: seq<string>)
    ensures |fields| == 4
    ensures forall i :: 0 <= i < 4 ==> fields[i] == PadZeros(IntegerDivide(num, MULTIPLIERS[i]), 2)
  {
    seq(4, i requires 0 <= i < 4 => PadZeros(IntegerDivide(num, MULTIPLIERS[i]), 2))
  }

  /** secondToTimestamp: the four padded fields joined by ':'. */
  function SecondToTimestamp(num: real): string {
    Join(TimestampFields(num), ":")
  }

  /**
   * Splitting a timestamp of a non-negative time on ':' gives back four digit
   * fields of at least two characters: whole hours, whole minutes, whole
   * seconds and whole hundredths of the time, none reduced modulo 60.
   */
  lemma TimestampRoundTrip(num: real)
    requires num >= 0.0
    ensures var parts := Split(SecondToTimestamp(num), ':');
      && |parts| == 4
      && (forall i :: 0 <= i < 4 ==> IsDigits(parts[i]) && |parts[i]| >= 2)
      && ParseDecimal(parts[0]) == Floor(num / 3600.0)
      && ParseDecimal(parts[1]) == Floor(num / 60.0)
      && ParseDecimal(parts[2]) == Floor(num)
      && ParseDecimal(parts[3]) == Floor(num * 100.0)
  {
    var fields := TimestampFields(num);
    assert Split(SecondToTimestamp(num), ':') == fields by {
      forall i | 0 <= i < 4
        ensures Free(fields[i], ':')
      {
        FieldRoundTrip(num, i);
      }
      SplitJoin(fields, ':');
    }
    FieldValues(num);
  }

  /** Field i of a non-negative time: at least two digits that read back as the floor of the quotient. */
  lemma FieldRoundTrip(num: real, i: nat)
    requires num >= 0.0 && i < 4
    ensures IsDigits(TimestampFields(num)[i]) && |TimestampFields(num)[i]| >= 2
    ensures ParseDecimal(TimestampFields(num)[i]) == Floor(num / MULTIPLIERS[i])
  {
    var q := IntegerDivide(num, MULTIPLIERS[i]);
    assert q >= 0;
    PadZerosRoundTrip(q, 2);
  }

  lemma FieldValues(num: real)
    requires num >= 0.0
    ensures forall i :: 0 <= i < 4 ==> IsDigits(TimestampFields(num)[i]) && |TimestampFields(num)[i]| >= 2
    ensures ParseDecimal(TimestampFields(num)[0]) == Floor(num / 3600.0)
    ensures ParseDecimal(TimestampFields(num)[1]) == Floor(num / 60.0)
    ensures ParseDecimal(TimestampFields(num)[2]) == Floor(num)
    ensures ParseDecimal(TimestampFields(num)[3]) == Floor(num * 100.0)
  {
    FieldsDigits(num);
    HoursMinutesFields(num);
    SecondsFields(num);
  }

  lemma HoursMinutesFields(num: real)
    requires num >= 0.0
    ensures ParseDecimal(TimestampFields(num)[0]) == Floor(num / 3600.0)
    ensures ParseDecimal(TimestampFields(num)[1]) == Floor(num / 60.0)
  {
    FieldRoundTrip(num, 0);
    FieldRoundTrip(num, 1);
    assert MULTIPLIERS[0] == 3600.0 && MULTIPLIERS[1] == 60.0;
  }

  lemma FieldsDigits(num: real)
    requires num >= 0.0
    ensures forall i :: 0 <= i < 4 ==> IsDigits(TimestampFields(num)[i]) && |TimestampFields(num)[i]| >= 2
  {
    forall i | 0 <= i < 4
      ensures IsDigits(TimestampFields(num)[i]) && |TimestampFields(num)[i]| >= 2
    {
      FieldRoundTrip(num, i);
    }
  }

  lemma SecondsFields(num: real)
    requires num >= 0.0
    ensures ParseDecimal(TimestampFields(num)[2]) == Floor(num)
    ensures ParseDecimal(TimestampFields(num)[3]) == Floor(num * 100.0)
  {
    FieldRoundTrip(num, 2);
    FieldRoundTrip(num, 3);
    assert num / 0.01 == num * 100.0;
    assert num / 1.0 == num;
  }

  /** The fields secondToTimestampUI prints. */
  datatype UIClock = UIClock(hours: int, minutes: int, seconds: int, hundredths: int)

  /** The whole seconds a clock reading accounts for. */
  function WholeSeconds(c: UIClock): int {
    3600 * c.hours + 60 * c.minutes + c.seconds
  }

  /**
   * The readings secondToTimestampUI takes: whole hours, then the remainder's
   * whole minutes, then its whole seconds, then its fraction rounded to
   * hundredths. For a non-negative time these are the usual clock fields, except
   * that the rounded hundredths can reach 100.
   */
  function UIFields(time: real): (c: UIClock)
    ensures time >= 0.0 ==> c.hours == Floor(time / 3600.0) && c.hours >= 0
    ensures time >= 0.0 ==> 0 <= c.minutes < 60 && 0 <= c.seconds < 60 && 0 <= c.hundredths <= 100
    ensures time >= 0.0 ==> WholeSeconds(c) as real <= time < WholeSeconds(c) as real + 1.0
    ensures time >= 0.0 ==> c.hundredths == Round((time - WholeSeconds(c) as real) * 100.0)
  {
    var hours := IntegerDivide(time, 3600.0);
    var afterHours := Rem(time, 3600.0);
    var minutes := IntegerDivide(afterHours, 60.0);
    var afterMinutes := Rem(afterHours, 60.0);
    var seconds := Floor(afterMinutes);
    var fraction := afterMinutes - seconds as real;
    UIClock(hours, minutes, seconds, Round(fraction * 100.0))
  }

  function Pad2(n: int): string {
    PadZeros(n, 2)
  }

  /** `hh:mm:ss.cc`, with the leading `hh:` dropped unless the hours are positive. */
  function RenderUI(c: UIClock): string {
    var formatted := Pad2(c.hours) + ":" + Pad2(c.minutes) + ":" + Pad2(c.seconds) + "." + Pad2(c.hundredths);
    if c.hours > 0 then formatted else formatted[3..]
  }

  /** secondToTimestampUI, reducing the remaining time step by step. */
  method SecondToTimestampUI(time: real) returns (s: string)
    ensures s == RenderUI(UIFields(time))
  {
    var timeRemaining := time;
    var timeHours := IntegerDivide(timeRemaining, 3600.0);
    timeRemaining := Rem(timeRemaining, 3600.0);

    var timeMins := IntegerDivide(timeRemaining, 60.0);
    timeRemaining := Rem(timeRemaining, 60.0);

    var timeSeconds := Floor(timeRemaining);
    timeRemaining := timeRemaining - timeSeconds as real;

    var timeMilliSeconds := Round(timeRemaining * 100.0);

    var clock := UIClock(timeHours, timeMins, timeSeconds, timeMilliSeconds);
    assert clock == UIFields(time);
    s := RenderUI(clock);
  }

  /** Two-digit padding of a number below 100: two digits that read back as the number. */
  lemma Pad2Small(n: int)
    requires 0 <= n < 100
    ensures |Pad2(n)| == 2 && IsDigits(Pad2(n)) && ParseDecimal(Pad2(n)) == n
  {
    PadZerosRoundTrip(n, 2);
  }

  /** A clock reading with no hours renders as `mm:ss.` followed by the hundredths. */
  lemma RenderWithoutHours(c: UIClock)
    requires c.hours == 0 && 0 <= c.minutes < 100 && 0 <= c.seconds < 100
    ensures RenderUI(c) == Pad2(c.minutes) + ":" + Pad2(c.seconds) + "." + Pad2(c.hundredths)
    ensures |RenderUI(c)| == 6 + |Pad2(c.hundredths)|
  {
    Pad2Small(0);
    Pad2Small(c.minutes);
    Pad2Small(c.seconds);
    DropFirstField(Pad2(c.hours), Pad2(c.minutes), Pad2(c.seconds), Pad2(c.hundredths));
  }

  lemma DropFirstField(h: string, m: string, s: string, c: string)
    requires |h| == 2
    ensures (h + ":" + m + ":" + s + "." + c)[3..] == m + ":" + s + "." + c
  {
    var head := h + ":";
    assert h + ":" + m + ":" + s + "." + c == head + (m + ":" + s + "." + c);
  }

  /** Under an hour the UI clock reads `mm:ss.` followed by the hundredths. */
  lemma UIUnderAnHour(time: real)
    requires 0.0 <= time < 3600.0
    ensures var c := UIFields(time); var s := RenderUI(c);
      && c.hours == 0
      && s == Pad2(c.minutes) + ":" + Pad2(c.seconds) + "." + Pad2(c.hundredths)
      && |s| == 6 + |Pad2(c.hundredths)|
  {
    RenderWithoutHours(UIFields(time));
  }

  /** From 0.995 s on, the rounded fraction of 0.999 s prints as a three-digit field: `00:00.100`. */
  lemma UIHundredthsOverflow()
    ensures UIFields(0.999).hundredths == 100
    ensures RenderUI(UIFields(0.999)) == "00:00.100"
  {
    FieldsJustUnderASecond();
    RenderHundredHundredths();
  }

  lemma FieldsJustUnderASecond()
    ensures UIFields(0.999) == UIClock(0, 0, 0, 100)
  {
  }

  lemma RenderHundredHundredths()
    ensures RenderUI(UIClock(0, 0, 0, 100)) == "00:00.100"
  {
    RenderWithoutHours(UIClock(0, 0, 0, 100));
    PadZeroAndHundred();
  }

  lemma PadZeroAndHundred()
    ensures Pad2(0) == "00" && Pad2(100) == "100"
  {
    assert NatToString(0) == [DigitChar(0)];
    assert NatToString(10) == [DigitChar(1), DigitChar(0)];
    assert NatToString(100) == NatToString(10) + [DigitChar(0)];
  }

  /** The UI fields with the fraction truncated to whole hundredths. */
  function UIFieldsTruncated(time: real): (c: UIClock)
    ensures time >= 0.0 ==> c.hours == Floor(time / 3600.0) && c.hours >= 0
    ensures time >= 0.0 ==> 0 <= c.minutes < 60 && 0 <= c.seconds < 60 && 0 <= c.hundredths < 100
    ensures time >= 0.0 ==> 100 * WholeSeconds(c) + c.hundredths == Floor(time * 100.0)
  {
    var c := UIFields(time);
    var hundredths := Floor((time - WholeSeconds(c) as real) * 100.0);
    c.(hundredths := hundredths)
  }

  /** With truncated hundredths the UI clock under an hour is always `mm:ss.cc`: three two-digit fields that read back. */
  lemma UITruncatedUnderAnHour(time: real)
    requires 0.0 <= time < 3600.0
    ensures var c := UIFieldsTruncated(time);
      && RenderUI(c) == Pad2(c.minutes) + ":" + Pad2(c.seconds) + "." + Pad2(c.hundredths)
      && |Pad2(c.minutes)| == 2 && |Pad2(c.seconds)| == 2 && |Pad2(c.hundredths)| == 2
      && IsDigits(Pad2(c.minutes)) && IsDigits(Pad2(c.seconds)) && IsDigits(Pad2(c.hundredths))
      && ParseDecimal(Pad2(c.minutes)) == c.minutes
      && ParseDecimal(Pad2(c.seconds)) == c.seconds
      && ParseDecimal(Pad2(c.hundredths)) == c.hundredths
  {
    var c := UIFieldsTruncated(time);
    RenderWithoutHours(c);
    Pad2Small(c.minutes);
    Pad2Small(c.seconds);
    Pad2Small(c.hundredths);
  }
}
