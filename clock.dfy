/** Clock times as the script reads and writes them: `timeToMinutes`
    (script.js:333-336), the `parseInt` of a covered court's start hour, the
    `"HH:MM - HH:MM"` half-hour labels, and the `slot.time.split(' - ')` that
    a native slot's range goes through. */
module Clock {
  import opened Options
  import opened Text

  /** `n.toString().padStart(2, '0')`: one leading zero below 10. */
  function Pad2(n: nat): (r: string)
    ensures |r| >= 2 && (n < 100 ==> |r| == 2)
  {
    var d := DecimalString(n);
    "0"[..2 - Min(2, |d|)] + d
  }

  function Min(a: int, b: int): int
  {
    if a < b then a else b
  }

  lemma Pad2Digits(n: nat)
    ensures AllDigits(Pad2(n)) && DigitsValue(Pad2(n)) == n
  {
    var d := DecimalString(n);
    DecimalStringValue(n);
    if n < 10 {
      assert Pad2(n) == "0" + d;
      LeadingZero(d);
    } else {
      assert Pad2(n) == d;
    }
  }

  lemma Pad2IsPadStart(n: nat)
    ensures Pad2(n) == PadStart(DecimalString(n), 2, '0')
  {
    var d := DecimalString(n);
    if |d| < 2 {
      assert seq(2 - |d|, _ => '0') == "0";
    }
  }

  lemma DigitsLack(s: string, c: char)
    requires AllDigits(s) && !IsDigit(c)
    ensures c !in s
  {
  }

  lemma Pad2Small()
    ensures Pad2(0) == "00" && Pad2(30) == "30"
  {
    assert DecimalString(0) == "0";
    assert DecimalString(3) == "3";
    assert DecimalString(30) == "30";
  }

  /** The two characters `Pad2` gives for a number below 100. */
  lemma Pad2Of(n: nat)
    requires n < 100
    ensures Pad2(n) == (if n < 10 then "0" + [DigitChar(n)] else [DigitChar(n / 10), DigitChar(n % 10)])
  {
    if n >= 10 {
      assert DecimalString(n / 10) == [DigitChar(n / 10)];
    }
  }

  /** `Number(s)` for the strings this model admits: a run of ASCII digits,
      the empty run reading as 0. Anything else stands for `NaN`. */
  function NumberOf(s: string): (r: Option<nat>)
    ensures r.Some? <==> AllDigits(s)
  {
    if AllDigits(s) then Some(DigitsValue(s)) else None
  }

  /** `timeToMinutes(t)`: split on ':', read the hours and the minutes with
      `Number`, and return `hours * 60 + minutes`; a missing minutes part or
      an unreadable number gives `NaN` (None). Parts after the second are
      ignored, as the destructuring does. */
  function TimeToMinutes(t: string): Option<nat>
  {
    var parts := Split(t, ":");
    if |parts| < 2 then None
    else
      var hours, minutes := NumberOf(parts[0]), NumberOf(parts[1]);
      if hours.Some? && minutes.Some? then Some(60 * hours.value + minutes.value) else None
  }

  lemma SplitPair(a: string, sep: string, b: string)
    requires sep != [] && sep[0] !in a && sep[0] !in b
    ensures Split(a + sep + b, sep) == [a, b]
  {
    var parts := [a, b];
    assert parts[1..] == [b];
    assert Join(parts, sep) == a + sep + b;
    JoinSplit(parts, sep);
  }

  /** `timeToMinutes("HH:MM")` is 60 * HH + MM for digit strings HH and MM. */
  lemma TimeToMinutesOfDigits(hh: string, mm: string)
    requires AllDigits(hh) && AllDigits(mm)
    ensures TimeToMinutes(hh + ":" + mm) == Some(60 * DigitsValue(hh) + DigitsValue(mm))
  {
    var t := hh + ":" + mm;
    assert Split(t, ":") == [hh, mm] by {
      DigitsLack(hh, ':');
      DigitsLack(mm, ':');
      SplitPair(hh, ":", mm);
    }
    TimeToMinutesOfParts(t, hh, mm);
  }

  lemma TimeToMinutesOfParts(t: string, hh: string, mm: string)
    requires Split(t, ":") == [hh, mm] && AllDigits(hh) && AllDigits(mm)
    ensures TimeToMinutes(t) == Some(60 * DigitsValue(hh) + DigitsValue(mm))
  {
    var parts := Split(t, ":");
    assert parts[0] == hh && parts[1] == mm;
    assert NumberOf(hh) == Some(DigitsValue(hh)) && NumberOf(mm) == Some(DigitsValue(mm));
  }

  /** The longest run of digits at the start of `s`. */
  function LeadingDigits(s: string): (r: string)
    ensures AllDigits(r) && |r| <= |s| && r == s[..|r|]
    ensures |r| < |s| ==> !IsDigit(s[|r|])
    decreases |s|
  {
    if s != [] && IsDigit(s[0]) then [s[0]] + LeadingDigits(s[1..]) else []
  }

  /** `parseInt(s, 10)`: the value of the leading digits, `NaN` (None) when
      `s` does not start with a digit. */
  function ParseInt(s: string): (r: Option<nat>)
    ensures r.None? <==> (s == [] || !IsDigit(s[0]))
  {
    var d := LeadingDigits(s);
    if d == [] then None else Some(DigitsValue(d))
  }

  lemma ParseIntLeading(hh: string, rest: string)
    requires hh != [] && AllDigits(hh)
    requires rest == [] || !IsDigit(rest[0])
    ensures ParseInt(hh + rest) == Some(DigitsValue(hh))
  {
    LeadingDigitsOf(hh, rest);
  }

  lemma {:induction false} LeadingDigitsOf(hh: string, rest: string)
    requires AllDigits(hh)
    requires rest == [] || !IsDigit(rest[0])
    ensures LeadingDigits(hh + rest) == hh
    decreases |hh|
  {
    if hh != [] {
      assert (hh + rest)[1..] == hh[1..] + rest;
      LeadingDigitsOf(hh[1..], rest);
      assert hh == [hh[0]] + hh[1..];
    }
  }

  /** `HH:MM` for a number of minutes since midnight, as the regular-court
      loop formats it: hours with `Math.floor(m / 60)`, minutes with `m % 60`,
      both padded to two digits (hours past 99 keep all their digits). */
  function ClockText(m: nat): string
  {
    Pad2(m / 60) + ":" + Pad2(m % 60)
  }

  /** The grid label of the half hour that starts `m` minutes after
      midnight. */
  function HalfHourLabel(m: nat): string
  {
    ClockText(m) + " - " + ClockText(m + 30)
  }

  /** What `slot.time.split(' - ')` followed by `timeToMinutes` on both
      halves yields. With no separator the end half is `undefined`, on which
      `timeToMinutes` throws. */
  datatype RangeText = MissingEnd | Range(start: Option<nat>, end: Option<nat>)

  function SlotRange(time: string): RangeText
  {
    var parts := Split(time, " - ");
    if |parts| < 2 then MissingEnd else Range(TimeToMinutes(parts[0]), TimeToMinutes(parts[1]))
  }

  lemma ClockTextMinutes(m: nat)
    ensures TimeToMinutes(ClockText(m)) == Some(m)
    ensures ' ' !in ClockText(m)
  {
    Pad2Digits(m / 60);
    Pad2Digits(m % 60);
    TimeToMinutesOfDigits(Pad2(m / 60), Pad2(m % 60));
    DigitsLack(Pad2(m / 60), ' ');
    DigitsLack(Pad2(m % 60), ' ');
  }

  /** Reading a label back with the script's own range parser gives the half
      hour it was made from. */
  lemma LabelRange(m: nat)
    ensures SlotRange(HalfHourLabel(m)) == Range(Some(m), Some(m + 30))
  {
    var a, b := ClockText(m), ClockText(m + 30);
    ClockTextMinutes(m);
    ClockTextMinutes(m + 30);
    assert Split(HalfHourLabel(m), " - ") == [a, b] by {
      SplitPair(a, " - ", b);
    }
  }

  /** Different half hours have different labels. */
  lemma LabelInjective(a: nat, b: nat)
    ensures HalfHourLabel(a) == HalfHourLabel(b) ==> a == b
  {
    LabelRange(a);
    LabelRange(b);
  }

  /** A key of a court's status dictionary, by what it denotes: the half
      hour starting at a minute, or one of the two labels a covered court
      writes when `parseInt` of its start hour is `NaN`. */
  datatype Label = HalfHour(start: nat) | NaNFirstHalf | NaNSecondHalf

  /** The string the script uses as the dictionary key. */
  function LabelText(l: Label): string
  {
    match l
    case HalfHour(m) => HalfHourLabel(m)
    case NaNFirstHalf => "NaN:00 - NaN:30"
    case NaNSecondHalf => "NaN:30 - NaN:00"
  }

  /** Different labels are different strings, so a dictionary keyed by the
      string and one keyed by the Label hold the same entries. */
  lemma LabelTextInjective(a: Label, b: Label)
    requires LabelText(a) == LabelText(b)
    ensures a == b
  {
    if a.HalfHour? {
      HalfHourLeadsWithDigit(a.start);
    }
    if b.HalfHour? {
      HalfHourLeadsWithDigit(b.start);
    }
    if a.HalfHour? && b.HalfHour? {
      LabelInjective(a.start, b.start);
    }
  }

  lemma HalfHourLeadsWithDigit(m: nat)
    ensures HalfHourLabel(m) != [] && IsDigit(HalfHourLabel(m)[0])
  {
    Pad2Digits(m / 60);
  }

  /** `HH:00 - HH:30`, the first half of hour `h`, as the grid and the
      covered courts build it. */
  function FirstHalf(h: nat): string
  {
    Pad2(h) + ":00 - " + Pad2(h) + ":30"
  }

  /** `HH:30 - (HH+1):00`, the second half of hour `h`. */
  function SecondHalf(h: nat): string
  {
    Pad2(h) + ":30 - " + Pad2(h + 1) + ":00"
  }

  /** The texts the grid's edges are checked against. */
  lemma FirstHalfSeven()
    ensures FirstHalf(7) == "07:00 - 07:30"
  {
    Pad2Of(7);
  }

  lemma FirstHalfTwentyThree()
    ensures FirstHalf(23) == "23:00 - 23:30"
  {
    Pad2Of(23);
  }

  lemma SecondHalfTwentyThree()
    ensures SecondHalf(23) == "23:30 - 24:00"
  {
    Pad2Of(23);
    Pad2Of(24);
  }

  /** The two halves of hour `h` are the half hours starting at minutes
      60h and 60h + 30, formatted as the regular-court loop formats them. */
  lemma FirstHalfLabel(h: nat)
    ensures FirstHalf(h) == HalfHourLabel(60 * h)
  {
    Pad2Small();
    assert (60 * h) / 60 == h && (60 * h) % 60 == 0;
    assert (60 * h + 30) / 60 == h && (60 * h + 30) % 60 == 30;
  }

  lemma SecondHalfLabel(h: nat)
    ensures SecondHalf(h) == HalfHourLabel(60 * h + 30)
  {
    Pad2Small();
    assert (60 * h + 30) / 60 == h && (60 * h + 30) % 60 == 30;
    assert (60 * h + 60) / 60 == h + 1 && (60 * h + 60) % 60 == 0;
  }
}
