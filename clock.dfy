/** Clock displays shared by the timer, the results page and the audio player: splitting a
    number of seconds into hours, minutes and seconds, and reading a display "m:ss" or
    "h:mm:ss" back as a number of seconds. */
module Clock {
  import opened Wrappers
  import opened Text

  /** `Math.floor(s / 3600)`, `Math.floor((s % 3600) / 60)` and `s % 60`, with JavaScript's `%`
      (Dafny's `/` rounds down for a positive divisor, as `Math.floor` does). */
  function ClockFields(seconds: int): (int, int, int) {
    (seconds / 3600, JsRem(seconds, 3600) / 60, JsRem(seconds, 60))
  }

  /** For a non-negative number of seconds the fields are the hours, minutes below 60 and
      seconds below 60 that make it up. */
  lemma FieldsMakeUp(seconds: int)
    requires seconds >= 0
    ensures var (h, m, s) := ClockFields(seconds);
      && h >= 0 && 0 <= m < 60 && 0 <= s < 60
      && h * 3600 + m * 60 + s == seconds
  {
    var h := seconds / 3600;
    var rest := seconds % 3600;
    assert seconds == h * 3600 + rest;
    assert rest == (rest / 60) * 60 + rest % 60;
    assert seconds % 60 == rest % 60 by {
      assert seconds == (h * 60) * 60 + rest;
    }
  }

  /** Splits a display ending in ':' and two digits into what comes before and the value of
      the two digits. */
  function LastField(str: string): Option<(string, nat)> {
    if |str| >= 3 && str[|str| - 3] == ':' && AllDigits(str[|str| - 2..]) then
      Some((str[..|str| - 3], DecimalValue(str[|str| - 2..])))
    else None
  }

  /** Reads a clock display back: the last field is the seconds; before it either hours and a
      field of minutes, or the minutes alone. */
  function ReadClock(str: string): Option<nat> {
    match LastField(str)
    case None => None
    case Some(last) => ReadBefore(last.0, last.1)
  }

  /** What comes before the seconds field, read as hours and minutes or as minutes alone. */
  function ReadBefore(rest: string, secs: nat): Option<nat> {
    match LastField(rest)
    case Some(mid) =>
      if |mid.0| >= 1 && AllDigits(mid.0) then Some(DecimalValue(mid.0) * 3600 + mid.1 * 60 + secs) else None
    case None =>
      if |rest| >= 1 && AllDigits(rest) then Some(DecimalValue(rest) * 60 + secs) else None
  }

  /** ':' and two digits come off again as the last field. */
  lemma LastFieldOf(a: string, p: string)
    requires |p| == 2 && AllDigits(p)
    ensures LastField(a + ":" + p) == Some((a, DecimalValue(p)))
  {
    var str := a + ":" + p;
    assert str[|str| - 2..] == p;
    assert str[..|str| - 3] == a;
  }

  /** A run of digits has no last field. */
  lemma NoLastField(a: string)
    requires AllDigits(a)
    ensures LastField(a) == None
  {
    if |a| >= 3 {
      assert IsDigit(a[|a| - 3]);
    }
  }

  /** Digits, ':' and two digits read back as minutes and seconds. */
  lemma ReadTwoFields(mm: string, ss: string, m: nat, s: nat)
    requires |mm| >= 1 && AllDigits(mm) && DecimalValue(mm) == m
    requires |ss| == 2 && AllDigits(ss) && DecimalValue(ss) == s
    ensures ReadClock(mm + ":" + ss) == Some(m * 60 + s)
  {
    LastFieldOf(mm, ss);
    NoLastField(mm);
  }

  /** Digits, ':', two digits, ':' and two digits read back as hours, minutes and seconds. */
  lemma ReadThreeFields(hh: string, mm: string, ss: string, h: nat, m: nat, s: nat)
    requires |hh| >= 1 && AllDigits(hh) && DecimalValue(hh) == h
    requires |mm| == 2 && AllDigits(mm) && DecimalValue(mm) == m
    requires |ss| == 2 && AllDigits(ss) && DecimalValue(ss) == s
    ensures ReadClock(hh + ":" + mm + ":" + ss) == Some(h * 3600 + m * 60 + s)
  {
    var rest := hh + ":" + mm;
    LastFieldOf(rest, ss);
    LastFieldOf(hh, mm);
    HoursBefore(rest, hh, m, s);
    SecondsLast(rest + ":" + ss, rest, s);
  }

  /** Once the seconds field comes off, the display reads as what comes before it. */
  lemma SecondsLast(str: string, rest: string, secs: nat)
    requires LastField(str) == Some((rest, secs))
    ensures ReadClock(str) == ReadBefore(rest, secs)
  {
  }

  /** Before the seconds, a field of minutes after a run of digits reads as hours and minutes. */
  lemma HoursBefore(rest: string, hh: string, m: nat, secs: nat)
    requires LastField(rest) == Some((hh, m)) && |hh| >= 1 && AllDigits(hh)
    ensures ReadBefore(rest, secs) == Some(DecimalValue(hh) * 3600 + m * 60 + secs)
  {
  }

  /** "m:ss" reads back as the seconds it shows. */
  lemma ReadMinutesSeconds(m: nat, s: nat)
    requires s < 60
    ensures ReadClock(NatStr(m) + ":" + PadStart2(NatStr(s))) == Some(m * 60 + s)
  {
    Pad2Digits(s);
    ReadTwoFields(NatStr(m), PadStart2(NatStr(s)), m, s);
  }

  /** "h:mm:ss" reads back as the seconds it shows. */
  lemma ReadHoursMinutesSeconds(h: nat, m: nat, s: nat)
    requires m < 60 && s < 60
    ensures ReadClock(NatStr(h) + ":" + PadStart2(NatStr(m)) + ":" + PadStart2(NatStr(s)))
         == Some(h * 3600 + m * 60 + s)
  {
    Pad2Digits(m);
    Pad2Digits(s);
    ReadThreeFields(NatStr(h), PadStart2(NatStr(m)), PadStart2(NatStr(s)), h, m, s);
  }
}
