/**
 * Pacing and display: the planned duration read from the three input fields, the
 * estimated time of arrival at a distance, and the HH:MM:SS text of a time in hours.
 */
module Pacing {
  import opened Common
  import opened Track

  /** `parseInt(field) || 0`: an unparseable field (None, JavaScript's NaN) counts as 0. */
  function FieldValue(field: Option<int>): int
  {
    if field.Some? then field.value else 0
  }

  /** `getTotalTime`: the planned duration in hours. */
  function TotalTime(hours: Option<int>, minutes: Option<int>, seconds: Option<int>): (t: real)
    ensures t * 3600.0 == (FieldValue(hours) * 3600 + FieldValue(minutes) * 60 + FieldValue(seconds)) as real
  {
    FieldValue(hours) as real + FieldValue(minutes) as real / 60.0 + FieldValue(seconds) as real / 3600.0
  }

  /** Fields that are absent or non-negative give a non-negative duration. */
  lemma TotalTimeNonNegative(hours: Option<int>, minutes: Option<int>, seconds: Option<int>)
    requires FieldValue(hours) >= 0 && FieldValue(minutes) >= 0 && FieldValue(seconds) >= 0
    ensures TotalTime(hours, minutes, seconds) >= 0.0
  {
  }

  /**
   * `getTimeEstimate`: the time at which `distance` is reached when the route's full length
   * is covered in `totalTime` hours at a constant pace.
   */
  function TimeEstimate(profile: seq<ProfilePoint>, distance: real, totalTime: real): (t: real)
    requires |profile| > 0 && MaxDistance(profile) > 0.0
    ensures t * MaxDistance(profile) == distance * totalTime
  {
    (distance / MaxDistance(profile)) * totalTime
  }

  /**
   * Along the route the estimate runs from 0 at the start to the whole planned duration at
   * the end, and later distances are reached no earlier.
   */
  lemma TimeEstimateBounds(profile: seq<ProfilePoint>, d1: real, d2: real, totalTime: real)
    requires |profile| > 0 && MaxDistance(profile) > 0.0
    requires 0.0 <= d1 <= d2 <= MaxDistance(profile) && totalTime >= 0.0
    ensures 0.0 <= TimeEstimate(profile, d1, totalTime) <= TimeEstimate(profile, d2, totalTime) <= totalTime
    ensures TimeEstimate(profile, 0.0, totalTime) == 0.0
    ensures TimeEstimate(profile, MaxDistance(profile), totalTime) == totalTime
  {
    var m := MaxDistance(profile);
    var t1, t2 := TimeEstimate(profile, d1, totalTime), TimeEstimate(profile, d2, totalTime);
    assert (d2 - d1) * totalTime >= 0.0;
    assert (t2 - t1) * m == (d2 - d1) * totalTime;
    assert (m - d2) * totalTime >= 0.0;
    assert (totalTime - t2) * m == (m - d2) * totalTime;
    assert d1 * totalTime >= 0.0;
  }

  /** The clock fields `formatTime` prints: whole hours, then whole minutes and whole seconds of the remainder. */
  function Clock(t: real): (c: (int, int, int))
    ensures c.0 == t.Floor
    ensures 0 <= c.1 <= 59 && 0 <= c.2 <= 59
  {
    var hours := t.Floor;
    var minutes := ((t - hours as real) * 60.0).Floor;
    var seconds := (((t - hours as real) * 60.0 - minutes as real) * 60.0).Floor;
    (hours, minutes, seconds)
  }

  /**
   * The clock truncates and never rounds up: it shows the last whole second reached, so
   * 0.9999 hours shows as 00:59:59.
   */
  lemma ClockTruncates(t: real)
    ensures var c := Clock(t); c.0 * 3600 + c.1 * 60 + c.2 == (t * 3600.0).Floor
  {
    var c := Clock(t);
    var f := t - c.0 as real;
    var g := f * 60.0 - c.1 as real;
    assert g * 60.0 == t * 3600.0 - (c.0 * 3600 + c.1 * 60) as real;
    assert c.2 as real <= g * 60.0 < c.2 as real + 1.0;
  }

  /** A duration entered as whole hours, minutes below 60 and seconds below 60 is shown as entered. */
  lemma ClockOfTotalTime(hours: int, minutes: int, seconds: int)
    requires 0 <= minutes < 60 && 0 <= seconds < 60
    ensures Clock(TotalTime(Some(hours), Some(minutes), Some(seconds))) == (hours, minutes, seconds)
  {
    var t := TotalTime(Some(hours), Some(minutes), Some(seconds));
    var f := minutes as real / 60.0 + seconds as real / 3600.0;
    assert t == hours as real + f;
    assert 0.0 <= f < 1.0;
    assert t.Floor == hours;
    assert (t - hours as real) * 60.0 == minutes as real + seconds as real / 60.0;
    assert ((t - hours as real) * 60.0).Floor == minutes;
    assert ((t - hours as real) * 60.0 - minutes as real) * 60.0 == seconds as real;
  }

  // ---- Text ----

  /** Every character is a decimal digit. */
  predicate IsDigits(s: string)
  {
    forall i :: 0 <= i < |s| ==> '0' <= s[i] <= '9'
  }

  /** The decimal digits of `n` (`n.toString()` for a non-negative integer), with no leading zero. */
  function Digits(n: nat): (s: string)
    ensures |s| > 0 && IsDigits(s)
    ensures n >= 10 ==> s[0] != '0'
    ensures n < 10 <==> |s| == 1
    ensures n < 100 ==> |s| <= 2
  {
    if n < 10 then [DigitChar(n)] else Digits(n / 10) + [DigitChar(n % 10)]
  }

  function DigitChar(d: nat): (c: char)
    requires d < 10
    ensures '0' <= c <= '9' && c as int - '0' as int == d
  {
    ['0', '1', '2', '3', '4', '5', '6', '7', '8', '9'][d]
  }

  /** The number a string of decimal digits denotes. */
  function Value(s: string): nat
    requires IsDigits(s)
  {
    if |s| == 0 then 0 else Value(s[..|s| - 1]) * 10 + (s[|s| - 1] as int - '0' as int)
  }

  /** Reading back the digits of `n` gives `n`. */
  lemma {:induction false} ValueOfDigits(n: nat)
    ensures Value(Digits(n)) == n
  {
    if n >= 10 {
      ValueOfDigits(n / 10);
      var s := Digits(n);
      assert s[..|s| - 1] == Digits(n / 10);
    }
  }

  /** Leading zeros do not change the value. */
  lemma {:induction false} ValueLeadingZero(s: string)
    requires IsDigits(s)
    ensures Value("0" + s) == Value(s)
  {
    if |s| > 0 {
      ValueLeadingZero(s[..|s| - 1]);
      assert ("0" + s)[..|s|] == "0" + s[..|s| - 1];
    }
  }

  /**
   * A digit string with no leading zero is the text of its value: the digits of a number
   * are the only such text for it.
   */
  lemma {:induction false} CanonicalDigits(s: string)
    requires IsDigits(s) && |s| > 0 && (|s| == 1 || s[0] != '0')
    ensures Digits(Value(s)) == s
  {
    var front, last := s[..|s| - 1], s[|s| - 1];
    var d := last as int - '0' as int;
    assert IsDigits(front);
    if |s| == 1 {
      assert front == [];
      assert [DigitChar(d)] == s;
    } else {
      CanonicalDigits(front);
      var v := Value(front);
      assert Digits(v)[0] == s[0];
      assert Digits(0)[0] == '0';
      assert v >= 1;
      assert Value(s) / 10 == v && Value(s) % 10 == d;
      assert s == front + [last];
    }
  }

  /**
   * `i.toString()`: a minus sign exactly for a negative number, then the digits of its
   * magnitude (which read back as it and have no leading zero, by `ValueOfDigits` and
   * `CanonicalDigits`).
   */
  function IntToString(i: int): (s: string)
    ensures |s| >= 1 && (s[0] == '-' <==> i < 0)
    ensures i >= 0 ==> IsDigits(s)
  {
    if i < 0 then "-" + Digits(-i) else Digits(i)
  }

  /** `s.padStart(2, '0')`: zeros in front up to two characters; a longer string is kept as it is. */
  function Pad2(s: string): (r: string)
    ensures |r| == if |s| >= 2 then |s| else 2
    ensures r[|r| - |s|..] == s
    ensures forall i :: 0 <= i < |r| - |s| ==> r[i] == '0'
  {
    if |s| >= 2 then s else seq(2 - |s|, _ => '0') + s
  }

  /**
   * `formatTime`: the time in hours as HH:MM:SS, the clock text of the time's clock fields
   * (what it shows is `FormatTimeReadsBack` and `FormatTimeIsTheOnlyText`).
   */
  function FormatTime(t: real): string
  {
    var c := Clock(t);
    ClockText(c.0, c.1, c.2)
  }

  /**
   * The three clock fields, each padded to two characters, joined by colons. Minutes and
   * seconds take two characters each, so the colons sit six and three characters from the end.
   */
  function ClockText(h: int, m: int, sec: int): (s: string)
    requires 0 <= m < 60 && 0 <= sec < 60
    ensures |s| >= 8 && s[|s| - 6] == ':' && s[|s| - 3] == ':'
  {
    var hh, mm, ss := Pad2(IntToString(h)), Pad2(IntToString(m)), Pad2(IntToString(sec));
    Fields(hh, mm, ss);
    hh + ":" + mm + ":" + ss
  }

  /** Where the three fields of an `h:mm:ss` text lie. */
  lemma Fields(h: string, m: string, sec: string)
    requires |m| == 2 && |sec| == 2
    ensures var s := h + ":" + m + ":" + sec;
            && |s| == |h| + 6 && s[|s| - 6] == ':' && s[|s| - 3] == ':'
            && s[..|s| - 6] == h && s[|s| - 5..|s| - 3] == m && s[|s| - 2..] == sec
  {
  }

  /** A non-negative number of fewer than three digits, padded, is two digits that read back as it. */
  lemma Pad2Reads(n: nat)
    requires n < 100
    ensures |Pad2(IntToString(n))| == 2 && IsDigits(Pad2(IntToString(n)))
    ensures Value(Pad2(IntToString(n))) == n
  {
    ValueOfDigits(n);
    if n < 10 {
      assert Pad2(IntToString(n)) == "0" + Digits(n);
      ValueLeadingZero(Digits(n));
    } else {
      assert Digits(n) == Digits(n / 10) + [DigitChar(n % 10)];
    }
  }

  /**
   * A non-negative number, padded, is at least two digits that read back as it; from 10 on
   * the padding adds nothing.
   */
  lemma PadReads(n: nat)
    ensures |Pad2(IntToString(n))| >= 2 && IsDigits(Pad2(IntToString(n)))
    ensures Value(Pad2(IntToString(n))) == n
    ensures n >= 10 ==> Pad2(IntToString(n)) == Digits(n)
  {
    if n < 100 {
      Pad2Reads(n);
    } else {
      ValueOfDigits(n);
      assert Digits(n) == Digits(n / 10) + [DigitChar(n % 10)];
    }
  }

  /**
   * What a clock text shows: the hours, then the minutes and the seconds, two digits each,
   * separated by colons; each field reads back as its value, and the hours take two
   * characters below 100 and carry no leading zero from 10 on (so, by `CanonicalDigits`,
   * each field is the only text with these properties).
   */
  predicate Shows(s: string, h: nat, m: nat, sec: nat)
  {
    && |s| >= 8 && s[|s| - 6] == ':' && s[|s| - 3] == ':'
    && IsDigits(s[..|s| - 6]) && IsDigits(s[|s| - 5..|s| - 3]) && IsDigits(s[|s| - 2..])
    && Value(s[..|s| - 6]) == h && Value(s[|s| - 5..|s| - 3]) == m && Value(s[|s| - 2..]) == sec
    && (h < 100 ==> |s| == 8) && (h >= 10 ==> s[0] != '0')
  }

  /** The text of non-negative clock fields shows them. */
  lemma ClockTextReadsBack(h: nat, m: nat, sec: nat)
    requires m < 60 && sec < 60
    ensures Shows(ClockText(h, m, sec), h, m, sec)
  {
    var hh, mm, ss := Pad2(IntToString(h)), Pad2(IntToString(m)), Pad2(IntToString(sec));
    PadReads(h);
    Pad2Reads(m);
    Pad2Reads(sec);
    Fields(hh, mm, ss);
  }

  /** For a non-negative time, `formatTime` shows the hours, minutes and seconds of the clock. */
  lemma FormatTimeReadsBack(t: real)
    requires t >= 0.0
    ensures Shows(FormatTime(t), Clock(t).0, Clock(t).1, Clock(t).2)
  {
    var c := Clock(t);
    ClockTextReadsBack(c.0, c.1, c.2);
  }

  /**
   * A field of digits that reads back as `v`, two characters below 100 and with no leading
   * zero from 100 on, is exactly `v.toString().padStart(2, '0')`.
   */
  lemma FieldUnique(s: string, v: nat)
    requires |s| >= 2 && IsDigits(s) && Value(s) == v
    requires v < 100 ==> |s| == 2
    requires v >= 100 ==> s[0] != '0'
    ensures s == Pad2(IntToString(v))
  {
    if v >= 100 {
      CanonicalDigits(s);
      PadReads(v);
    } else {
      var a, b := s[0] as int - '0' as int, s[1] as int - '0' as int;
      assert s[..1][..0] == [] && s[..1] == [s[0]];
      assert v == a * 10 + b;
      DivTen(a, b);
      assert [DigitChar(a), DigitChar(b)] == s;
      if v < 10 {
        assert a == 0 && b == v;
        assert Pad2(IntToString(v)) == "0" + [DigitChar(v)];
        assert "0" + [DigitChar(v)] == [DigitChar(a), DigitChar(b)];
      } else {
        assert Digits(v) == Digits(a) + [DigitChar(b)] == [DigitChar(a), DigitChar(b)];
        assert Pad2(IntToString(v)) == Digits(v);
      }
    }
  }

  /** The last decimal digit and the rest of `10 * a + b`. */
  lemma DivTen(a: nat, b: nat)
    requires b < 10
    ensures (a * 10 + b) / 10 == a && (a * 10 + b) % 10 == b
  {
  }

  /** Non-negative clock fields are shown by exactly one text: the one `ClockText` builds. */
  lemma ShowsOnlyClockText(s: string, h: nat, m: nat, sec: nat)
    requires m < 60 && sec < 60 && Shows(s, h, m, sec)
    ensures s == ClockText(h, m, sec)
  {
    var a, b, c := s[..|s| - 6], s[|s| - 5..|s| - 3], s[|s| - 2..];
    FieldUnique(a, h);
    FieldUnique(b, m);
    FieldUnique(c, sec);
    Split(s);
  }

  /** A text with colons six and three characters from the end is its three fields joined. */
  lemma Split(s: string)
    requires |s| >= 8 && s[|s| - 6] == ':' && s[|s| - 3] == ':'
    ensures s == s[..|s| - 6] + ":" + s[|s| - 5..|s| - 3] + ":" + s[|s| - 2..]
  {
  }

  /** For a non-negative time, `formatTime`'s text is the only text that shows its clock. */
  lemma FormatTimeIsTheOnlyText(t: real, s: string)
    requires t >= 0.0 && Shows(s, Clock(t).0, Clock(t).1, Clock(t).2)
    ensures s == FormatTime(t)
  {
    var c := Clock(t);
    ShowsOnlyClockText(s, c.0, c.1, c.2);
  }
}
