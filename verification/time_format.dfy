/** The `MM:SS - MM:SS` labels of the 8-second scene windows, with a parser
    that reads them back. */
module TimeFormat {
  import opened Maybe

  /** Length of one scene in seconds. */
  const SceneSeconds := 8

  predicate IsDigit(c: char)
  {
    '0' <= c <= '9'
  }

  predicate AllDigits(s: string)
  {
    forall i :: 0 <= i < |s| ==> IsDigit(s[i])
  }

  function DigitChar(d: nat): (c: char)
    requires d < 10
    ensures IsDigit(c) && DigitValue(c) == d
  {
    ('0' as int + d) as char
  }

  function DigitValue(c: char): nat
    requires IsDigit(c)
  {
    (c as int) - ('0' as int)
  }

  /** The number the digits `s` denote when read after a prefix that
      denotes `acc`. */
  function ValueFrom(acc: nat, s: string): nat
    requires AllDigits(s)
    decreases |s|
  {
    if |s| == 0 then acc else ValueFrom(10 * acc + DigitValue(s[0]), s[1..])
  }

  /** The number a string of decimal digits denotes. */
  function DigitsValue(s: string): nat
    requires AllDigits(s)
  {
    ValueFrom(0, s)
  }

  /** Appending a digit multiplies the value by ten and adds the digit. */
  lemma {:induction false} ValueFromSnoc(acc: nat, s: string, c: char)
    requires AllDigits(s) && IsDigit(c)
    ensures AllDigits(s + [c])
    ensures ValueFrom(acc, s + [c]) == 10 * ValueFrom(acc, s) + DigitValue(c)
    decreases |s|
  {
    if |s| > 0 {
      assert (s + [c])[1..] == s[1..] + [c];
      ValueFromSnoc(10 * acc + DigitValue(s[0]), s[1..], c);
    }
  }

  /** `Number.prototype.toString()` on a non-negative integer: its decimal
      digits, most significant first. */
  function NatToString(n: nat): string
  {
    if n < 10 then [DigitChar(n)] else NatToString(n / 10) + [DigitChar(n % 10)]
  }

  /** The numeral is digits with no leading zero and denotes `n`; it has
      one digit exactly below 10 and at most two below 100. */
  lemma {:induction false} NatToStringSpec(n: nat)
    ensures var s := NatToString(n);
      && AllDigits(s) && |s| >= 1
      && DigitsValue(s) == n
      && (|s| > 1 ==> s[0] != '0')
      && (n < 10 <==> |s| == 1)
      && (n < 100 ==> |s| <= 2)
  {
    if n < 10 {
      var c := DigitChar(n);
      assert ValueFrom(0, [c]) == ValueFrom(DigitValue(c), []);
    } else {
      var p := NatToString(n / 10);
      var c := DigitChar(n % 10);
      NatToStringSpec(n / 10);
      ValueFromSnoc(0, p, c);
      assert NatToString(n) == p + [c];
    }
  }

  /** `String.prototype.padStart(width, fill)` for a one-character fill:
      `fill` goes in front until the string is `width` long, and a string
      that is already that long is kept whole. */
  function PadStart(s: string, width: nat, fill: char): string
    decreases width - |s|
  {
    if |s| >= width then s else PadStart([fill] + s, width, fill)
  }

  /** `padStart(2, '0')`, as `formatTime` applies it. */
  function PadStart2(s: string): string
  {
    PadStart(s, 2, '0')
  }

  /** Padding puts zeros in front up to width 2 and keeps a longer string
      whole, never truncating it. */
  lemma PadSpec(s: string)
    ensures var r := PadStart2(s);
      && |r| == (if |s| >= 2 then |s| else 2)
      && r[|r| - |s|..] == s
      && (forall i :: 0 <= i < |r| - |s| ==> r[i] == '0')
  {
    if |s| == 1 {
      assert PadStart2(s) == ['0'] + s;
    } else if |s| == 0 {
      assert s == [];
      assert PadStart(s, 2, '0') == PadStart(['0'] + s, 2, '0');
      assert ['0'] + s == ['0'];
      assert ['0'] + ['0'] == ['0', '0'];
      assert PadStart(['0'], 2, '0') == PadStart(['0', '0'], 2, '0');
      assert PadStart(['0', '0'], 2, '0') == ['0', '0'];
      assert PadStart2(s) == ['0', '0'];
    }
  }

  /** Padding a decimal numeral keeps its value. */
  lemma PadKeepsValue(s: string)
    requires AllDigits(s)
    ensures AllDigits(PadStart2(s)) && DigitsValue(PadStart2(s)) == DigitsValue(s)
  {
    PadSpec(s);
    if |s| == 1 {
      assert PadStart2(s)[1..] == s;
    } else if |s| == 0 {
      assert s == [] && PadStart2(s) == "00";
      assert "00"[1..] == "0" && "0"[1..] == "";
      assert DigitsValue("00") == 0;
    }
  }

  /** Two padded numerals around a colon. */
  function Clock(mins: nat, secs: nat): string
  {
    PadStart2(NatToString(mins)) + ":" + PadStart2(NatToString(secs))
  }

  /** `formatTime`: whole minutes (`Math.floor(s / 60)`) and leftover
      seconds (`s % 60`), each rendered with `toString` and padded to
      width 2. */
  function FormatTime(secs: nat): string
  {
    Clock(secs / 60, secs % 60)
  }

  /** The scene window label for 0-based scene index `k`. */
  function TimeRange(k: nat): string
  {
    FormatTime(k * SceneSeconds) + " - " + FormatTime((k + 1) * SceneSeconds)
  }

  // ---------------------------------------------------------------------
  // Reading labels back

  /** Reads an `MM:SS` label: at least two minute digits, a colon, and
      exactly two second digits denoting less than 60. */
  function ParseClock(t: string): Option<nat>
  {
    if |t| < 5 || t[|t| - 3] != ':' then None
    else
      var mm := t[..|t| - 3];
      var ss := t[|t| - 2..];
      if !AllDigits(mm) || !AllDigits(ss) || DigitsValue(ss) >= 60 then None
      else Some(60 * DigitsValue(mm) + DigitsValue(ss))
  }

  /** Index of the first `c` in `s`, or `|s|` when there is none. */
  function IndexOf(s: string, c: char): (i: nat)
    ensures i <= |s|
  {
    if |s| == 0 then 0 else if s[0] == c then 0 else 1 + IndexOf(s[1..], c)
  }

  /** Reads an `MM:SS - MM:SS` label, split at its first space, into its
      start and end seconds. */
  function ParseRange(t: string): Option<(nat, nat)>
  {
    var i := IndexOf(t, ' ');
    if i + 3 > |t| || t[i..i + 3] != " - " then None
    else
      match (ParseClock(t[..i]), ParseClock(t[i + 3..]))
      case (Some(a), Some(b)) => Some((a, b))
      case _ => None
  }

  /** The first `c` of `x + [c] + y` is the one after `x` when `x` has none. */
  lemma {:induction false} IndexOfAfter(x: string, c: char, y: string)
    requires forall j :: 0 <= j < |x| ==> x[j] != c
    ensures IndexOf(x + [c] + y, c) == |x|
    decreases |x|
  {
    if |x| > 0 {
      assert (x + [c] + y)[1..] == x[1..] + [c] + y;
      IndexOfAfter(x[1..], c, y);
    }
  }

  lemma ParseClockOf(mm: string, ss: string)
    requires AllDigits(mm) && AllDigits(ss) && |mm| >= 2 && |ss| == 2 && DigitsValue(ss) < 60
    ensures ParseClock(mm + ":" + ss) == Some(60 * DigitsValue(mm) + DigitsValue(ss))
  {
    var t := mm + ":" + ss;
    assert t[..|t| - 3] == mm;
    assert t[|t| - 2..] == ss;
  }

  lemma ClockRoundTrip(mins: nat, secs: nat)
    requires secs < 60
    ensures ParseClock(Clock(mins, secs)) == Some(60 * mins + secs)
  {
    NatToStringSpec(mins);
    NatToStringSpec(secs);
    PadKeepsValue(NatToString(mins));
    PadKeepsValue(NatToString(secs));
    PadSpec(NatToString(mins));
    PadSpec(NatToString(secs));
    ParseClockOf(PadStart2(NatToString(mins)), PadStart2(NatToString(secs)));
  }

  /** `formatTime` loses nothing: its label reads back as the same number of
      seconds, with a seconds field below 60, for every duration (minutes of
      three or more digits are kept whole). */
  lemma FormatTimeRoundTrip(secs: nat)
    ensures ParseClock(FormatTime(secs)) == Some(secs)
  {
    var m, s := secs / 60, secs % 60;
    assert 60 * m + s == secs;
    ClockRoundTrip(m, s);
  }

  /** A padded numeral of at most two digits, a colon, and another padded
      numeral: the colon is the only non-digit and sits third from the end,
      and the whole is five characters when the first numeral has at most
      two digits. */
  lemma PaddedPairShape(a: string, b: string)
    requires AllDigits(a) && AllDigits(b) && |b| <= 2
    ensures var r := PadStart2(a) + ":" + PadStart2(b);
      && |r| >= 5
      && (forall i :: 0 <= i < |r| ==> if i == |r| - 3 then r[i] == ':' else IsDigit(r[i]))
      && (|a| <= 2 ==> |r| == 5)
  {
    var mm := PadStart2(a);
    var ss := PadStart2(b);
    PadSpec(a);
    PadSpec(b);
    PadKeepsValue(a);
    PadKeepsValue(b);
    var r := mm + ":" + ss;
    assert |ss| == 2;
    forall i | 0 <= i < |r|
      ensures if i == |r| - 3 then r[i] == ':' else IsDigit(r[i])
    {
      if i < |mm| {
        assert r[i] == mm[i];
      } else if i > |mm| {
        assert r[i] == ss[i - |mm| - 1];
      }
    }
  }

  /** A time label is digits with exactly one colon, the third character
      from the end, so the seconds field always has two digits; below 100
      minutes the label is exactly `MM:SS`. */
  lemma FormatTimeShape(secs: nat)
    ensures var r := FormatTime(secs);
      && |r| >= 5
      && (forall i :: 0 <= i < |r| ==> if i == |r| - 3 then r[i] == ':' else IsDigit(r[i]))
      && (secs < 6000 ==> |r| == 5)
  {
    NatToStringSpec(secs / 60);
    NatToStringSpec(secs % 60);
    PaddedPairShape(NatToString(secs / 60), NatToString(secs % 60));
  }

  lemma ParseRangeOf(a: string, b: string)
    requires forall j :: 0 <= j < |a| ==> a[j] != ' '
    requires ParseClock(a).Some? && ParseClock(b).Some?
    ensures ParseRange(a + " - " + b) == Some((ParseClock(a).value, ParseClock(b).value))
  {
    var t := a + " - " + b;
    assert t == a + [' '] + ("- " + b);
    IndexOfAfter(a, ' ', "- " + b);
    assert t[|a|..|a| + 3] == " - ";
    assert t[..|a|] == a;
    assert t[|a| + 3..] == b;
  }

  /** Scene `k`'s label reads back as the window from `8k` to `8k + 8`
      seconds. */
  lemma TimeRangeRoundTrip(k: nat)
    ensures ParseRange(TimeRange(k)) == Some((k * SceneSeconds, (k + 1) * SceneSeconds))
  {
    LabelRoundTrip(k * SceneSeconds, (k + 1) * SceneSeconds);
  }

  lemma LabelRoundTrip(start: nat, end: nat)
    ensures ParseRange(FormatTime(start) + " - " + FormatTime(end)) == Some((start, end))
  {
    FormatTimeRoundTrip(start);
    FormatTimeRoundTrip(end);
    FormatTimeShape(start);
    ParseRangeOf(FormatTime(start), FormatTime(end));
  }

  /** The first scene covers the first eight seconds. */
  lemma FirstRange()
    ensures TimeRange(0) == "00:00 - 00:08"
  {
    RangeParts(0, 0, 8);
    Label0();
    Label8();
  }

  /** The second scene starts where the first ends. */
  lemma SecondRange()
    ensures TimeRange(1) == "00:08 - 00:16"
  {
    RangeParts(1, 8, 16);
    Label8();
    Label16();
  }

  /** The third scene. */
  lemma ThirdRange()
    ensures TimeRange(2) == "00:16 - 00:24"
  {
    RangeParts(2, 16, 24);
    Label16();
    Label24();
  }

  /** The eighth scene crosses the first minute. */
  lemma EighthRange()
    ensures TimeRange(7) == "00:56 - 01:04"
  {
    RangeParts(7, 56, 64);
    Label56();
    Label64();
  }

  /** Scene `k`'s label is the labels of its start and end seconds. */
  lemma RangeParts(k: nat, start: nat, end: nat)
    requires start == k * SceneSeconds && end == (k + 1) * SceneSeconds
    ensures TimeRange(k) == FormatTime(start) + " - " + FormatTime(end)
  {
  }

  /** A one-digit number is padded with one zero. */
  lemma Pad1(d: nat)
    requires d < 10
    ensures PadStart2(NatToString(d)) == ['0', DigitChar(d)]
  {
    PadSpec(NatToString(d));
  }

  /** A two-digit number is kept as its two digits. */
  lemma Pad2(n: nat, a: nat, b: nat)
    requires 10 <= n < 100 && a == n / 10 && b == n % 10
    ensures PadStart2(NatToString(n)) == [DigitChar(a), DigitChar(b)]
  {
  }

  /** Below a minute the minutes field is zero. */
  lemma UnderAMinute(secs: nat)
    requires secs < 60
    ensures FormatTime(secs) == Clock(0, secs)
  {
    assert secs / 60 == 0 && secs % 60 == secs;
  }

  // Concrete labels: the window boundaries of the first scenes, and the
  // first boundary past a minute (the eighth scene ends at 64 seconds).

  lemma Label0()
    ensures FormatTime(0) == "00:00"
  {
    UnderAMinute(0);
    Pad1(0);
  }

  lemma Label8()
    ensures FormatTime(8) == "00:08"
  {
    UnderAMinute(8);
    Pad1(0);
    Pad1(8);
  }

  lemma Label16()
    ensures FormatTime(16) == "00:16"
  {
    UnderAMinute(16);
    Pad1(0);
    Pad2(16, 1, 6);
  }

  lemma Label24()
    ensures FormatTime(24) == "00:24"
  {
    UnderAMinute(24);
    Pad1(0);
    Pad2(24, 2, 4);
  }

  lemma Label56()
    ensures FormatTime(56) == "00:56"
  {
    UnderAMinute(56);
    Pad1(0);
    Pad2(56, 5, 6);
  }

  lemma Label64()
    ensures FormatTime(64) == "01:04"
  {
    assert FormatTime(64) == Clock(1, 4);
    Pad1(1);
    Pad1(4);
  }
}
