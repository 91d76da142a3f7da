/** Shared vocabulary of the attendance generators: optional values, clock
    times, calendar dates, and the two-digit text forms that end up in the
    attendance rows. */
module Common {

  datatype Option<T> = None | Some(value: T)

  /** A clock time as seconds since midnight (a `datetime.time` without
      microseconds). */
  type Time = s: int | 0 <= s < 86400

  /** A calendar date as its proleptic Gregorian ordinal, the number that
      Python's `date.toordinal()` returns; adding one day is adding 1. */
  type Date = int

  function Hour(t: Time): nat { t / 3600 }
  function Minute(t: Time): nat { (t / 60) % 60 }
  function Second(t: Time): nat { t % 60 }

  /** The minute of the day, `t.hour * 60 + t.minute`. */
  function MinuteOfDay(t: Time): (m: nat)
    ensures m < 1440
    ensures m == Hour(t) * 60 + Minute(t)
  {
    t / 60
  }

  /** The time `h:m:s`. */
  function TimeOf(h: nat, m: nat, s: nat): (t: Time)
    requires h < 24 && m < 60 && s < 60
    ensures Hour(t) == h && Minute(t) == m && Second(t) == s
  {
    DivModOfTime(h, m, s);
    h * 3600 + m * 60 + s
  }

  lemma DivModOfTime(h: nat, m: nat, s: nat)
    requires h < 24 && m < 60 && s < 60
    ensures 0 <= h * 3600 + m * 60 + s < 86400
    ensures (h * 3600 + m * 60 + s) / 3600 == h
    ensures ((h * 3600 + m * 60 + s) / 60) % 60 == m
    ensures (h * 3600 + m * 60 + s) % 60 == s
  {
    var t := h * 3600 + m * 60 + s;
    assert t == (h * 60 + m) * 60 + s;
    assert t / 60 == h * 60 + m;
    assert (h * 60 + m) % 60 == m;
    assert t == h * 3600 + (m * 60 + s) && m * 60 + s < 3600;
  }

  /** Python's `date.weekday()`, which is `(toordinal() + 6) % 7`: 0 is
      Monday and 6 is Sunday. */
  function Weekday(d: Date): (w: nat)
    ensures w < 7
  {
    (d + 6) % 7
  }

  /** `date.strftime("%A")` in the C locale. */
  function DayName(d: Date): string {
    ["Monday", "Tuesday", "Wednesday", "Thursday", "Friday", "Saturday", "Sunday"][Weekday(d)]
  }

  predicate IsDigit(c: char) {
    '0' <= c <= '9'
  }

  function Digit(n: nat): (c: char)
    requires n < 10
    ensures IsDigit(c)
  {
    ('0' as int + n) as char
  }

  function DigitValue(c: char): (n: nat)
    requires IsDigit(c)
    ensures n < 10 && Digit(n) == c
  {
    c as int - '0' as int
  }

  /** `f"{n:02d}"` for a number of at most two digits. */
  function Pad2(n: nat): (s: string)
    requires n < 100
    ensures |s| == 2 && IsDigit(s[0]) && IsDigit(s[1])
    ensures 10 * DigitValue(s[0]) + DigitValue(s[1]) == n
  {
    [Digit(n / 10), Digit(n % 10)]
  }

  /** The number written by the two digits at `s[i]` and `s[i + 1]`. */
  function TwoDigits(s: string, i: nat): (n: nat)
    requires i + 1 < |s| && IsDigit(s[i]) && IsDigit(s[i + 1])
    ensures n < 100
  {
    10 * DigitValue(s[i]) + DigitValue(s[i + 1])
  }

  /** Two digits are the padded form of the number they write. */
  lemma PadTwoDigits(s: string, i: nat)
    requires i + 1 < |s| && IsDigit(s[i]) && IsDigit(s[i + 1])
    ensures Pad2(TwoDigits(s, i)) == s[i..i + 2]
  {
    var n := TwoDigits(s, i);
    assert Pad2(n)[0] == s[i] && Pad2(n)[1] == s[i + 1];
  }

  /** `t.strftime("%H:%M:%S")`. */
  function FormatTime(t: Time): (s: string)
    ensures |s| == 8
  {
    Pad2(Hour(t)) + ":" + Pad2(Minute(t)) + ":" + Pad2(Second(t))
  }

  /** A reader for the strict "HH:MM:SS" form; it states what the stored
      strings mean and is the inverse of `FormatTime`. */
  function ParseTime(s: string): Option<Time> {
    if |s| == 8 && s[2] == ':' && s[5] == ':'
       && IsDigit(s[0]) && IsDigit(s[1]) && IsDigit(s[3]) && IsDigit(s[4]) && IsDigit(s[6]) && IsDigit(s[7])
    then
      var h, m, sec := TwoDigits(s, 0), TwoDigits(s, 3), TwoDigits(s, 6);
      if h < 24 && m < 60 && sec < 60 then Some(TimeOf(h, m, sec)) else None
    else None
  }

  /** Two padded digits read back as their number. */
  lemma ReadPad2(n: nat, s: string, i: nat)
    requires n < 100 && i + 1 < |s| && s[i..i + 2] == Pad2(n)
    ensures IsDigit(s[i]) && IsDigit(s[i + 1]) && TwoDigits(s, i) == n
  {
    assert s[i] == Pad2(n)[0] && s[i + 1] == Pad2(n)[1];
  }

  /** The text `HH:MM:SS` of three in-range fields reads as that time. */
  lemma ParseFields(h: nat, m: nat, sec: nat)
    requires h < 24 && m < 60 && sec < 60
    ensures ParseTime(Pad2(h) + ":" + Pad2(m) + ":" + Pad2(sec)) == Some(TimeOf(h, m, sec))
  {
    var s := Pad2(h) + ":" + Pad2(m) + ":" + Pad2(sec);
    ReadPad2(h, s, 0);
    ReadPad2(m, s, 3);
    ReadPad2(sec, s, 6);
  }

  /** Reading back a formatted time gives the time. */
  lemma ParseFormat(t: Time)
    ensures ParseTime(FormatTime(t)) == Some(t)
  {
    var h, m, sec := Hour(t), Minute(t), Second(t);
    SplitTime(t);
    assert TimeOf(h, m, sec) == t;
    ParseFields(h, m, sec);
    assert FormatTime(t) == Pad2(h) + ":" + Pad2(m) + ":" + Pad2(sec);
  }

  lemma SplitTime(t: Time)
    ensures Hour(t) < 24 && Minute(t) < 60 && Second(t) < 60
    ensures Hour(t) * 3600 + Minute(t) * 60 + Second(t) == t
  {
    var q := t / 60;
    assert t == q * 60 + t % 60;
    assert q == (q / 60) * 60 + q % 60;
    assert q / 60 == t / 3600;
  }

  /** A string that reads as a time is exactly that time's formatted form. */
  lemma FormatParse(s: string, t: Time)
    requires ParseTime(s) == Some(t)
    ensures FormatTime(t) == s
  {
    var h, m, sec := TwoDigits(s, 0), TwoDigits(s, 3), TwoDigits(s, 6);
    PadTwoDigits(s, 0);
    PadTwoDigits(s, 3);
    PadTwoDigits(s, 6);
    assert Hour(t) == h && Minute(t) == m && Second(t) == sec;
    assert s == s[0..2] + ":" + s[3..5] + ":" + s[6..8];
  }
}
