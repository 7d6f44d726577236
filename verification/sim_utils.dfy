/** `SimUtils.FormatTime`: a duration rendered as "HH:MM:SS.mmm". The input
    is modelled as a whole number of milliseconds (or one of the two
    non-finite cases); hours are total hours, not wrapped at 24. */
module SimUtils {
  import opened Base
  import opened Digits

  /** A duration in seconds as the formatter receives it. */
  datatype Duration = Millis(ms: nat) | Infinity | NotANumber

  datatype TimeFields = TimeFields(hours: nat, minutes: nat, seconds: nat, millis: nat)

  /** The clock fields of a duration: they recompose to it, and all but the
      hours are within their usual ranges. */
  function Fields(ms: nat): (f: TimeFields)
    ensures f.minutes < 60 && f.seconds < 60 && f.millis < 1000
    ensures f.hours * 3600000 + f.minutes * 60000 + f.seconds * 1000 + f.millis == ms
  {
    var secs := ms / 1000;
    var mins := secs / 60;
    TimeFields(mins / 60, mins % 60, secs % 60, ms % 1000)
  }

  const Placeholder: string := "--:--:--.---"

  function FormatTime(d: Duration): (s: string)
    ensures !d.Millis? ==> s == Placeholder
    ensures d.Millis? ==> |s| >= 12 && ParseTime(s) == Some(d.ms)
  {
    match d
    case Millis(ms) =>
      FormatRoundTrip(ms);
      Render(Fields(ms))
    case _ => Placeholder
  }

  /** Hours with at least two digits, minutes and seconds with two,
      milliseconds with three. */
  function Render(f: TimeFields): string {
    Pad(f.hours, 2) + ":" + Pad(f.minutes, 2) + ":" + Pad(f.seconds, 2) + "." + Pad(f.millis, 3)
  }

  predicate AllDigits(s: string) {
    forall i :: 0 <= i < |s| ==> IsDigit(s[i])
  }

  /** Reads back "H+:MM:SS.mmm" (at least two hour digits). */
  function ParseTime(s: string): (r: Option<nat>)
    ensures r.Some? ==> |s| >= 12 && s[|s| - 10] == ':' && s[|s| - 7] == ':' && s[|s| - 4] == '.'
  {
    if |s| < 12 then None
    else
      var n := |s|;
      var hh := s[..n - 10];
      var mm := s[n - 9..n - 7];
      var ss := s[n - 6..n - 4];
      var ms := s[n - 3..];
      if s[n - 10] == ':' && s[n - 7] == ':' && s[n - 4] == '.'
         && AllDigits(hh) && AllDigits(mm) && AllDigits(ss) && AllDigits(ms)
         && Value(mm) < 60 && Value(ss) < 60
      then Some(Value(hh) * 3600000 + Value(mm) * 60000 + Value(ss) * 1000 + Value(ms))
      else None
  }

  lemma NatToStringLength(n: nat)
    ensures n < 10 ==> |NatToString(n)| == 1
    ensures n < 100 ==> |NatToString(n)| <= 2
    ensures n < 1000 ==> |NatToString(n)| <= 3
    ensures n >= 10 ==> |NatToString(n)| >= 2
  {
    if n >= 10 {
      NatToStringLength(n / 10);
    }
  }

  lemma {:induction false} ParseFields(a: string, b: string, c: string, d: string)
    requires |a| >= 2 && |b| == 2 && |c| == 2 && |d| == 3
    requires AllDigits(a) && AllDigits(b) && AllDigits(c) && AllDigits(d)
    requires Value(b) < 60 && Value(c) < 60
    ensures ParseTime(a + ":" + b + ":" + c + "." + d)
            == Some(Value(a) * 3600000 + Value(b) * 60000 + Value(c) * 1000 + Value(d))
  {
    var s := a + ":" + b + ":" + c + "." + d;
    var n := |s|;
    assert n == |a| + 10;
    assert s[..n - 10] == a;
    assert s[n - 9..n - 7] == b by {
      forall i | 0 <= i < 2 ensures s[n - 9 + i] == b[i] {
        assert s[|a| + 1 + i] == b[i];
      }
    }
    assert s[n - 6..n - 4] == c by {
      forall i | 0 <= i < 2 ensures s[n - 6 + i] == c[i] {
        assert s[|a| + 4 + i] == c[i];
      }
    }
    assert s[n - 3..] == d by {
      forall i | 0 <= i < 3 ensures s[n - 3 + i] == d[i] {
        assert s[|a| + 7 + i] == d[i];
      }
    }
    assert s[n - 10] == ':' && s[n - 7] == ':' && s[n - 4] == '.';
  }

  /** The four padded fields have the widths and values the reader expects. */
  lemma PaddedFields(f: TimeFields)
    requires f.minutes < 60 && f.seconds < 60 && f.millis < 1000
    ensures |Pad(f.hours, 2)| >= 2 && |Pad(f.minutes, 2)| == 2 && |Pad(f.seconds, 2)| == 2 && |Pad(f.millis, 3)| == 3
    ensures Value(Pad(f.hours, 2)) == f.hours && Value(Pad(f.minutes, 2)) == f.minutes
    ensures Value(Pad(f.seconds, 2)) == f.seconds && Value(Pad(f.millis, 3)) == f.millis
  {
    NatToStringLength(f.minutes);
    NatToStringLength(f.seconds);
    NatToStringLength(f.millis);
    PadRoundTrip(f.hours, 2);
    PadRoundTrip(f.minutes, 2);
    PadRoundTrip(f.seconds, 2);
    PadRoundTrip(f.millis, 3);
  }

  lemma FormatParses(f: TimeFields)
    requires f.minutes < 60 && f.seconds < 60 && f.millis < 1000
    ensures |Render(f)| >= 12
    ensures ParseTime(Render(f)) == Some(f.hours * 3600000 + f.minutes * 60000 + f.seconds * 1000 + f.millis)
  {
    var a, b, c, d := Pad(f.hours, 2), Pad(f.minutes, 2), Pad(f.seconds, 2), Pad(f.millis, 3);
    PaddedFields(f);
    ParseFields(a, b, c, d);
    assert Render(f) == a + ":" + b + ":" + c + "." + d;
  }

  /** Formatting a finite duration and reading it back gives it again. */
  lemma FormatRoundTrip(ms: nat)
    ensures |Render(Fields(ms))| >= 12 && ParseTime(Render(Fields(ms))) == Some(ms)
  {
    FormatParses(Fields(ms));
  }

  /** Zero formats as "00:00:00.000". */
  lemma FormatZero()
    ensures FormatTime(Millis(0)) == "00:00:00.000"
  {
    assert Fields(0) == TimeFields(0, 0, 0, 0);
    assert NatToString(0) == "0";
    assert Pad(0, 2) == "00";
    assert Pad(0, 3) == "000";
  }
}
