/**
 * BitScribe's `calculate_duration`: the time between two instants, split
 * into hours, minutes and seconds and written `Duration: HH:MM:SS`.
 * Instants are whole microseconds, which is what a `timedelta` holds; the
 * fields are computed on the exact quotient, so `//` and `%` are floor
 * division and modulo, as Python's are.
 */
module Duration {
  import opened Text
  import opened Decimal

  const MicrosPerSecond := 1000000
  const MicrosPerMinute := 60000000
  const MicrosPerHour := 3600000000
  const Prefix := "Duration: "

  datatype Fields = Fields(hours: int, minutes: int, seconds: int)

  /** A multiple of a positive number strictly between its negative and itself is zero. */
  lemma MultipleInRange(d: int, k: int)
    requires d > 0 && -d < d * k < d
    ensures k == 0
  {
  }

  /** Floor division and modulo give the unique quotient and remainder. */
  lemma DivModUnique(n: int, d: int, q: int, r: int)
    requires d > 0 && 0 <= r < d && n == d * q + r
    ensures n / d == q && n % d == r
  {
    var q' := n / d;
    assert d * (q - q') == n % d - r;
    MultipleInRange(d, q - q');
  }

  /**
   * `hours = int(s // 3600)`, `minutes = int((s % 3600) // 60)`,
   * `seconds = int(s % 60)` for `s` the duration in seconds: minutes and
   * seconds are below 60 and the three give back the whole seconds of the
   * duration, rounded down.
   */
  function DurationFields(micros: int): (f: Fields)
    ensures 0 <= f.minutes < 60 && 0 <= f.seconds < 60
    ensures f.hours * 3600 + f.minutes * 60 + f.seconds == micros / MicrosPerSecond
    ensures micros >= 0 ==> f.hours >= 0
  {
    var w := micros / MicrosPerSecond;
    var r := micros % MicrosPerSecond;
    var h := w / 3600;
    var m := (w % 3600) / 60;
    var sec := w % 60;
    assert w % 3600 == 60 * m + sec by {
      DivModUnique(w, 60, 60 * h + m, (w % 3600) % 60);
    }
    assert micros == MicrosPerHour * h + (MicrosPerSecond * (w % 3600) + r);
    DivModUnique(micros, MicrosPerHour, h, MicrosPerSecond * (w % 3600) + r);
    assert MicrosPerSecond * (w % 3600) + r == MicrosPerMinute * m + (MicrosPerSecond * sec + r);
    DivModUnique(MicrosPerSecond * (w % 3600) + r, MicrosPerMinute, m, MicrosPerSecond * sec + r);
    assert micros == MicrosPerMinute * (60 * h + m) + (MicrosPerSecond * sec + r);
    DivModUnique(micros, MicrosPerMinute, 60 * h + m, MicrosPerSecond * sec + r);
    DivModUnique(MicrosPerSecond * sec + r, MicrosPerSecond, sec, r);
    Fields(micros / MicrosPerHour, (micros % MicrosPerHour) / MicrosPerMinute, (micros % MicrosPerMinute) / MicrosPerSecond)
  }

  /** Hours, minutes and seconds with those bounds are the only split of a number of seconds. */
  lemma FieldsUnique(micros: int, f: Fields)
    requires 0 <= f.minutes < 60 && 0 <= f.seconds < 60
    requires f.hours * 3600 + f.minutes * 60 + f.seconds == micros / MicrosPerSecond
    ensures f == DurationFields(micros)
  {
    var w := micros / MicrosPerSecond;
    assert w / 3600 == f.hours && w % 3600 == f.minutes * 60 + f.seconds;
  }

  /** `{n:02}` for any integer: a negative number keeps its sign and is not padded further. */
  function Field(n: int): (r: string)
    ensures |r| >= 2
    ensures n >= 0 ==> r == Pad2(n)
  {
    if n < 0 then "-" + NatToString(-n) else Pad2(n)
  }

  /** `calculate_duration(start_time, stop_time)`. */
  function CalculateDuration(start: int, stop: int): string {
    var f := DurationFields(stop - start);
    Prefix + Join([Field(f.hours), Pad2(f.minutes), Pad2(f.seconds)], ":")
  }

  /**
   * For a duration that is not negative the text reads back: after the
   * prefix it splits at `:` into three digit fields, minutes and seconds of
   * exactly two digits, whose values make up the whole seconds elapsed.
   */
  lemma CalculateDurationReadsBack(start: int, stop: int)
    requires start <= stop
    ensures var text := CalculateDuration(start, stop);
      && StartsWith(text, Prefix)
      && var parts := Split(text[|Prefix|..], ':');
      && |parts| == 3 && AllDigits(parts[0]) && AllDigits(parts[1]) && AllDigits(parts[2])
      && |parts[0]| >= 2 && |parts[1]| == 2 && |parts[2]| == 2
      && DigitsValue(parts[0]) * 3600 + DigitsValue(parts[1]) * 60 + DigitsValue(parts[2])
         == (stop - start) / MicrosPerSecond
  {
    var f := DurationFields(stop - start);
    var fields := [Pad2(f.hours), Pad2(f.minutes), Pad2(f.seconds)];
    Pad2Value(f.hours);
    Pad2Value(f.minutes);
    Pad2Value(f.seconds);
    forall k | 0 <= k < 3 ensures ':' !in fields[k] {
      assert AllDigits(fields[k]);
    }
    JoinSplit(fields, ':');
    var text := CalculateDuration(start, stop);
    assert text == Prefix + Join(fields, ":");
    assert text[|Prefix|..] == Join(fields, ":");
  }

  /** Ninety minutes and a half second are one hour, thirty minutes and no whole second. */
  lemma NinetyMinutes()
    ensures DurationFields(5400500000) == Fields(1, 30, 0)
  {
    FieldsUnique(5400500000, Fields(1, 30, 0));
  }

  /** A clock that went back one and a half seconds gives `-1` hours, 59 minutes and 58 seconds, as floor division does. */
  lemma NegativeDuration()
    ensures DurationFields(-1500000) == Fields(-1, 59, 58)
  {
    FieldsUnique(-1500000, Fields(-1, 59, 58));
  }
}
