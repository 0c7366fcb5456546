/** SRT timing lines: `convert_timestamp` and `convert_timespan`
    (videogrep/videogrep.py:189-206). Times are whole milliseconds. */
module Timestamps {
  import opened Outcomes
  import opened Strings
  import opened Numerals

  /** The `ValueError` the two conversions raise on a malformed line. */
  datatype TimeError = MalformedTimestamp(stamp: string) | MalformedTimespan(span: string)


  /** The four fields of a timing stamp, as `int()` reads them. */
  datatype Clock = Clock(hours: int, minutes: int, seconds: int, millis: int)

  function ClockMillis(c: Clock): int {
    c.hours * 3600000 + c.minutes * 60000 + c.seconds * 1000 + c.millis
  }

  /** `int()` applied to the hours, minutes, seconds and milliseconds fields;
      a field `int()` rejects rejects the stamp. */
  function ParseFields(h: string, m: string, s: string, ms: string): Option<Clock> {
    match (ParseInt(h), ParseInt(m), ParseInt(s), ParseInt(ms))
    case (Some(hv), Some(mv), Some(sv), Some(msv)) => Some(Clock(hv, mv, sv, msv))
    case _ => None
  }

  /** The stripped stamp split on ',' into the clock part and the
      milliseconds, and the clock part split on ':' into hours, minutes and
      seconds; unpacking into the wrong number of parts rejects it. */
  function ParseClock(t: string): Option<Clock> {
    var halves := Split(t, ",");
    if |halves| != 2 then None
    else
      var fields := Split(halves[0], ":");
      if |fields| != 3 then None
      else ParseFields(fields[0], fields[1], fields[2], halves[1])
  }

  /** `convert_timestamp`: strip the stamp, take its fields apart and add
      them up. `float(millis) / 1000` is read as a whole number of
      milliseconds. A stamp that is accepted has exactly one ',' and
      exactly two ':'. */
  function ConvertTimestamp(stamp: string): (r: Result<int, TimeError>)
    ensures r.Ok? ==> Count(Strip(stamp), ',') == 1 && Count(Strip(stamp), ':') == 2
  {
    match ParseClock(Strip(stamp))
    case None => Err(MalformedTimestamp(stamp))
    case Some(c) =>
      assert Count(Strip(stamp), ',') == 1 && Count(Strip(stamp), ':') == 2 by {
        ClockCounts(Strip(stamp));
      }
      Ok(ClockMillis(c))
  }

  lemma ClockCounts(t: string)
    requires ParseClock(t).Some?
    ensures Count(t, ',') == 1 && Count(t, ':') == 2
  {
    var halves := Split(t, ",");
    var fields := Split(halves[0], ":");
    assert ParseInt(halves[1]).Some?;
    ParseIntNoColon(halves[1]);
    SplitTwo(t, halves);
    SplitCount(halves[0], ':');
    CountAround(halves[0], halves[1], ',', ':');
  }

  lemma SplitTwo(t: string, halves: seq<string>)
    requires halves == Split(t, ",") && |halves| == 2
    ensures t == halves[0] + "," + halves[1]
    ensures Count(t, ',') == 1
  {
    SplitCount(t, ',');
  }

  lemma ParseIntNoColon(s: string)
    requires ParseInt(s).Some?
    ensures Count(s, ':') == 0
  {
    ParseIntChars(s);
    CountAbsent(s, ':');
  }

  lemma CountAround(a: string, b: string, c: char, d: char)
    requires c != d
    ensures Count(a + [c] + b, d) == Count(a, d) + Count(b, d)
  {
    CountConcat(a + [c], b, d);
    CountConcat(a, [c], d);
    assert [c][1..] == [];
  }

  /** The text `H:M:S,mmm` of a stamp with the given fields. */
  function StampText(h: string, m: string, s: string, ms: string): string {
    h + ":" + m + ":" + s + "," + ms
  }

  /** A stamp of decimal fields, whatever whitespace surrounds it, is
      accepted as `((H * 60 + M) * 60 + S) * 1000 + mmm` milliseconds. */
  lemma ConvertTimestampDigits(w1: string, h: string, m: string, s: string, ms: string, w2: string)
    requires AllSpace(w1) && AllSpace(w2)
    requires h != [] && AllDigits(h) && m != [] && AllDigits(m)
    requires s != [] && AllDigits(s) && ms != [] && AllDigits(ms)
    ensures ConvertTimestamp(w1 + StampText(h, m, s, ms) + w2).Ok?
    ensures ConvertTimestamp(w1 + StampText(h, m, s, ms) + w2).value
         == DigitsValue(h) * 3600000 + DigitsValue(m) * 60000 + DigitsValue(s) * 1000 + DigitsValue(ms)
  {
    var c := Clock(DigitsValue(h), DigitsValue(m), DigitsValue(s), DigitsValue(ms));
    var core := StampText(h, m, s, ms);
    assert Strip(w1 + core + w2) == core by {
      StripStamp(w1, h + ":" + m + ":" + s, ms, w2);
    }
    assert ParseClock(core) == Some(c) by {
      ParseClockDigits(h, m, s, ms, core, c);
    }
    ConvertClock(w1 + StampText(h, m, s, ms) + w2, core, DigitsValue(h), DigitsValue(m), DigitsValue(s), DigitsValue(ms));
  }

  lemma ConvertClock(stamp: string, core: string, hv: int, mv: int, sv: int, msv: int)
    requires Strip(stamp) == core && ParseClock(core) == Some(Clock(hv, mv, sv, msv))
    ensures ConvertTimestamp(stamp).Ok?
    ensures ConvertTimestamp(stamp).value == hv * 3600000 + mv * 60000 + sv * 1000 + msv
  {
    var c := Clock(hv, mv, sv, msv);
    assert ClockMillis(c) == hv * 3600000 + mv * 60000 + sv * 1000 + msv;
    ConvertClockOf(stamp, core, c);
  }

  lemma ConvertClockOf(stamp: string, core: string, c: Clock)
    requires Strip(stamp) == core && ParseClock(core) == Some(c)
    ensures ConvertTimestamp(stamp) == Ok(ClockMillis(c))
  {
  }

  lemma ParseClockDigits(h: string, m: string, s: string, ms: string, core: string, c: Clock)
    requires h != [] && AllDigits(h) && m != [] && AllDigits(m)
    requires s != [] && AllDigits(s) && ms != [] && AllDigits(ms)
    requires core == StampText(h, m, s, ms)
    requires c == Clock(DigitsValue(h), DigitsValue(m), DigitsValue(s), DigitsValue(ms))
    ensures ParseClock(core) == Some(c)
  {
    var chunk := h + ":" + m + ":" + s;
    assert Split(core, ",") == [chunk, ms] by {
      ClockHasNoComma(h, m, s);
      SplitMillis(chunk, ms);
    }
    assert Split(chunk, ":") == [h, m, s] by {
      SplitClock(h, m, s);
    }
    assert ParseFields(h, m, s, ms) == Some(c) by {
      ParseFieldsDigits(h, m, s, ms);
    }
    ParseClockOf(core, chunk, h, m, s, ms, c);
  }

  lemma ParseClockOf(core: string, chunk: string, h: string, m: string, s: string, ms: string, c: Clock)
    requires Split(core, ",") == [chunk, ms] && Split(chunk, ":") == [h, m, s]
    requires ParseFields(h, m, s, ms) == Some(c)
    ensures ParseClock(core) == Some(c)
  {
  }

  lemma ParseFieldsDigits(h: string, m: string, s: string, ms: string)
    requires h != [] && AllDigits(h) && m != [] && AllDigits(m)
    requires s != [] && AllDigits(s) && ms != [] && AllDigits(ms)
    ensures ParseFields(h, m, s, ms) == Some(Clock(DigitsValue(h), DigitsValue(m), DigitsValue(s), DigitsValue(ms)))
  {
    ParseNumeral(h);
    ParseNumeral(m);
    ParseNumeral(s);
    ParseNumeral(ms);
  }

  lemma StripStamp(w1: string, chunk: string, ms: string, w2: string)
    requires AllSpace(w1) && AllSpace(w2)
    requires chunk != [] && IsDigit(chunk[0]) && ms != [] && AllDigits(ms)
    ensures Strip(w1 + (chunk + "," + ms) + w2) == chunk + "," + ms
  {
    var core := chunk + "," + ms;
    assert core[0] == chunk[0];
    assert core[|core| - 1] == ms[|ms| - 1];
    StripPadded(w1, core, w2);
  }

  lemma ClockHasNoComma(h: string, m: string, s: string)
    requires AllDigits(h) && AllDigits(m) && AllDigits(s)
    ensures forall i :: 0 <= i < |h + ":" + m + ":" + s| ==> (h + ":" + m + ":" + s)[i] != ','
  {
    var chunk := h + ":" + m + ":" + s;
    forall i | 0 <= i < |chunk| ensures chunk[i] != ',' {
      if i < |h| {
        assert chunk[i] == h[i];
      } else if i == |h| {
      } else if i < |h| + 1 + |m| {
        assert chunk[i] == m[i - |h| - 1];
      } else if i == |h| + 1 + |m| {
      } else {
        assert chunk[i] == s[i - |h| - |m| - 2];
      }
    }
  }

  lemma SplitMillis(chunk: string, ms: string)
    requires forall i :: 0 <= i < |chunk| ==> chunk[i] != ','
    requires AllDigits(ms)
    ensures Split(chunk + "," + ms, ",") == [chunk, ms]
  {
    SplitAfterHead(chunk, ",", ms);
    NotContainsHead(ms, ",");
  }

  lemma SplitClock(h: string, m: string, s: string)
    requires AllDigits(h) && AllDigits(m) && AllDigits(s)
    ensures Split(h + ":" + m + ":" + s, ":") == [h, m, s]
  {
    assert h + ":" + m + ":" + s == h + ":" + (m + ":" + s);
    SplitAfterHead(h, ":", m + ":" + s);
    SplitAfterHead(m, ":", s);
    NotContainsHead(s, ":");
  }

  /** A field of `width` zero-padded decimal digits. */
  function Field(n: nat, width: nat): string {
    ZFill(Decimal(n), width)
  }

  /** The canonical SRT rendering `HH:MM:SS,mmm` of a non-negative time. */
  function FormatTimestamp(t: nat): string {
    var seconds := t / 1000;
    var minutes := seconds / 60;
    StampText(Field(minutes / 60, 2), Field(minutes % 60, 2), Field(seconds % 60, 2), Field(t % 1000, 3))
  }

  lemma FieldDigits(n: nat, width: nat)
    ensures Field(n, width) != [] && AllDigits(Field(n, width)) && DigitsValue(Field(n, width)) == n
  {
    ZFillDecimal(n, width);
  }

  /** `convert_timestamp` reads back every rendered stamp, whatever
      whitespace surrounds it. */
  lemma ConvertFormatted(w1: string, t: nat, w2: string)
    requires AllSpace(w1) && AllSpace(w2)
    ensures ConvertTimestamp(w1 + FormatTimestamp(t) + w2).Ok?
    ensures ConvertTimestamp(w1 + FormatTimestamp(t) + w2).value == t
  {
    var hv, mv, sv, msv := t / 1000 / 60 / 60, t / 1000 / 60 % 60, t / 1000 % 60, t % 1000;
    var h, m, s, ms := Field(hv, 2), Field(mv, 2), Field(sv, 2), Field(msv, 3);
    assert ConvertTimestamp(w1 + FormatTimestamp(t) + w2).Ok?
        && ConvertTimestamp(w1 + FormatTimestamp(t) + w2).value == hv * 3600000 + mv * 60000 + sv * 1000 + msv by {
      FieldDigits(hv, 2);
      FieldDigits(mv, 2);
      FieldDigits(sv, 2);
      FieldDigits(msv, 3);
      ConvertTimestampDigits(w1, h, m, s, ms, w2);
    }
    ClockArithmetic(t, hv, mv, sv, msv);
  }

  /** Hours, minutes, seconds and milliseconds of `t` add up to `t`. */
  lemma ClockArithmetic(t: nat, hv: int, mv: int, sv: int, msv: int)
    requires hv == t / 1000 / 60 / 60 && mv == t / 1000 / 60 % 60
    requires sv == t / 1000 % 60 && msv == t % 1000
    ensures hv * 3600000 + mv * 60000 + sv * 1000 + msv == t
  {
    var seconds := t / 1000;
    var minutes := seconds / 60;
    assert minutes == hv * 60 + mv;
    assert seconds == minutes * 60 + sv;
    assert t == seconds * 1000 + msv;
  }

  /** `convert_timespan`: split the line on "-->" into exactly two stamps and
      convert the start first, then the end. Only a line that contains
      "-->" can be accepted. */
  function ConvertTimespan(span: string): (r: Result<(int, int), TimeError>)
    ensures r.Ok? ==> Contains(span, "-->")
  {
    var halves := Split(span, "-->");
    if |halves| != 2 then Err(MalformedTimespan(span))
    else
      match (ConvertTimestamp(halves[0]), ConvertTimestamp(halves[1]))
      case (Ok(a), Ok(b)) => Ok((a, b))
      case (Err(e), _) => Err(e)
      case (_, Err(e)) => Err(e)
  }

  /** No "-->" starts inside a start stamp that holds none: one that began
      in its last two characters would need a '>' where the arrow's dashes
      are. */
  lemma ArrowFirstAfter(a: string, b: string)
    requires !Contains(a, "-->")
    ensures forall j :: 0 <= j < |a| ==> !OccursAt(a + "-->" + b, "-->", j)
  {
    var s := a + "-->" + b;
    forall j | 0 <= j < |a|
      ensures !OccursAt(s, "-->", j)
    {
      if j + 3 <= |a| {
        assert !OccursAt(a, "-->", j);
        assert s[j..j + 3] == a[j..j + 3];
      } else {
        assert s[j + 2] == '-';
        assert s[j..j + 3][2] == s[j + 2];
      }
    }
  }

  /** A timing line made of a start holding no "-->" and an end holding no
      "-->" converts to the pair of its two stamps' conversions. */
  lemma ConvertTimespanParts(a: string, b: string)
    requires !Contains(a, "-->")
    requires !Contains(b, "-->")
    ensures ConvertTimespan(a + "-->" + b).Ok? <==> ConvertTimestamp(a).Ok? && ConvertTimestamp(b).Ok?
    ensures ConvertTimespan(a + "-->" + b).Ok? ==>
              ConvertTimespan(a + "-->" + b).value == (ConvertTimestamp(a).value, ConvertTimestamp(b).value)
    ensures ConvertTimestamp(a).Err? ==> ConvertTimespan(a + "-->" + b).error == ConvertTimestamp(a).error
    ensures ConvertTimestamp(a).Ok? && ConvertTimestamp(b).Err? ==>
              ConvertTimespan(a + "-->" + b).error == ConvertTimestamp(b).error
  {
    ArrowFirstAfter(a, b);
    SplitAtFirst(a, "-->", b);
    SplitWhole(b, "-->");
  }

  /** The canonical SRT rendering `start --> end` of a cue's time range. */
  function FormatTimespan(start: nat, end: nat): string {
    FormatTimestamp(start) + " --> " + FormatTimestamp(end)
  }

  lemma StampHasNoDash(h: string, m: string, s: string, ms: string)
    requires AllDigits(h) && AllDigits(m) && AllDigits(s) && AllDigits(ms)
    ensures forall i :: 0 <= i < |StampText(h, m, s, ms)| ==> StampText(h, m, s, ms)[i] != '-'
  {
    var f := StampText(h, m, s, ms);
    forall i | 0 <= i < |f| ensures f[i] != '-' {
      if i < |h| {
        assert f[i] == h[i];
      } else if i == |h| {
      } else if i < |h| + 1 + |m| {
        assert f[i] == m[i - |h| - 1];
      } else if i == |h| + 1 + |m| {
      } else if i < |h| + |m| + 2 + |s| {
        assert f[i] == s[i - |h| - |m| - 2];
      } else if i == |h| + |m| + 2 + |s| {
      } else {
        assert f[i] == ms[i - |h| - |m| - |s| - 3];
      }
    }
  }

  lemma FormattedHasNoDash(t: nat)
    ensures forall i :: 0 <= i < |FormatTimestamp(t)| ==> FormatTimestamp(t)[i] != '-'
  {
    var hv, mv, sv, msv := t / 1000 / 60 / 60, t / 1000 / 60 % 60, t / 1000 % 60, t % 1000;
    FieldDigits(hv, 2);
    FieldDigits(mv, 2);
    FieldDigits(sv, 2);
    FieldDigits(msv, 3);
    StampHasNoDash(Field(hv, 2), Field(mv, 2), Field(sv, 2), Field(msv, 3));
  }

  /** `convert_timespan` inverts rendering a cue's time range as
      `start --> end`. */
  lemma ConvertFormattedSpan(start: nat, end: nat)
    ensures ConvertTimespan(FormatTimespan(start, end)).Ok?
    ensures ConvertTimespan(FormatTimespan(start, end)).value == (start, end)
  {
    var x, y := FormatTimestamp(start), FormatTimestamp(end);
    SpanText(x, y);
    ConvertFormatted("", start, " ");
    ConvertFormatted(" ", end, "");
    FormattedHasNoDash(start);
    FormattedHasNoDash(end);
    PaddedNoDash(x, y);
    NotContainsHead(x + " ", "-->");
    NotContainsHead(" " + y, "-->");
    ConvertTimespanParts(x + " ", " " + y);
  }

  lemma SpanText(x: string, y: string)
    ensures "" + x + " " == x + " " && " " + y + "" == " " + y
    ensures x + " --> " + y == (x + " ") + "-->" + (" " + y)
  {
  }

  lemma PaddedNoDash(x: string, y: string)
    requires forall i :: 0 <= i < |x| ==> x[i] != '-'
    requires forall i :: 0 <= i < |y| ==> y[i] != '-'
    ensures forall i :: 0 <= i < |x + " "| ==> (x + " ")[i] != '-'
    ensures forall i :: 0 <= i < |" " + y| ==> (" " + y)[i] != '-'
  {
    var a, b := x + " ", " " + y;
    forall i | 0 <= i < |a| ensures a[i] != '-' {
      if i < |x| {
        assert a[i] == x[i];
      }
    }
    forall i | 0 <= i < |b| ensures b[i] != '-' {
      if i > 0 {
        assert b[i] == y[i - 1];
      }
    }
  }
}
