/**
 * `getUptime` (system_info.ts): on Linux the trimmed output of `uptime -p`; on macOS the boot
 * time read from `sysctl`, subtracted from the clock and broken down into days, hours and
 * minutes. The command output and the clock are parameters; a `None` output is a command
 * that failed.
 */
module Uptime {
  import opened Wrappers
  import opened Text
  import opened Capabilities

  /** `Math.floor(a / b)` for a positive divisor: Euclidean division rounds down then. */
  function FloorDiv(a: int, b: int): int
    requires b > 0
  {
    a / b
  }

  /** JavaScript's `a % b`: the remainder of the division rounded toward zero, with the sign of `a`. */
  function JsRem(a: int, b: int): int
    requires b > 0
  {
    if a >= 0 then a % b else -((-a) % b)
  }

  /** An uptime broken down as the report shows it. */
  datatype Span = Span(days: int, hours: int, minutes: int)

  /** The seconds a span stands for. */
  function Seconds(s: Span): int {
    s.days * 86400 + s.hours * 3600 + s.minutes * 60
  }

  /** Days by `Math.floor`, hours and minutes from JavaScript remainders. */
  function Breakdown(u: int): (s: Span)
    ensures -24 <= s.hours < 24 && -60 <= s.minutes < 60
    ensures u >= 0 <==> s.days >= 0
  {
    Span(FloorDiv(u, 86400), FloorDiv(JsRem(u, 86400), 3600), FloorDiv(JsRem(u, 3600), 60))
  }

  /** For a non-negative uptime the span is in range and accounts for it to the minute. */
  lemma BreakdownBounds(u: int)
    requires u >= 0
    ensures var s := Breakdown(u);
            0 <= s.days && 0 <= s.hours < 24 && 0 <= s.minutes < 60 &&
            Seconds(s) <= u < Seconds(s) + 60
  {
    var s := Breakdown(u);
    DaySplit(u);
    HourSplit(u % 86400);
    RemOfRem(u);
    MinuteSplit(u % 3600);
  }

  lemma DaySplit(u: int)
    requires u >= 0
    ensures u == 86400 * (u / 86400) + u % 86400 && 0 <= u % 86400 < 86400
  {
  }

  lemma HourSplit(r: int)
    requires 0 <= r < 86400
    ensures r == 3600 * (r / 3600) + r % 3600 && 0 <= r / 3600 < 24 && 0 <= r % 3600 < 3600
  {
  }

  lemma MinuteSplit(r: int)
    requires 0 <= r < 3600
    ensures r == 60 * (r / 60) + r % 60 && 0 <= r / 60 < 60 && 0 <= r % 60 < 60
  {
  }

  /** Whole days are whole hours: the remainder by an hour survives taking whole days off. */
  lemma RemOfRem(u: int)
    requires u >= 0
    ensures (u % 86400) % 3600 == u % 3600
  {
    var d := u / 86400;
    var r := u % 86400;
    assert u == 3600 * (24 * d + r / 3600) + r % 3600;
  }

  const NaNSpan := "up NaN days, NaN hours, NaN minutes"

  /** The report line: `up`, then the three figures, never the NaN line. */
  function Format(s: Span): (r: string)
    ensures |r| > 3 && r[..3] == "up "
    ensures IsDigit(r[3]) || r[3] == '-'
    ensures r != NaNSpan
  {
    var d := IntToString(s.days);
    var tail := " days, " + IntToString(s.hours) + " hours, " + IntToString(s.minutes) + " minutes";
    UpFirst(d, tail);
    "up " + (d + tail)
  }

  /** `up ` followed by a figure: the fourth character is the figure's first. */
  lemma UpFirst(d: string, tail: string)
    requires d != [] && (IsDigit(d[0]) || d[0] == '-')
    ensures var r := "up " + (d + tail); |r| > 3 && r[..3] == "up " && r[3] == d[0] && r != NaNSpan
  {
    var r := "up " + (d + tail);
    assert r[3] == d[0];
    assert NaNSpan[3] == 'N';
  }

  /**
   * Reading a report back: split at its spaces it gives `up`, the days, `days,`, the hours,
   * `hours,`, the minutes and `minutes`, and the three figures parse back to the span.
   */
  lemma FormatReadBack(s: Span)
    ensures var w := Split(Format(s), ' ');
            && |w| == 7 && w[0] == "up" && w[2] == "days," && w[4] == "hours," && w[6] == "minutes"
            && ParseInt(w[1]) == Some(s.days)
            && ParseInt(w[3]) == Some(s.hours)
            && ParseInt(w[5]) == Some(s.minutes)
  {
    var d, h, m := IntToString(s.days), IntToString(s.hours), IntToString(s.minutes);
    assert Format(s) == "up " + (d + (" days, " + h + " hours, " + m + " minutes"));
    IntToStringNoSpace(s.days);
    IntToStringNoSpace(s.hours);
    IntToStringNoSpace(s.minutes);
    TemplateSplit(d, h, m);
    var w := Split(Format(s), ' ');
    assert w == ["up", d, "days,", h, "hours,", m, "minutes"];
    assert w[0] == "up" && w[2] == "days," && w[4] == "hours," && w[6] == "minutes";
    assert w[1] == d && w[3] == h && w[5] == m;
    ParseIntToString(s.days);
    ParseIntToString(s.hours);
    ParseIntToString(s.minutes);
  }

  /** The template filled with three space-free figures splits into its seven words. */
  lemma TemplateSplit(d: string, h: string, m: string)
    requires ' ' !in d && ' ' !in h && ' ' !in m
    ensures Split("up " + (d + (" days, " + h + " hours, " + m + " minutes")), ' ')
         == ["up", d, "days,", h, "hours,", m, "minutes"]
  {
    FormatShape(d, h, m);
    TemplateWords();
    SplitWords("up", d, "days,", h, "hours,", m, "minutes");
  }

  /** The template written out word by word, one space after each word but the last. */
  lemma FormatShape(d: string, h: string, m: string)
    ensures "up " + (d + (" days, " + h + " hours, " + m + " minutes"))
         == "up" + [' '] + (d + [' '] + ("days," + [' '] + (h + [' '] + ("hours," + [' '] + (m + [' '] + "minutes")))))
  {
    TemplateWords();
    TemplateRegroup("up", "days,", "hours,", "minutes", d, h, m);
  }

  /** The template's fixed pieces are its words with the spaces around them. */
  lemma TemplateWords()
    ensures "up " == "up" + [' '] && " days, " == [' '] + "days," + [' ']
    ensures " hours, " == [' '] + "hours," + [' '] && " minutes" == [' '] + "minutes"
    ensures ' ' !in "up" && ' ' !in "days," && ' ' !in "hours," && ' ' !in "minutes"
  {
  }

  lemma TemplateRegroup(up: string, days: string, hours: string, minutes: string, d: string, h: string, m: string)
    ensures (up + [' ']) + (d + (([' '] + days + [' ']) + h + ([' '] + hours + [' ']) + m + ([' '] + minutes)))
         == up + [' '] + (d + [' '] + (days + [' '] + (h + [' '] + (hours + [' '] + (m + [' '] + minutes)))))
  {
  }

  /** Seven words, each free of spaces, joined by single spaces split back into those words. */
  lemma SplitWords(a: string, b: string, c: string, d: string, e: string, f: string, g: string)
    requires ' ' !in a && ' ' !in b && ' ' !in c && ' ' !in d && ' ' !in e && ' ' !in f && ' ' !in g
    ensures Split(a + [' '] + (b + [' '] + (c + [' '] + (d + [' '] + (e + [' '] + (f + [' '] + g))))), ' ')
         == [a, b, c, d, e, f, g]
  {
    var t5 := f + [' '] + g;
    var t4 := e + [' '] + t5;
    var t3 := d + [' '] + t4;
    var t2 := c + [' '] + t3;
    var t1 := b + [' '] + t2;
    SplitWithoutSeparator(g, ' ');
    SplitCons(f, g, ' ');
    SplitCons(e, t5, ' ');
    SplitCons(d, t4, ' ');
    SplitCons(c, t3, ' ');
    SplitCons(b, t2, ' ');
    SplitCons(a, t1, ' ');
    SevenWords(a, b, c, d, e, f, g);
  }

  lemma SevenWords(a: string, b: string, c: string, d: string, e: string, f: string, g: string)
    ensures [a] + ([b] + ([c] + ([d] + ([e] + ([f] + [g]))))) == [a, b, c, d, e, f, g]
  {
  }

  /** The span since boot, or `None` when the boot time does not read as a number (NaN). */
  function MacSpan(bootOutput: string, nowMs: int): (r: Option<Span>)
    ensures r.None? <==> ParseInt(bootOutput).None?
  {
    SpanSince(ParseInt(bootOutput), nowMs)
  }

  /** The span from a boot time in seconds, when there is one, to the clock in milliseconds. */
  function SpanSince(boot: Option<int>, nowMs: int): (r: Option<Span>)
    ensures r.None? <==> boot.None?
  {
    match boot
    case None => None
    case Some(b) => Some(Breakdown(FloorDiv(nowMs, 1000) - b))
  }

  /** The macOS branch: a NaN boot time makes every figure NaN. */
  function MacUptime(bootOutput: string, nowMs: int): (r: string)
    ensures r == NaNSpan <==> ParseInt(bootOutput).None?
    ensures ParseInt(bootOutput).Some? ==>
              r == Format(Breakdown(FloorDiv(nowMs, 1000) - ParseInt(bootOutput).value))
  {
    match MacSpan(bootOutput, nowMs)
    case None => NaNSpan
    case Some(s) => Format(s)
  }

  /** `getUptime`, with the output of the one command it runs. */
  function GetUptime(platform: Platform, output: Option<string>, nowMs: int): (r: string)
    ensures output.None? || platform == OtherPlatform ==> r == "Unknown"
    ensures platform == Linux && output.Some? ==> r == Trim(output.value)
    ensures platform == MacOS && output.Some? ==> r == MacUptime(output.value, nowMs)
  {
    match platform
    case Linux => if output.None? then "Unknown" else Trim(output.value)
    case MacOS => if output.None? then "Unknown" else MacUptime(output.value, nowMs)
    case OtherPlatform => "Unknown"
  }

  /**
   * A boot time in the past reports the whole days, hours and minutes since then: the span
   * accounts for the elapsed seconds to the minute, and `getUptime` reports that span.
   */
  lemma MacUptimeReport(boot: nat, nowMs: int)
    requires boot * 1000 <= nowMs
    ensures MacSpan(NatToString(boot), nowMs).Some?
    ensures var s := MacSpan(NatToString(boot), nowMs).value;
            && 0 <= s.hours < 24 && 0 <= s.minutes < 60
            && Seconds(s) <= FloorDiv(nowMs, 1000) - boot < Seconds(s) + 60
            && GetUptime(MacOS, Some(NatToString(boot)), nowMs) == Format(s)
  {
    var u := FloorDiv(nowMs, 1000) - boot;
    ElapsedNonNegative(boot, nowMs);
    MacSpanOfNat(boot, nowMs);
    ParseNatToString(boot);
    SpanBounds(MacSpan(NatToString(boot), nowMs).value, u);
  }

  /**
   * The macOS report read back as text: its three figures are whole days, hours below 24 and
   * minutes below 60 that account for the seconds since boot to the minute.
   */
  lemma MacReportFigures(boot: nat, nowMs: int)
    requires boot * 1000 <= nowMs
    ensures var w := Split(GetUptime(MacOS, Some(NatToString(boot)), nowMs), ' ');
            && |w| == 7 && w[0] == "up" && w[2] == "days," && w[4] == "hours," && w[6] == "minutes"
            && ParseInt(w[1]).Some? && ParseInt(w[3]).Some? && ParseInt(w[5]).Some?
            && var days, hours, minutes := ParseInt(w[1]).value, ParseInt(w[3]).value, ParseInt(w[5]).value;
            && 0 <= days && 0 <= hours < 24 && 0 <= minutes < 60
            && days * 86400 + hours * 3600 + minutes * 60 <= FloorDiv(nowMs, 1000) - boot
            && FloorDiv(nowMs, 1000) - boot < days * 86400 + hours * 3600 + minutes * 60 + 60
  {
    MacUptimeReport(boot, nowMs);
    var s := MacSpan(NatToString(boot), nowMs).value;
    FormatReadBack(s);
    assert s.days >= 0 by { ElapsedNonNegative(boot, nowMs); MacSpanOfNat(boot, nowMs); }
  }

  lemma SpanBounds(s: Span, u: int)
    requires u >= 0 && s == Breakdown(u)
    ensures 0 <= s.hours < 24 && 0 <= s.minutes < 60 && Seconds(s) <= u < Seconds(s) + 60
  {
    BreakdownBounds(u);
  }

  lemma ElapsedNonNegative(boot: nat, nowMs: int)
    requires boot * 1000 <= nowMs
    ensures FloorDiv(nowMs, 1000) >= boot
  {
  }

  lemma MacSpanOfNat(boot: nat, nowMs: int)
    ensures MacSpan(NatToString(boot), nowMs) == Some(Breakdown(FloorDiv(nowMs, 1000) - boot))
  {
    ParseNatToString(boot);
    MacSpanOf(NatToString(boot), boot, nowMs);
  }

  /** A boot time that reads as a number is subtracted from the clock. */
  lemma MacSpanOf(bootOutput: string, boot: int, nowMs: int)
    requires ParseInt(bootOutput) == Some(boot)
    ensures MacSpan(bootOutput, nowMs) == Some(Breakdown(FloorDiv(nowMs, 1000) - boot))
  {
    SpanSinceBoot(ParseInt(bootOutput), boot, nowMs);
  }

  /** A known boot time is subtracted from the clock, floored to whole seconds. */
  lemma SpanSinceBoot(o: Option<int>, boot: int, nowMs: int)
    requires o == Some(boot)
    ensures SpanSince(o, nowMs) == Some(Breakdown(FloorDiv(nowMs, 1000) - boot))
  {
  }
}
