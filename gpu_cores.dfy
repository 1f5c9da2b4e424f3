/**
 * `getGpuCoreCount` (system_info.ts): the lines of the macOS display profile are scanned for
 * the first one naming the total number of cores; the text after its first colon is read as
 * a number. The command output is a parameter; `None` is a command that failed.
 */
module GpuCores {
  import opened Wrappers
  import opened Text
  import opened Scan
  import opened Capabilities

  const CoresLabel := "Total Number of Cores"

  /** The index of the first line at or after `from` that names the core count, or -1. */
  function FirstCoresLine(lines: seq<string>, from: nat): (i: int)
    requires from <= |lines|
    decreases |lines| - from
    ensures i == -1 || (from <= i < |lines| && Contains(lines[i], CoresLabel))
    ensures forall k :: from <= k < |lines| && (i == -1 || k < i) ==> !Contains(lines[k], CoresLabel)
  {
    if from == |lines| then -1
    else if Contains(lines[from], CoresLabel) then from
    else FirstCoresLine(lines, from + 1)
  }

  /**
   * The count one line gives: the text after its first colon, trimmed and read as a number,
   * with NaN giving 0; a line without a colon gives 0.
   */
  function LineCores(line: string): (c: int)
    ensures ':' !in line ==> c == 0
  {
    var parts := Split(line, ':');
    if |parts| > 1 then
      match ParseInt(Trim(parts[1]))
      case None => 0
      case Some(c) => c
    else 0
  }

  /** The count the display profile gives: that of its first core-count line, or 0. */
  function CoreCount(lines: seq<string>): (c: int)
    ensures (forall k :: 0 <= k < |lines| ==> !Contains(lines[k], CoresLabel)) ==> c == 0
  {
    var i := FirstCoresLine(lines, 0);
    if i < 0 then 0 else LineCores(lines[i])
  }

  /** The first line naming the core count is the one `CoreCount` reads. */
  lemma FirstCoresLineIs(lines: seq<string>, i: nat)
    requires i < |lines| && Contains(lines[i], CoresLabel)
    requires forall k :: 0 <= k < i ==> !Contains(lines[k], CoresLabel)
    ensures FirstCoresLine(lines, 0) == i
  {
  }

  /** `getGpuCoreCount`: the loop over the lines stops at the first core-count line. */
  method GetGpuCoreCount(platform: Platform, output: Option<string>) returns (cores: int)
    ensures platform != MacOS || output.None? ==> cores == 0
    ensures platform == MacOS && output.Some? ==> cores == CoreCount(Split(output.value, '\n'))
  {
    if platform != MacOS || output.None? {
      return 0;
    }
    var lines := Split(output.value, '\n');
    for i := 0 to |lines|
      invariant forall k :: 0 <= k < i ==> !Contains(lines[k], CoresLabel)
    {
      if Contains(lines[i], CoresLabel) {
        FirstCoresLineIs(lines, i);
        var parts := Split(lines[i], ':');
        if |parts| > 1 {
          var parsed := ParseInt(Trim(parts[1]));
          return if parsed.None? then 0 else parsed.value;
        }
        break;
      }
    }
    return 0;
  }

  /** Lines after the first core-count line change nothing. */
  lemma {:induction false} LaterLinesIgnored(before: seq<string>, line: string, after: seq<string>)
    requires forall k :: 0 <= k < |before| ==> !Contains(before[k], CoresLabel)
    requires Contains(line, CoresLabel)
    ensures CoreCount(before + [line] + after) == LineCores(line)
  {
    var lines := before + [line] + after;
    assert lines[|before|] == line;
    assert forall k :: 0 <= k < |before| ==> lines[k] == before[k];
    FirstCoresLineIs(lines, |before|);
  }

  /** A line `... Cores: N` gives N. */
  lemma CoresLine(head: string, n: nat)
    requires ':' !in head
    ensures LineCores(head + ": " + NatToString(n)) == n
  {
    ColonSpace(head, NatToString(n));
    CountFieldHasNoColon(n);
    CountFieldReads(n);
    CoresField(head, " " + NatToString(n));
  }

  lemma ColonSpace(head: string, d: string)
    ensures head + ": " + d == head + ":" + (" " + d)
  {
    assert ": " == ":" + " ";
  }

  /** A line with one colon gives what its field reads as. */
  lemma CoresField(head: string, field: string)
    requires ':' !in head && ':' !in field && ParseInt(Trim(field)).Some?
    ensures LineCores(head + ":" + field) == ParseInt(Trim(field)).value
  {
    assert head + ":" + field == head + [':'] + field;
    SplitCons(head, field, ':');
    SplitWithoutSeparator(field, ':');
  }

  /** The field ` N` has no colon. */
  lemma CountFieldHasNoColon(n: nat)
    ensures ':' !in " " + NatToString(n)
  {
    var d := NatToString(n);
    assert forall k :: 0 <= k < |d| ==> IsDigit(d[k]);
    assert ':' !in d;
  }

  /** The field ` N` reads as N. */
  lemma CountFieldReads(n: nat)
    ensures ParseInt(Trim(" " + NatToString(n))) == Some(n)
  {
    var d := NatToString(n);
    assert " " + d == [' '] + d;
    assert IsDigit(d[0]) && IsDigit(d[|d| - 1]);
    TrimPadded(d);
    ParseNatToString(n);
  }

  /**
   * Whatever follows the first colon, the line gives what the text up to the next colon reads as,
   * or 0 when that is not a number.
   */
  lemma LineCoresAfterColon(head: string, rest: string)
    requires ':' !in head
    ensures LineCores(head + ":" + rest) ==
            match ParseInt(Trim(Split(rest, ':')[0]))
            case Some(c) => c
            case None => 0
  {
    assert head + ":" + rest == head + [':'] + rest;
    SplitCons(head, rest, ':');
  }

  /** Only the text up to the next colon is read; when it is not a number the line gives 0. */
  lemma CoresNotANumber(head: string, field: string)
    requires ':' !in head && ParseInt(Trim(Split(field, ':')[0])).None?
    ensures LineCores(head + ":" + field) == 0
  {
    assert head + ":" + field == head + [':'] + field;
    SplitCons(head, field, ':');
  }
}
