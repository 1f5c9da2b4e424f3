/**
 * The `vm_stat` branch of `getMemoryUsage` and `getUsedMemory` (system_info.ts): the page size
 * is read from the banner, each line `Pages <kind>: <count>` of a known kind is recorded in a
 * dictionary (a later line overwriting an earlier one), and the used memory is a sum of
 * recorded counts times the page size. The kinds the line pattern knows are a parameter, so
 * that the pattern as written and the corrected one share one model.
 */
module VmStat {
  import opened Wrappers
  import opened Text
  import opened Scan

  /** The page size assumed when the banner does not state one: 16 KiB. */
  const DefaultPageSize := 16384

  const PageSizeLabel := "page size of "

  /** `p` is the leftmost match of `page size of N bytes`. */
  predicate FirstPageSize(s: string, p: int) {
    NumberAt(s, PageSizeLabel, " bytes", p) && forall k :: 0 <= k < p ==> !NumberAt(s, PageSizeLabel, " bytes", k)
  }

  /** The page size: the number in the leftmost `page size of N bytes`, else the default. */
  function PageSize(output: string): (n: nat)
    ensures (forall p :: !NumberAt(output, PageSizeLabel, " bytes", p)) ==> n == DefaultPageSize
    ensures (exists p :: NumberAt(output, PageSizeLabel, " bytes", p)) ==>
              exists p :: FirstPageSize(output, p) && n == NumberAfter(output, PageSizeLabel, p)
  {
    var p := FindNumber(output, PageSizeLabel, " bytes", 0);
    if p < 0 then DefaultPageSize
    else
      assert FirstPageSize(output, p);
      NumberAfter(output, PageSizeLabel, p)
  }

  /**
   * An output in which `page size of ` first occurs as `page size of N bytes` has page size N,
   * whatever comes before it.
   */
  lemma PageSizeAfter(lead: string, n: nat, rest: string)
    requires var s := lead + PageSizeLabel + NatToString(n) + " bytes" + rest;
             forall k :: 0 <= k < |lead| ==> !OccursAt(s, PageSizeLabel, k)
    ensures PageSize(lead + PageSizeLabel + NatToString(n) + " bytes" + rest) == n
  {
    var s := lead + PageSizeLabel + NatToString(n) + " bytes" + rest;
    NumberLine(lead, PageSizeLabel, n, " bytes", rest);
    assert FindNumber(s, PageSizeLabel, " bytes", 0) == |lead|;
  }

  /** The opening of the banner `vm_stat` prints before the page size. */
  const MachBanner := "Mach Virtual Memory Statistics: ("

  /** The banner `Mach Virtual Memory Statistics: (page size of N bytes)` states the page size N. */
  lemma PageSizeBanner(n: nat, rest: string)
    ensures PageSize(MachBanner + PageSizeLabel + NatToString(n) + " bytes" + rest) == n
  {
    var t := PageSizeLabel + NatToString(n) + " bytes" + rest;
    assert 'p' !in MachBanner;
    StartAbsent(MachBanner, t, PageSizeLabel);
    assert MachBanner + t == MachBanner + PageSizeLabel + NatToString(n) + " bytes" + rest;
    PageSizeAfter(MachBanner, n, rest);
  }

  /** The kinds of the line pattern as written: `free|active|inactive|speculative|throttled|wired down|compressor`. */
  const AsWrittenKinds: seq<string> :=
    ["free", "active", "inactive", "speculative", "throttled", "wired down", "compressor"]

  /** The kinds with the compressor line `Pages occupied by compressor` added. */
  const CorrectedKinds: seq<string> := AsWrittenKinds + ["occupied by compressor"]

  /**
   * `/Pages\s+kind:\s+(\d+)/` can match at `p`: `Pages`, white space, the kind and a colon,
   * white space, and a digit. The greedy `\s+` runs cannot give anything back, since neither
   * a kind nor a digit starts with white space.
   */
  predicate KindAt(line: string, kind: string, p: int) {
    && OccursAt(line, "Pages", p)
    && var w := SpaceRun(line, p + 5);
    && w > 0
    && OccursAt(line, kind + ":", p + 5 + w)
    && var q := p + 5 + w + |kind| + 1;
    && SpaceRun(line, q) > 0
    && DigitRun(line, q + SpaceRun(line, q)) > 0
  }

  /** The count a match of `kind` at `p` captures. */
  function CountAt(line: string, kind: string, p: nat): nat
    requires KindAt(line, kind, p)
  {
    CountFrom(line, kind, p)
  }

  /** Where a match has room for it: the digits after the second white-space run, read as a number. */
  predicate CountFits(line: string, kind: string, p: nat) {
    p + 5 <= |line| && p + 5 + SpaceRun(line, p + 5) + |kind| + 1 <= |line|
  }

  function CountFrom(line: string, kind: string, p: nat): nat
    requires CountFits(line, kind, p)
  {
    var q := p + 5 + SpaceRun(line, p + 5) + |kind| + 1;
    DigitsFrom(line, q + SpaceRun(line, q))
  }

  /** The number `\d+` captures at `start` (0 when no digit is there). */
  function DigitsFrom(line: string, start: nat): nat
    requires start <= |line|
  {
    DigitsValue(line[start..start + DigitRun(line, start)])
  }

  /** The alternation tries the kinds in order: the first index at or after `j` that matches at `p`, or -1. */
  function FirstKind(line: string, kinds: seq<string>, p: int, j: nat): (r: int)
    requires j <= |kinds|
    decreases |kinds| - j
    ensures r == -1 || (j <= r < |kinds| && KindAt(line, kinds[r], p))
    ensures forall i :: j <= i < |kinds| && (r == -1 || i < r) ==> !KindAt(line, kinds[i], p)
  {
    if j == |kinds| then -1
    else if KindAt(line, kinds[j], p) then j
    else FirstKind(line, kinds, p, j + 1)
  }

  /** The leftmost position at or after `from` where some kind matches, or -1. */
  function FindPages(line: string, kinds: seq<string>, from: nat): (p: int)
    decreases |line| - from
    ensures p == -1 || (from <= p && FirstKind(line, kinds, p, 0) >= 0)
    ensures forall k :: from <= k && (p == -1 || k < p) ==> FirstKind(line, kinds, k, 0) == -1
  {
    if from + 5 > |line| then
      assert forall k :: from <= k ==> !OccursAt(line, "Pages", k);
      -1
    else if FirstKind(line, kinds, from, 0) >= 0 then from
    else FindPages(line, kinds, from + 1)
  }

  /** `line.match(...)`: the kind and the count of the leftmost match, or `None`. */
  function LineMatch(line: string, kinds: seq<string>): (r: Option<(string, nat)>)
    ensures r.Some? ==> r.value.0 in kinds
    ensures r.None? <==> forall p, i :: 0 <= i < |kinds| ==> !KindAt(line, kinds[i], p)
  {
    var p := FindPages(line, kinds, 0);
    if p < 0 then
      NoKindAnywhere(line, kinds);
      None
    else
      var j := FirstKind(line, kinds, p, 0);
      Some((kinds[j], CountAt(line, kinds[j], p)))
  }

  lemma NoKindAnywhere(line: string, kinds: seq<string>)
    requires FindPages(line, kinds, 0) == -1
    ensures forall p, i :: 0 <= i < |kinds| ==> !KindAt(line, kinds[i], p)
  {
    forall p, i | 0 <= i < |kinds|
      ensures !KindAt(line, kinds[i], p)
    {
      if p >= 0 {
        var r := FirstKind(line, kinds, p, 0);
      }
    }
  }

  /** The line sets the count of `kind`. */
  predicate SetsKind(line: string, kinds: seq<string>, kind: string) {
    LineMatch(line, kinds).Some? && LineMatch(line, kinds).value.0 == kind
  }

  /** The dictionary the `forEach` leaves: each matching line, in order, sets its kind's count. */
  function Tally(lines: seq<string>, kinds: seq<string>): map<string, nat> {
    if lines == [] then map[]
    else
      var pages := Tally(lines[..|lines| - 1], kinds);
      match LineMatch(lines[|lines| - 1], kinds)
      case Some((kind, count)) => pages[kind := count]
      case None => pages
  }

  /** The `forEach` over the lines of the output, writing into the `pages` dictionary. */
  method ParsePages(output: string, kinds: seq<string>) returns (pages: map<string, nat>)
    ensures pages == Tally(Split(output, '\n'), kinds)
  {
    var lines := Split(output, '\n');
    pages := map[];
    for i := 0 to |lines|
      invariant pages == Tally(lines[..i], kinds)
    {
      assert lines[..i + 1][..i] == lines[..i];
      match LineMatch(lines[i], kinds) {
        case Some((kind, count)) =>
          pages := pages[kind := count];
        case None =>
      }
    }
    assert lines[..|lines|] == lines;
  }

  /** Only the kinds of the pattern are ever recorded. */
  lemma {:induction false} TallyKinds(lines: seq<string>, kinds: seq<string>)
    ensures forall k :: k in Tally(lines, kinds) ==> k in kinds
  {
    if lines != [] {
      TallyKinds(lines[..|lines| - 1], kinds);
    }
  }

  /** A kind is recorded exactly when some line sets it. */
  lemma {:induction false} TallyHasKind(lines: seq<string>, kinds: seq<string>, kind: string)
    ensures kind in Tally(lines, kinds) <==> exists i :: 0 <= i < |lines| && SetsKind(lines[i], kinds, kind)
  {
    if lines != [] {
      var n := |lines| - 1;
      var init := lines[..n];
      TallyHasKind(init, kinds, kind);
      if SetsKind(lines[n], kinds, kind) {
        assert kind in Tally(lines, kinds);
      } else {
        TallySkips(lines, kinds, kind);
        if kind in Tally(init, kinds) {
          var i :| 0 <= i < |init| && SetsKind(init[i], kinds, kind);
          SetterInInit(lines, kinds, kind, i);
        }
        if exists i :: 0 <= i < |lines| && SetsKind(lines[i], kinds, kind) {
          var i :| 0 <= i < |lines| && SetsKind(lines[i], kinds, kind);
          SetterDiffers(lines[i], lines[n], kinds, kind);
          SetterInInit(lines, kinds, kind, i);
        }
      }
    }
  }

  /** A last line that does not set the kind leaves its presence as it was. */
  lemma TallySkips(lines: seq<string>, kinds: seq<string>, kind: string)
    requires lines != [] && !SetsKind(lines[|lines| - 1], kinds, kind)
    ensures kind in Tally(lines, kinds) <==> kind in Tally(lines[..|lines| - 1], kinds)
  {
  }

  /** The lines before the last are the lines of the prefix. */
  lemma SetterInInit(lines: seq<string>, kinds: seq<string>, kind: string, i: nat)
    requires i < |lines| - 1
    ensures SetsKind(lines[..|lines| - 1][i], kinds, kind) <==> SetsKind(lines[i], kinds, kind)
  {
    assert lines[..|lines| - 1][i] == lines[i];
  }

  /** A line that sets the kind differs from one that does not. */
  lemma SetterDiffers(line: string, other: string, kinds: seq<string>, kind: string)
    requires SetsKind(line, kinds, kind) && !SetsKind(other, kinds, kind)
    ensures line != other
  {
  }

  /** Later lines overwrite earlier ones: the count of a kind is that of the last line setting it. */
  lemma {:induction false} TallyLastWins(lines: seq<string>, kinds: seq<string>, kind: string, i: nat)
    requires i < |lines| && SetsKind(lines[i], kinds, kind)
    requires forall i2 :: i < i2 < |lines| ==> !SetsKind(lines[i2], kinds, kind)
    ensures kind in Tally(lines, kinds)
    ensures Tally(lines, kinds)[kind] == LineMatch(lines[i], kinds).value.1
  {
    var init := lines[..|lines| - 1];
    if i < |lines| - 1 {
      assert forall i2 :: 0 <= i2 < |init| ==> init[i2] == lines[i2];
      TallyLastWins(init, kinds, kind, i);
    }
  }

  /** `a * b` for counts. */
  function Times(a: nat, b: nat): nat {
    a * b
  }

  /** `pages[kind] || 0`. */
  function Count(pages: map<string, nat>, kind: string): nat {
    if kind in pages then pages[kind] else 0
  }

  /** The dictionary of page counts the output yields. */
  function Pages(output: string, kinds: seq<string>): map<string, nat> {
    Tally(Split(output, '\n'), kinds)
  }

  /** The kinds the used-memory sum reads. */
  const UsedKinds: seq<string> :=
    ["active", "wired down", "occupied by compressor", "File-backed", "Anonymous", "speculative", "throttled"]

  /** The pages in use: active, wired, compressor, file-backed, anonymous, speculative and throttled. */
  function UsedPages(pages: map<string, nat>): (r: nat)
    ensures forall k :: k in UsedKinds ==> Count(pages, k) <= r
    ensures r == 0 <==> forall k :: k in UsedKinds ==> Count(pages, k) == 0
  {
    Count(pages, "active") + Count(pages, "wired down") + Count(pages, "occupied by compressor") +
    Count(pages, "File-backed") + Count(pages, "Anonymous") + Count(pages, "speculative") +
    Count(pages, "throttled")
  }

  /** The bytes in use: the pages in use times the page size, so a whole number of pages. */
  function UsedBytes(output: string, kinds: seq<string>): (r: nat)
    ensures r == 0 <==> UsedPages(Pages(output, kinds)) == 0 || PageSize(output) == 0
    ensures PageSize(output) > 0 ==> r % PageSize(output) == 0 && r / PageSize(output) == UsedPages(Pages(output, kinds))
  {
    var used := UsedPages(Pages(output, kinds));
    var size := PageSize(output);
    WholePages(used, size);
    Times(used, size)
  }

  lemma WholePages(a: nat, b: nat)
    ensures a * b == 0 <==> a == 0 || b == 0
    ensures b > 0 ==> (a * b) % b == 0 && (a * b) / b == a
  {
  }

  /** A kind the pattern does not know always counts 0. */
  lemma UnknownKindCountsZero(output: string, kinds: seq<string>, kind: string)
    requires kind !in kinds
    ensures Count(Pages(output, kinds), kind) == 0
  {
    TallyKinds(Split(output, '\n'), kinds);
  }

  lemma AsWrittenLacks()
    ensures "occupied by compressor" !in AsWrittenKinds
    ensures "File-backed" !in CorrectedKinds && "Anonymous" !in CorrectedKinds
  {
  }

  /** Active, wired, speculative and throttled pages: the kinds both patterns record and the sum reads. */
  function CorePages(pages: map<string, nat>): nat {
    Count(pages, "active") + Count(pages, "wired down") + Count(pages, "speculative") + Count(pages, "throttled")
  }

  /**
   * As written, only active, wired, speculative and throttled pages are ever counted: the
   * dictionary never holds `occupied by compressor`, `File-backed` or `Anonymous`.
   */
  lemma UsedAsWritten(output: string)
    ensures UsedPages(Pages(output, AsWrittenKinds)) == CorePages(Pages(output, AsWrittenKinds))
  {
    AsWrittenLacks();
    UnknownKindCountsZero(output, AsWrittenKinds, "occupied by compressor");
    UnknownKindCountsZero(output, AsWrittenKinds, "File-backed");
    UnknownKindCountsZero(output, AsWrittenKinds, "Anonymous");
  }

  /** With the corrected pattern the compressor pages count as well; file-backed and anonymous pages still never do. */
  lemma UsedCorrected(output: string)
    ensures var pages := Pages(output, CorrectedKinds);
            UsedPages(pages) == CorePages(pages) + Count(pages, "occupied by compressor")
  {
    AsWrittenLacks();
    UnknownKindCountsZero(output, CorrectedKinds, "File-backed");
    UnknownKindCountsZero(output, CorrectedKinds, "Anonymous");
  }

  /** The line `vm_stat` prints for a kind of page. */
  function KindLine(kind: string, n: nat): string {
    "Pages " + kind + ": " + NatToString(n)
  }

  /** A kind's own line matches the pattern for that kind at its start and captures the count. */
  lemma KindLineMatches(kind: string, n: nat)
    requires kind != [] && !IsSpace(kind[0])
    ensures KindAt(KindLine(kind, n), kind, 0)
    ensures CountAt(KindLine(kind, n), kind, 0) == n
  {
    var head := "Pages " + kind + ": ";
    var d := NatToString(n);
    assert KindLine(kind, n) == head + d;
    KindLineSpaces(kind, d);
    TailDigits(head, d);
    KindLineCount(head + d, kind, d);
  }

  /** Where the pieces of a kind's line sit, and the two single spaces in it. */
  lemma {:induction false} KindLineSpaces(kind: string, d: string)
    requires kind != [] && !IsSpace(kind[0]) && d != [] && IsDigit(d[0])
    ensures var line := "Pages " + kind + ": " + d;
            && line[..5] == "Pages"
            && SpaceRun(line, 5) == 1
            && line[6..6 + |kind| + 1] == kind + ":"
            && SpaceRun(line, 6 + |kind| + 1) == 1
  {
    var line := "Pages " + kind + ": " + d;
    var q := 6 + |kind| + 1;
    assert line == "Pages" + [' '] + (kind + ":") + [' '] + d;
    assert line[5] == ' ' && line[6] == kind[0];
    SpaceRunStops(line, 5, 1);
    assert line[q] == ' ' && line[q + 1] == d[0];
    SpaceRunStops(line, q, 1);
  }

  /** The digits that end a line are the run `\d+` takes there. */
  lemma TailDigits(head: string, d: string)
    requires AllDigits(d)
    ensures DigitRun(head + d, |head|) == |d| && (head + d)[|head|..|head| + |d|] == d
  {
    assert (head + d)[|head|..|head| + |d|] == d;
    DigitsAt(head + d, |head|, d);
  }

  /** A line laid out as `Pages`, one space, the kind and a colon, one space, and digits matches and captures them. */
  lemma KindLineCount(line: string, kind: string, d: string)
    requires d != [] && AllDigits(d) && 6 + |kind| + 2 + |d| <= |line|
    requires line[..5] == "Pages" && SpaceRun(line, 5) == 1
    requires line[6..6 + |kind| + 1] == kind + ":" && SpaceRun(line, 6 + |kind| + 1) == 1
    requires DigitRun(line, 6 + |kind| + 2) == |d| && line[6 + |kind| + 2..6 + |kind| + 2 + |d|] == d
    ensures KindAt(line, kind, 0)
    ensures CountAt(line, kind, 0) == DigitsValue(d)
  {
    assert OccursAt(line, "Pages", 0);
    assert OccursAt(line, kind + ":", 6);
    assert KindAt(line, kind, 0);
    CountAtStart(line, kind, d);
  }

  /** In that layout the count is read from the digits after the second single space. */
  lemma CountAtStart(line: string, kind: string, d: string)
    requires 6 + |kind| + 2 + |d| <= |line|
    requires SpaceRun(line, 5) == 1 && SpaceRun(line, 6 + |kind| + 1) == 1
    requires DigitRun(line, 6 + |kind| + 2) == |d| && line[6 + |kind| + 2..6 + |kind| + 2 + |d|] == d
    ensures CountFits(line, kind, 0) && CountFrom(line, kind, 0) == DigitsValue(d)
  {
    DigitsFromIs(line, 6 + |kind| + 2, d);
  }

  lemma DigitsFromIs(line: string, start: nat, d: string)
    requires start <= |line| && start + DigitRun(line, start) <= |line| && line[start..start + DigitRun(line, start)] == d
    ensures DigitsFrom(line, start) == DigitsValue(d)
  {
  }

  /** A kind's line does not match, at its start, a kind with another first letter. */
  lemma OtherKindMisses(kind: string, other: string, n: nat)
    requires kind != [] && !IsSpace(kind[0]) && other != [] && other[0] != kind[0]
    ensures !KindAt(KindLine(kind, n), other, 0)
  {
    var d := NatToString(n);
    KindLineSpaces(kind, d);
    assert KindLine(kind, n)[6] == kind[0];
  }

  /** The first kind that matches at `p` is the one the alternation takes. */
  lemma FirstKindIs(line: string, kinds: seq<string>, p: int, j: nat)
    requires j < |kinds| && KindAt(line, kinds[j], p)
    requires forall i :: 0 <= i < j ==> !KindAt(line, kinds[i], p)
    ensures FirstKind(line, kinds, p, 0) == j
  {
  }

  const Compressor := "occupied by compressor"

  /** With the corrected pattern the compressor line is matched, as the compressor kind. */
  lemma CompressorLineMatches(n: nat)
    ensures LineMatch(KindLine(Compressor, n), CorrectedKinds) == Some((Compressor, n))
  {
    var line := KindLine(Compressor, n);
    var kinds := CorrectedKinds;
    assert kinds[7] == Compressor;
    KindLineMatches(Compressor, n);
    forall i | 0 <= i < 7
      ensures !KindAt(line, kinds[i], 0)
    {
      assert kinds[i][0] != 'o';
      OtherKindMisses(Compressor, kinds[i], n);
    }
    FirstKindIs(line, kinds, 0, 7);
    assert FindPages(line, kinds, 0) == 0;
  }

  /** A line without a line break is a one-line output. */
  lemma KindLineIsOneLine(kind: string, n: nat)
    requires '\n' !in kind
    ensures Split(KindLine(kind, n), '\n') == [KindLine(kind, n)]
  {
    var d := NatToString(n);
    assert forall k :: 0 <= k < |d| ==> IsDigit(d[k]);
    assert '\n' !in d;
    SplitWithoutSeparator(KindLine(kind, n), '\n');
  }

  /** As written, the compressor line of `vm_stat` counts no pages, whatever it says. */
  lemma CompressorAsWritten(n: nat)
    ensures Count(Pages(KindLine(Compressor, n), AsWrittenKinds), Compressor) == 0
  {
    AsWrittenLacks();
    UnknownKindCountsZero(KindLine(Compressor, n), AsWrittenKinds, Compressor);
  }

  /** With the corrected pattern, the compressor line records its count. */
  lemma CompressorCorrected(n: nat)
    ensures Count(Pages(KindLine(Compressor, n), CorrectedKinds), Compressor) == n
  {
    var line := KindLine(Compressor, n);
    KindLineIsOneLine(Compressor, n);
    CompressorLineMatches(n);
    assert [line][..0] == [];
  }
}
