/**
 * The text parsing of `getDeviceCapabilities` (system_info.ts): the macOS hardware profile is
 * searched for the model, chip and memory lines; the Linux `nvidia-smi` line is split into a
 * name and a memory size, and the normalised name is looked up in the chip table. The shell
 * commands are not modelled: their outputs are parameters, `None` standing for a command
 * that failed.
 */
module Capabilities {
  import opened Wrappers
  import opened Text
  import opened GpuName
  import opened ChipFlops
  import opened Scan

  /** `DeviceCapabilities` of `src/types.ts`; a `None` memory is JavaScript's NaN. */
  datatype DeviceCapabilities = DeviceCapabilities(model: string, chip: string, memory: Option<int>, flops: Flops)

  datatype Platform = MacOS | Linux | OtherPlatform

  /** The GPU vendors found at start-up (`gpuState`). */
  datatype GpuState = GpuState(hasNvidia: bool, hasAmd: bool)

  const MemoryLabel := "Memory: "

  /** `/Memory: (\d+) (GB|MB)/` can match at `p`. */
  predicate MemoryAt(s: string, p: int) {
    NumberAt(s, MemoryLabel, " GB", p) || NumberAt(s, MemoryLabel, " MB", p)
  }

  /** The leftmost match position of the memory pattern at or after `from`, or -1. */
  function FindMemory(s: string, from: nat): (p: int)
    decreases |s| - from
    ensures p == -1 || (from <= p && MemoryAt(s, p))
    ensures forall k :: from <= k && (p == -1 || k < p) ==> !MemoryAt(s, k)
  {
    if from + |MemoryLabel| > |s| then -1
    else if MemoryAt(s, from) then from
    else FindMemory(s, from + 1)
  }

  /** `p` is the leftmost position where the memory pattern matches. */
  predicate FirstMemory(s: string, p: int) {
    MemoryAt(s, p) && forall k :: 0 <= k < p ==> !MemoryAt(s, k)
  }

  /** The size a match at `p` states, in MB: gigabytes times 1024, megabytes as they are. */
  function SizeAt(s: string, p: nat): nat
    requires MemoryAt(s, p)
  {
    var value := NumberAfter(s, MemoryLabel, p);
    if NumberAt(s, MemoryLabel, " GB", p) then value * 1024 else value
  }

  /** The memory of the hardware profile in MB: the size its leftmost memory match states, else 0. */
  function MemoryMegabytes(profile: string): (m: nat)
    ensures (forall k :: !MemoryAt(profile, k)) ==> m == 0
    ensures (exists k :: MemoryAt(profile, k)) ==> exists p :: FirstMemory(profile, p) && m == SizeAt(profile, p)
  {
    var p := FindMemory(profile, 0);
    if p < 0 then 0
    else
      assert FirstMemory(profile, p);
      SizeAt(profile, p)
  }

  /**
   * A profile in which `Memory: ` first occurs on the line `Memory: N GB` (or `MB`) reports
   * that size in MB, whatever lines come before it.
   */
  lemma MemoryLineAfter(lead: string, n: nat, gigabytes: bool, rest: string)
    requires var s := lead + MemoryLabel + NatToString(n) + (if gigabytes then " GB" else " MB") + rest;
             forall k :: 0 <= k < |lead| ==> !OccursAt(s, MemoryLabel, k)
    ensures var s := lead + MemoryLabel + NatToString(n) + (if gigabytes then " GB" else " MB") + rest;
            MemoryMegabytes(s) == if gigabytes then n * 1024 else n
  {
    var u := if gigabytes then " GB" else " MB";
    var s := lead + MemoryLabel + NatToString(n) + u + rest;
    NumberLine(lead, MemoryLabel, n, u, rest);
    MemoryFirstAt(s, |lead|, u);
    if !gigabytes {
      NotGigabytes(s, |lead|);
    }
  }

  /** A match with either unit at `p`, before which `Memory: ` never occurs, is the leftmost one. */
  lemma MemoryFirstAt(s: string, p: nat, u: string)
    requires u == " GB" || u == " MB"
    requires NumberAt(s, MemoryLabel, u, p)
    requires forall k :: 0 <= k < p ==> !OccursAt(s, MemoryLabel, k)
    ensures FindMemory(s, 0) == p
  {
    assert MemoryAt(s, p);
  }

  /** A megabyte match is no gigabyte match. */
  lemma NotGigabytes(s: string, p: nat)
    requires NumberAt(s, MemoryLabel, " MB", p)
    ensures !NumberAt(s, MemoryLabel, " GB", p)
  {
    var q := p + |MemoryLabel| + DigitRun(s, p + |MemoryLabel|);
    assert s[q..q + 3][1] == 'M';
  }

  /** `CHIP_FLOPS[chip] || { fp32: 0, fp16: 0, int8: 0 }`. */
  function FlopsOf(table: map<string, Flops>, chip: string): (f: Flops)
    ensures chip in table ==> f == table[chip]
    ensures chip !in table ==> f == NoFlops
  {
    if chip in table then table[chip] else NoFlops
  }

  const UnknownMac := DeviceCapabilities("Unknown Model", "Unknown Chip", Some(0), NoFlops)
  const UnknownDevice := DeviceCapabilities("Unknown Device", "Unknown Chip", Some(0), NoFlops)
  const AmdBox := DeviceCapabilities("Linux Box (AMD)", "Unknown AMD", Some(0), NoFlops)

  /** The macOS branch, from the output of `system_profiler SPHardwareDataType`. */
  function MacCapabilities(profile: string, table: map<string, Flops>): (r: DeviceCapabilities)
    ensures r.memory == Some(MemoryMegabytes(profile))
    ensures Capture(profile, "Model Name: ").Some? ==> r.model == Trim(Capture(profile, "Model Name: ").value)
    ensures Capture(profile, "Model Name: ").None? ==> r.model == "Unknown Model"
    ensures Capture(profile, "Chip: ").Some? ==> r.chip == Trim(Capture(profile, "Chip: ").value)
    ensures Capture(profile, "Chip: ").None? ==> r.chip == "Unknown Chip"
    ensures r.flops == FlopsOf(table, r.chip)
  {
    var model := match Capture(profile, "Model Name: ")
      case Some(v) => Trim(v)
      case None => "Unknown Model";
    var chip := match Capture(profile, "Chip: ")
      case Some(v) => Trim(v)
      case None => "Unknown Chip";
    DeviceCapabilities(model, chip, Some(MemoryMegabytes(profile)), FlopsOf(table, chip))
  }

  /** The Linux NVIDIA branch, from the output of `nvidia-smi --query-gpu=name,memory.total`. */
  function NvidiaCapabilities(output: string, table: map<string, Flops>): (r: DeviceCapabilities)
    ensures NoLower(r.chip) && SingleSpaced(r.chip) && Trimmed(r.chip)
    ensures r.chip == Normalize(Trim(Split(output, ',')[0]))
    ensures r.model == "Linux Box (" + Trim(Split(output, ',')[0]) + ")"
    ensures ',' !in output ==> r.memory.None?
    ensures r.flops == FlopsOf(table, r.chip)
  {
    var parts := Split(output, ',');
    var name := Trim(parts[0]);
    var memory := if |parts| > 1 then ParseInt(Trim(parts[1])) else None;
    var chip := Normalize(name);
    DeviceCapabilities("Linux Box (" + name + ")", chip, memory, FlopsOf(table, chip))
  }

  /** A `name,rest` line splits into the name and the rest. */
  lemma SplitNameLine(name: string, rest: string)
    requires ',' !in name && ',' !in rest
    ensures Split(name + "," + rest, ',') == [name, rest]
  {
    assert name + "," + rest == name + [','] + rest;
    SplitCons(name, rest, ',');
    SplitWithoutSeparator(rest, ',');
  }

  /** The memory field ` size MiB` reads as the size. */
  lemma MemoryField(n: nat)
    ensures ParseInt(Trim(" " + NatToString(n) + " MiB")) == Some(n)
  {
    var d := NatToString(n);
    var inner := d + " MiB";
    assert " " + d + " MiB" == [' '] + inner;
    assert inner[0] == d[0] && IsDigit(d[0]);
    assert inner[|inner| - 1] == 'B';
    TrimPadded(inner);
    ParseNatPrefix(n, " MiB");
  }

  /** The memory field contains no comma. */
  lemma MemoryFieldHasNoComma(n: nat)
    ensures ',' !in " " + NatToString(n) + " MiB"
  {
    var d := NatToString(n);
    assert forall k :: 0 <= k < |d| ==> IsDigit(d[k]);
    assert ',' !in d;
  }

  /** A `name, size MiB` line reports that name and that size. */
  lemma NvidiaLine(name: string, n: nat, table: map<string, Flops>)
    requires ',' !in name && Trimmed(name)
    ensures var r := NvidiaCapabilities(name + ", " + NatToString(n) + " MiB", table);
            r.model == "Linux Box (" + name + ")" && r.chip == Normalize(name) && r.memory == Some(n)
  {
    var field := " " + NatToString(n) + " MiB";
    NvidiaText(name, NatToString(n));
    MemoryFieldHasNoComma(n);
    SplitNameLine(name, field);
    MemoryField(n);
    NvidiaOfParts(name + "," + field, name, field, n, table);
  }

  lemma NvidiaText(name: string, d: string)
    ensures name + ", " + d + " MiB" == name + "," + (" " + d + " MiB")
  {
    assert ", " == "," + " ";
  }

  lemma NvidiaOfParts(output: string, name: string, field: string, n: int, table: map<string, Flops>)
    requires Split(output, ',') == [name, field] && Trimmed(name) && ParseInt(Trim(field)) == Some(n)
    ensures var r := NvidiaCapabilities(output, table);
            r.model == "Linux Box (" + name + ")" && r.chip == Normalize(name) && r.memory == Some(n)
  {
  }

  /** `getDeviceCapabilities`, with the output of the one command it runs. */
  function GetDeviceCapabilities(platform: Platform, gpu: GpuState, output: Option<string>,
                                 table: map<string, Flops>): (r: DeviceCapabilities)
    ensures r.flops == NoFlops || (r.chip in table && r.flops == table[r.chip])
    ensures r.memory.None? ==> platform == Linux && gpu.hasNvidia && output.Some?
    ensures platform == OtherPlatform ==> r == UnknownDevice
    ensures platform == Linux && gpu.hasNvidia && output.Some? ==> NoLower(r.chip)
    ensures platform == MacOS ==> r == (if output.None? then UnknownMac else MacCapabilities(output.value, table))
    ensures platform == Linux && gpu.hasNvidia ==>
              r == (if output.None? then UnknownDevice else NvidiaCapabilities(output.value, table))
    ensures platform == Linux && !gpu.hasNvidia ==> r == (if gpu.hasAmd then AmdBox else UnknownDevice)
  {
    match platform
    case MacOS =>
      if output.None? then UnknownMac else MacCapabilities(output.value, table)
    case Linux =>
      if gpu.hasNvidia then
        if output.None? then UnknownDevice else NvidiaCapabilities(output.value, table)
      else if gpu.hasAmd then AmdBox
      else UnknownDevice
    case OtherPlatform => UnknownDevice
  }

  /** The name `nvidia-smi` reports for the GeForce GTX 1660 Ti. */
  const SmiGtxName := "NVIDIA GeForce GTX 1660 Ti"

  /** No normalised name is the table's mixed-case GTX key, whatever `nvidia-smi` prints. */
  lemma MixedCaseKeyUnreachable(output: string, table: map<string, Flops>)
    ensures NvidiaCapabilities(output, table).chip != MixedCaseGtx
  {
    NormalizeNotLower(Trim(Split(output, ',')[0]), MixedCaseGtx, 8);
  }

  /** The GTX 1660 Ti normalises to the upper-case spelling. */
  lemma SmiGtxNormalized()
    ensures Normalize(SmiGtxName) == UpperCaseGtx
  {
    PlainSingleSpaced(UpperCaseGtx);
    NormalizeTo(SmiGtxName, UpperCaseGtx);
  }

  /** The GTX 1660 Ti name is one trimmed field of a `nvidia-smi` line. */
  lemma SmiGtxField()
    ensures ',' !in SmiGtxName && Trimmed(SmiGtxName)
  {
  }

  /** A `nvidia-smi` line for the GTX 1660 Ti reports the upper-case chip name, whatever the table. */
  lemma SmiGtxChip(n: nat, table: map<string, Flops>)
    ensures NvidiaCapabilities(SmiGtxName + ", " + NatToString(n) + " MiB", table).chip == UpperCaseGtx
  {
    SmiGtxField();
    NvidiaLine(SmiGtxName, n, table);
    SmiGtxNormalized();
  }

  /** As written, a GTX 1660 Ti on Linux reports no FLOPS. */
  lemma GtxLookupAsWritten(n: nat)
    ensures NvidiaCapabilities(SmiGtxName + ", " + NatToString(n) + " MiB", Built(Entries)).flops == NoFlops
  {
    SmiGtxChip(n, Built(Entries));
    GtxAsWritten();
  }

  /** With the key spelled in upper case, a GTX 1660 Ti on Linux reports its FLOPS. */
  lemma GtxLookupCorrected(n: nat)
    ensures NvidiaCapabilities(SmiGtxName + ", " + NatToString(n) + " MiB", Built(FixedEntries)).flops == GtxFlops
  {
    SmiGtxChip(n, Built(FixedEntries));
    GtxCorrected();
  }

  /** A memory line after lines that do not mention `Memory: ` states the memory size. */
  lemma MemoryAfterLines(lead: string, n: nat, rest: string)
    requires lead == [] || IsLineTerminator(lead[|lead| - 1])
    requires forall k :: !OccursAt(lead, MemoryLabel, k)
    ensures MemoryMegabytes(lead + (MemoryLabel + NatToString(n) + " GB" + rest)) == n * 1024
  {
    var d := NatToString(n);
    LinesBefore(lead, MemoryLabel + d + " GB" + rest, MemoryLabel);
    assert lead + (MemoryLabel + d + " GB" + rest) == lead + MemoryLabel + d + " GB" + rest;
    MemoryLineAfter(lead, n, true, rest);
  }

  /** The model line of a hardware profile. */
  function ModelLineOf(model: string): string {
    "Model Name: " + model + "\n"
  }

  /** The chip line of a hardware profile. */
  function ChipLineOf(chip: string): string {
    "Chip: " + chip + "\n"
  }

  /** The start of the memory line of a hardware profile, for a size in gigabytes. */
  function MemoryLineOf(gigabytes: nat): string {
    MemoryLabel + NatToString(gigabytes) + " GB"
  }

  /**
   * A hardware profile as `system_profiler` prints it: any text `l1`, the model line, any text
   * `l2`, the chip line, any text `l3`, the memory line and any text `l4`.
   */
  function ProfileText(l1: string, model: string, l2: string, chip: string, l3: string, gigabytes: nat, l4: string): string {
    l1 + (ModelLineOf(model) + (l2 + (ChipLineOf(chip) + (l3 + (MemoryLineOf(gigabytes) + l4)))))
  }

  predicate OneLine(s: string) {
    forall k :: 0 <= k < |s| ==> !IsLineTerminator(s[k])
  }

  /**
   * The macOS branch reads the model, the chip and the memory from their own lines, wherever
   * they sit in the profile, as long as the text before each does not already hold its label.
   */
  lemma MacProfileReport(l1: string, model: string, l2: string, chip: string, l3: string, gigabytes: nat, l4: string,
                         table: map<string, Flops>)
    requires model != [] && chip != [] && Trimmed(model) && Trimmed(chip) && OneLine(model) && OneLine(chip)
    requires var s := ProfileText(l1, model, l2, chip, l3, gigabytes, l4);
             && (forall k :: 0 <= k < |l1| ==> !OccursAt(s, "Model Name: ", k))
             && (forall k :: 0 <= k < |l1 + ModelLineOf(model) + l2| ==> !OccursAt(s, "Chip: ", k))
             && (forall k :: 0 <= k < |l1 + ModelLineOf(model) + l2 + ChipLineOf(chip) + l3| ==> !OccursAt(s, MemoryLabel, k))
    ensures var r := MacCapabilities(ProfileText(l1, model, l2, chip, l3, gigabytes, l4), table);
            r.model == model && r.chip == chip && r.memory == Some(gigabytes * 1024)
  {
    ProfileModel(l1, model, l2, chip, l3, gigabytes, l4);
    ProfileChip(l1, model, l2, chip, l3, gigabytes, l4);
    ProfileMemory(l1, model, l2, chip, l3, gigabytes, l4);
  }

  lemma ProfileModel(l1: string, model: string, l2: string, chip: string, l3: string, gigabytes: nat, l4: string)
    requires model != [] && OneLine(model)
    requires forall k :: 0 <= k < |l1| ==> !OccursAt(ProfileText(l1, model, l2, chip, l3, gigabytes, l4), "Model Name: ", k)
    ensures Capture(ProfileText(l1, model, l2, chip, l3, gigabytes, l4), "Model Name: ") == Some(model)
  {
    var x := l2 + (ChipLineOf(chip) + (l3 + (MemoryLineOf(gigabytes) + l4)));
    LineFirst(l1, "Model Name: ", model, "\n", x);
    assert ProfileText(l1, model, l2, chip, l3, gigabytes, l4) == l1 + "Model Name: " + model + ("\n" + x);
    assert ("\n" + x)[0] == '\n';
    CaptureAfter(l1, "Model Name: ", model, "\n" + x);
  }

  lemma ProfileChip(l1: string, model: string, l2: string, chip: string, l3: string, gigabytes: nat, l4: string)
    requires chip != [] && OneLine(chip)
    requires forall k :: 0 <= k < |l1 + ModelLineOf(model) + l2| ==>
               !OccursAt(ProfileText(l1, model, l2, chip, l3, gigabytes, l4), "Chip: ", k)
    ensures Capture(ProfileText(l1, model, l2, chip, l3, gigabytes, l4), "Chip: ") == Some(chip)
  {
    var y := l3 + (MemoryLineOf(gigabytes) + l4);
    LineSecond(l1, ModelLineOf(model), l2, "Chip: ", chip, "\n", y);
    assert ProfileText(l1, model, l2, chip, l3, gigabytes, l4) == l1 + ModelLineOf(model) + l2 + "Chip: " + chip + ("\n" + y);
    assert ("\n" + y)[0] == '\n';
    CaptureAfter(l1 + ModelLineOf(model) + l2, "Chip: ", chip, "\n" + y);
  }

  lemma ProfileMemory(l1: string, model: string, l2: string, chip: string, l3: string, gigabytes: nat, l4: string)
    requires forall k :: 0 <= k < |l1 + ModelLineOf(model) + l2 + ChipLineOf(chip) + l3| ==>
               !OccursAt(ProfileText(l1, model, l2, chip, l3, gigabytes, l4), MemoryLabel, k)
    ensures MemoryMegabytes(ProfileText(l1, model, l2, chip, l3, gigabytes, l4)) == gigabytes * 1024
  {
    var lead := l1 + ModelLineOf(model) + l2 + ChipLineOf(chip) + l3;
    LineThird(l1, ModelLineOf(model), l2, ChipLineOf(chip), l3, MemoryLabel, NatToString(gigabytes), " GB", l4);
    assert ProfileText(l1, model, l2, chip, l3, gigabytes, l4) == lead + MemoryLabel + NatToString(gigabytes) + " GB" + l4;
    MemoryLineAfter(l1 + ModelLineOf(model) + l2 + ChipLineOf(chip) + l3, gigabytes, true, l4);
  }

  /** How a profile groups around its first line. */
  lemma LineFirst(a: string, tag: string, v: string, nl: string, x: string)
    ensures a + ((tag + v + nl) + x) == a + tag + v + (nl + x)
  {
  }

  /** How a profile groups around its second line. */
  lemma LineSecond(a: string, m: string, b: string, tag: string, v: string, nl: string, y: string)
    ensures a + (m + (b + ((tag + v + nl) + y))) == a + m + b + tag + v + (nl + y)
  {
  }

  /** How a profile groups around its third line. */
  lemma LineThird(a: string, m: string, b: string, c: string, e: string, tag: string, d: string, u: string, z: string)
    ensures a + (m + (b + (c + (e + (tag + d + u + z))))) == a + m + b + c + e + tag + d + u + z
  {
  }

  /** Text that is whole lines: empty, or ending with a line terminator. */
  predicate LineEnded(s: string) {
    s == [] || IsLineTerminator(s[|s| - 1])
  }

  /**
   * A label cannot match before the end of some whole lines that lack one of its characters,
   * followed by indentation that lacks its first character.
   */
  lemma NoLabelBefore(lines: string, indent: string, t: string, pat: string, c: char)
    requires LineEnded(lines) && pat != [] && OneLine(pat)
    requires c in pat && c !in lines && pat[0] !in indent
    ensures forall k :: 0 <= k < |lines + indent| ==> !OccursAt(lines + indent + t, pat, k)
  {
    CharAbsent(lines, pat, c);
    LinesBefore(lines, indent + t, pat);
    assert lines + (indent + t) == lines + indent + t;
    forall k | |lines| <= k < |lines + indent|
      ensures !OccursAt(lines + indent + t, pat, k)
    {
      assert (lines + indent + t)[k] == indent[k - |lines|];
    }
  }

  /**
   * A profile whose model, chip and memory lines are each indented by `indent`, after whole
   * lines `h`, `b` and `c` that lack the letters `N`, `C` and `y` of the three labels.
   */
  lemma IndentedProfile(h: string, model: string, b: string, chip: string, c: string, gigabytes: nat, l4: string, indent: string)
    requires LineEnded(h) && LineEnded(b) && LineEnded(c)
    requires 'M' !in indent && 'C' !in indent && 'y' !in indent
    requires 'N' !in h && 'C' !in h + ModelLineOf(model) + b && 'y' !in h + ModelLineOf(model) + b + ChipLineOf(chip) + c
    ensures var s := ProfileText(h + indent, model, b + indent, chip, c + indent, gigabytes, l4);
            && (forall k :: 0 <= k < |h + indent| ==> !OccursAt(s, "Model Name: ", k))
            && (forall k :: 0 <= k < |h + indent + ModelLineOf(model) + (b + indent)| ==> !OccursAt(s, "Chip: ", k))
            && (forall k :: 0 <= k < |h + indent + ModelLineOf(model) + (b + indent) + ChipLineOf(chip) + (c + indent)| ==>
                  !OccursAt(s, MemoryLabel, k))
  {
    var m, ch, mem := ModelLineOf(model), ChipLineOf(chip), MemoryLineOf(gigabytes);
    IndentedModel(h, indent, m, b, ch, c, mem, l4);
    IndentedChip(h, indent, m, b, ch, c, mem, l4);
    IndentedMemory(h, indent, m, b, ch, c, mem, l4);
  }

  lemma IndentedModel(h: string, indent: string, m: string, b: string, ch: string, c: string, mem: string, l4: string)
    requires LineEnded(h) && 'M' !in indent && 'N' !in h
    ensures forall k :: 0 <= k < |h + indent| ==>
              !OccursAt(h + indent + (m + (b + indent + (ch + (c + indent + (mem + l4))))), "Model Name: ", k)
  {
    NoLabelBefore(h, indent, m + (b + indent + (ch + (c + indent + (mem + l4)))), "Model Name: ", 'N');
  }

  lemma IndentedChip(h: string, indent: string, m: string, b: string, ch: string, c: string, mem: string, l4: string)
    requires LineEnded(b) && |m| > 0 && m[|m| - 1] == '\n' && 'C' !in indent && 'C' !in h + m + b
    ensures forall k :: 0 <= k < |h + indent + m + (b + indent)| ==>
              !OccursAt(h + indent + (m + (b + indent + (ch + (c + indent + (mem + l4))))), "Chip: ", k)
  {
    var lines := h + indent + m + b;
    var t := ch + (c + indent + (mem + l4));
    EndedJoin(h + indent + m, b);
    NotInJoin('C', h, indent, m + b);
    assert h + indent + (m + b) == lines;
    NoLabelBefore(lines, indent, t, "Chip: ", 'C');
    SecondLead(h + indent, m, b, indent, t);
  }

  lemma IndentedMemory(h: string, indent: string, m: string, b: string, ch: string, c: string, mem: string, l4: string)
    requires LineEnded(c) && |ch| > 0 && ch[|ch| - 1] == '\n' && 'M' !in indent && 'y' !in indent && 'y' !in h + m + b + ch + c
    ensures forall k :: 0 <= k < |h + indent + m + (b + indent) + ch + (c + indent)| ==>
              !OccursAt(h + indent + (m + (b + indent + (ch + (c + indent + (mem + l4))))), MemoryLabel, k)
  {
    var lines := h + indent + m + (b + indent) + ch + c;
    EndedJoin(h + indent + m + (b + indent) + ch, c);
    assert 'y' !in h && 'y' !in m && 'y' !in b && 'y' !in ch && 'y' !in c;
    assert 'y' !in lines;
    NoLabelBefore(lines, indent, mem + l4, MemoryLabel, 'y');
    ThirdLead(h + indent, m, b + indent, ch, c, indent, mem + l4);
  }

  lemma SecondLead(a: string, m: string, b: string, indent: string, t: string)
    ensures a + (m + (b + indent + t)) == a + m + b + indent + t
    ensures |a + m + (b + indent)| == |a + m + b + indent|
  {
  }

  lemma ThirdLead(a: string, m: string, b: string, ch: string, c: string, indent: string, t: string)
    ensures a + (m + (b + (ch + (c + indent + t)))) == a + m + b + ch + c + indent + t
    ensures |a + m + b + ch + (c + indent)| == |a + m + b + ch + c + indent|
  {
  }

  lemma NotInJoin(x: char, a: string, b: string, c: string)
    requires x !in a + c && x !in b
    ensures x !in a + b + c
  {
  }

  lemma EndedJoin(a: string, b: string)
    requires |a| > 0 && a[|a| - 1] == '\n' && LineEnded(b)
    ensures LineEnded(a + b)
  {
  }

  /** The start of a MacBook Pro's `system_profiler SPHardwareDataType` report, trimmed. */
  const SampleHeader := "Hardware:\n\n    Hardware Overview:\n\n"
  const SampleIdentifier := "      Model Identifier: MacBookPro18,3\n"
  const SampleCores := "      Total Number of Cores: 10\n"
  const SampleFirmware := "\n      System Firmware Version: 7459.141.1"
  const Indent := "      "

  function SampleProfile(): string {
    ProfileText(SampleHeader + Indent, "MacBook Pro", SampleIdentifier + Indent, "Apple M1 Pro", SampleCores + Indent, 16, SampleFirmware)
  }

  /** A MacBook Pro with an M1 Pro chip and 16 GB, with its header and the lines between. */
  lemma SampleCapabilities(gpu: GpuState, table: map<string, Flops>)
    ensures var r := GetDeviceCapabilities(MacOS, gpu, Some(SampleProfile()), table);
            r.model == "MacBook Pro" && r.chip == "Apple M1 Pro" && r.memory == Some(16384)
  {
    SampleNames();
    SampleLetters();
    IndentedProfile(SampleHeader, "MacBook Pro", SampleIdentifier, "Apple M1 Pro", SampleCores, 16, SampleFirmware, Indent);
    MacProfileReport(SampleHeader + Indent, "MacBook Pro", SampleIdentifier + Indent, "Apple M1 Pro", SampleCores + Indent, 16,
                     SampleFirmware, table);
  }

  /** The sample's model and chip are one-line, trimmed names. */
  lemma SampleNames()
    ensures var model, chip := "MacBook Pro", "Apple M1 Pro";
            model != [] && chip != [] && Trimmed(model) && Trimmed(chip) && OneLine(model) && OneLine(chip)
  {
  }

  /** The sample's lines before each label lack one of its letters. */
  lemma SampleLetters()
    ensures LineEnded(SampleHeader) && LineEnded(SampleIdentifier) && LineEnded(SampleCores)
    ensures 'M' !in Indent && 'C' !in Indent && 'y' !in Indent && 'N' !in SampleHeader
    ensures 'C' !in SampleHeader + ModelLineOf("MacBook Pro") + SampleIdentifier
    ensures 'y' !in SampleHeader + ModelLineOf("MacBook Pro") + SampleIdentifier + ChipLineOf("Apple M1 Pro") + SampleCores
  {
    HeaderLetters();
    ModelLetters();
    IdentifierLetters();
    ChipLetters();
    CoresLetters();
  }

  lemma HeaderLetters()
    ensures 'N' !in SampleHeader && 'C' !in SampleHeader && 'y' !in SampleHeader
  {
  }

  lemma ModelLetters()
    ensures 'C' !in ModelLineOf("MacBook Pro") && 'y' !in ModelLineOf("MacBook Pro")
  {
  }

  lemma IdentifierLetters()
    ensures 'C' !in SampleIdentifier && 'y' !in SampleIdentifier
  {
  }

  lemma ChipLetters()
    ensures 'y' !in ChipLineOf("Apple M1 Pro")
  {
  }

  lemma CoresLetters()
    ensures 'y' !in SampleCores
  {
  }
}
