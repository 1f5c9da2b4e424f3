/**
 * The `CHIP_FLOPS` table of `system_info.ts`: peak throughput per chip name, written as an
 * object literal and then widened at module load by four laptop spellings of every name.
 * The table is an object the load code mutates in place, so it is a class here, with the
 * object's key order (the order `Object.keys` reports) kept beside the dictionary.
 */
module ChipFlops {

  /** Peak throughput in TFLOPS at three precisions. */
  datatype Flops = Flops(fp32: real, fp16: real, int8: real)

  /** What a lookup falls back to for a chip the table does not know. */
  const NoFlops := Flops(0.0, 0.0, 0.0)

  /** M chips (system_info.ts:21-34). */
  const MChips: seq<(string, Flops)> := [
    ("Apple M1", Flops(2.29, 4.58, 9.16)),
    ("Apple M1 Pro", Flops(5.30, 10.60, 21.20)),
    ("Apple M1 Max", Flops(10.60, 21.20, 42.40)),
    ("Apple M1 Ultra", Flops(21.20, 42.40, 84.80)),
    ("Apple M2", Flops(3.55, 7.10, 14.20)),
    ("Apple M2 Pro", Flops(5.68, 11.36, 22.72)),
    ("Apple M2 Max", Flops(13.49, 26.98, 53.96)),
    ("Apple M2 Ultra", Flops(26.98, 53.96, 107.92)),
    ("Apple M3", Flops(3.55, 7.10, 14.20)),
    ("Apple M3 Pro", Flops(4.97, 9.94, 19.88)),
    ("Apple M3 Max", Flops(14.20, 28.40, 56.80)),
    ("Apple M4", Flops(4.26, 8.52, 17.04)),
    ("Apple M4 Pro", Flops(5.72, 11.44, 22.88)),
    ("Apple M4 Max", Flops(18.03, 36.07, 72.14))
  ]

  /** A chips (system_info.ts:37-41). */
  const AChips: seq<(string, Flops)> := [
    ("Apple A13 Bionic", Flops(0.69, 1.38, 2.76)),
    ("Apple A14 Bionic", Flops(0.75, 1.50, 3.00)),
    ("Apple A15 Bionic", Flops(1.37, 2.74, 5.48)),
    ("Apple A16 Bionic", Flops(1.79, 3.58, 7.16)),
    ("Apple A17 Pro", Flops(2.15, 4.30, 8.60))
  ]

  /** NVIDIA RTX 40 series (system_info.ts:44-52). */
  const Rtx40: seq<(string, Flops)> := [
    ("NVIDIA GEFORCE RTX 4090", Flops(82.58, 165.16, 330.32)),
    ("NVIDIA GEFORCE RTX 4080", Flops(48.74, 97.48, 194.96)),
    ("NVIDIA GEFORCE RTX 4080 SUPER", Flops(52.0, 104.0, 208.0)),
    ("NVIDIA GEFORCE RTX 4070 TI SUPER", Flops(40.0, 80.0, 160.0)),
    ("NVIDIA GEFORCE RTX 4070 TI", Flops(39.43, 78.86, 157.72)),
    ("NVIDIA GEFORCE RTX 4070 SUPER", Flops(30.0, 60.0, 120.0)),
    ("NVIDIA GEFORCE RTX 4070", Flops(29.0, 58.0, 116.0)),
    ("NVIDIA GEFORCE RTX 4060 TI 16GB", Flops(22.0, 44.0, 88.0)),
    ("NVIDIA GEFORCE RTX 4060 TI", Flops(22.0, 44.0, 88.0))
  ]

  /** NVIDIA RTX 30 series (system_info.ts:55-64). */
  const Rtx30: seq<(string, Flops)> := [
    ("NVIDIA GEFORCE RTX 3050", Flops(9.11, 18.22, 36.44)),
    ("NVIDIA GEFORCE RTX 3060", Flops(13.0, 26.0, 52.0)),
    ("NVIDIA GEFORCE RTX 3060 TI", Flops(16.2, 32.4, 64.8)),
    ("NVIDIA GEFORCE RTX 3070", Flops(20.3, 40.6, 81.2)),
    ("NVIDIA GEFORCE RTX 3070 TI", Flops(21.8, 43.6, 87.2)),
    ("NVIDIA GEFORCE RTX 3080 (10 GB)", Flops(29.8, 59.6, 119.2)),
    ("NVIDIA GEFORCE RTX 3080 (12 GB)", Flops(30.6, 61.2, 122.4)),
    ("NVIDIA GEFORCE RTX 3080 TI", Flops(34.1, 68.2, 136.4)),
    ("NVIDIA GEFORCE RTX 3090", Flops(35.6, 71.2, 142.4)),
    ("NVIDIA GEFORCE RTX 3090 TI", Flops(40.0, 80.0, 160.0))
  ]

  /** NVIDIA RTX 20 series (system_info.ts:67-74). */
  const Rtx20: seq<(string, Flops)> := [
    ("NVIDIA GEFORCE RTX 2060", Flops(6.45, 12.9, 25.8)),
    ("NVIDIA GEFORCE RTX 2060 SUPER", Flops(7.2, 14.4, 28.8)),
    ("NVIDIA GEFORCE RTX 2070", Flops(7.46, 14.93, 29.86)),
    ("NVIDIA GEFORCE RTX 2070 SUPER", Flops(9.06, 18.12, 36.24)),
    ("NVIDIA GEFORCE RTX 2080", Flops(10.07, 20.14, 40.28)),
    ("NVIDIA GEFORCE RTX 2080 TI", Flops(13.45, 26.9, 40.28)),
    ("NVIDIA GEFORCE RTX 2080 SUPER", Flops(11.15, 22.30, 44.60)),
    ("NVIDIA TITAN RTX", Flops(16.31, 32.62, 65.24))
  ]

  /** NVIDIA GTX series (system_info.ts:77-78). */
  const Gtx: seq<(string, Flops)> := [
    ("NVIDIA GEFORCE GTX 1050 TI", Flops(2.0, 4.0, 8.0)),
    ("NVIDIA GeForce GTX 1660 TI", Flops(4.8, 9.6, 19.2))
  ]

  /** NVIDIA Professional (system_info.ts:81-86). */
  const NvidiaPro: seq<(string, Flops)> := [
    ("NVIDIA RTX A2000", Flops(7.99, 7.99, 31.91)),
    ("NVIDIA RTX A4000", Flops(19.17, 19.17, 76.68)),
    ("NVIDIA RTX A4500", Flops(23.65, 23.65, 94.6)),
    ("NVIDIA RTX A5000", Flops(27.8, 27.8, 111.2)),
    ("NVIDIA RTX A6000", Flops(38.71, 38.71, 154.84)),
    ("NVIDIA RTX 4000 ADA GENERATION", Flops(26.7, 26.7, 258.0))
  ]

  /** NVIDIA Data Center (system_info.ts:89-96). */
  const NvidiaDataCenter: seq<(string, Flops)> := [
    ("NVIDIA A40 48GB PCIE", Flops(37.4, 149.7, 299.3)),
    ("NVIDIA A100 40GB PCIE", Flops(19.5, 312.0, 624.0)),
    ("NVIDIA A800 40GB PCIE", Flops(19.5, 312.0, 624.0)),
    ("NVIDIA A100 80GB PCIE", Flops(19.5, 312.0, 624.0)),
    ("NVIDIA A800 80GB PCIE", Flops(19.5, 312.0, 624.0)),
    ("NVIDIA A100 80GB SXM", Flops(19.5, 312.0, 624.0)),
    ("NVIDIA A800 80GB SXM", Flops(19.5, 312.0, 624.0))
  ]

  /** AMD RX 6000 series (system_info.ts:99-107). */
  const Rx6000: seq<(string, Flops)> := [
    ("AMD Radeon RX 6900 XT", Flops(23.04, 46.08, 92.16)),
    ("AMD Radeon RX 6800 XT", Flops(20.74, 41.48, 82.96)),
    ("AMD Radeon RX 6800", Flops(16.17, 32.34, 64.68)),
    ("AMD Radeon RX 6700 XT", Flops(13.21, 26.42, 52.84)),
    ("AMD Radeon RX 6700", Flops(11.4, 22.8, 45.6)),
    ("AMD Radeon RX 6600 XT", Flops(10.6, 21.2, 42.4)),
    ("AMD Radeon RX 6600", Flops(8.93, 17.86, 35.72)),
    ("AMD Radeon RX 6500 XT", Flops(5.77, 11.54, 23.08)),
    ("AMD Radeon RX 6400", Flops(3.57, 7.14, 14.28))
  ]

  /** AMD RX 7000 series (system_info.ts:110-115). */
  const Rx7000: seq<(string, Flops)> := [
    ("AMD Radeon RX 7900 XTX", Flops(61.4, 122.8, 245.6)),
    ("AMD Radeon RX 7900 XT", Flops(53.4, 106.8, 213.6)),
    ("AMD Radeon RX 7800 XT", Flops(42.6, 85.2, 170.4)),
    ("AMD Radeon RX 7700 XT", Flops(34.2, 68.4, 136.8)),
    ("AMD Radeon RX 7600", Flops(21.5, 43.0, 86.0)),
    ("AMD Radeon RX 7500", Flops(16.2, 32.4, 64.8))
  ]

  /** The groups before the GTX one. */
  const EarlyGroups: seq<(string, Flops)> := MChips + AChips + Rtx40 + Rtx30 + Rtx20

  /** The groups after the GTX one. */
  const LateGroups: seq<(string, Flops)> := NvidiaPro + NvidiaDataCenter + Rx6000 + Rx7000

  /** The object literal, group after group as the source lists them. */
  const Entries: seq<(string, Flops)> := EarlyGroups + Gtx + LateGroups

  /** The GTX group with its second name in the upper case every other NVIDIA name uses. */
  const GtxFixed: seq<(string, Flops)> := [Gtx[0], ("NVIDIA GEFORCE GTX 1660 TI", Gtx[1].1)]

  /** The object literal with the GTX group corrected. */
  const FixedEntries: seq<(string, Flops)> := EarlyGroups + GtxFixed + LateGroups

  /** A JavaScript object from names to throughput: its entries, and its keys in insertion order. */
  datatype Table = Table(flops: map<string, Flops>, order: seq<string>)

  /** The keys listed in `order` are distinct and are exactly the keys of `flops`. */
  ghost predicate WellFormed(t: Table) {
    && (forall k :: k in t.flops <==> k in t.order)
    && (forall i, j :: 0 <= i < j < |t.order| ==> t.order[i] != t.order[j])
  }

  /** `t[k] = v`: a new key goes to the end of the key order, an old key keeps its place. */
  function Insert(t: Table, k: string, v: Flops): Table {
    Table(t.flops[k := v], if k in t.flops then t.order else t.order + [k])
  }

  /** Setting a key keeps the key order in step with the dictionary. */
  lemma InsertWellFormed(t: Table, k: string, v: Flops)
    requires WellFormed(t)
    ensures WellFormed(Insert(t, k, v))
  {
  }

  /** The table an object literal denotes: its entries inserted one after the other. */
  function Literal(entries: seq<(string, Flops)>): Table {
    if entries == [] then Table(map[], [])
    else
      var last := entries[|entries| - 1];
      Insert(Literal(entries[..|entries| - 1]), last.0, last.1)
  }

  /** A literal's key order lists each of its keys once. */
  lemma {:induction false} LiteralWellFormed(entries: seq<(string, Flops)>)
    ensures WellFormed(Literal(entries))
  {
    if entries != [] {
      var last := entries[|entries| - 1];
      LiteralWellFormed(entries[..|entries| - 1]);
      InsertWellFormed(Literal(entries[..|entries| - 1]), last.0, last.1);
    }
  }

  /** The entries of a literal are the entries of its two halves, the later half winning. */
  lemma {:induction false} LiteralAppend(a: seq<(string, Flops)>, b: seq<(string, Flops)>)
    ensures Literal(a + b).flops == Literal(a).flops + Literal(b).flops
  {
    if b != [] {
      var b' := b[..|b| - 1];
      LiteralAppend(a, b');
      assert (a + b)[..|a + b| - 1] == a + b';
    } else {
      assert a + b == a;
    }
  }

  /** A name no entry carries is not a key of the literal. */
  lemma {:induction false} LiteralLacks(entries: seq<(string, Flops)>, k: string)
    requires forall e :: e in entries ==> e.0 != k
    ensures k !in Literal(entries).flops
  {
    if entries != [] {
      var init := entries[..|entries| - 1];
      assert forall e :: e in init ==> e in entries;
      LiteralLacks(init, k);
      assert entries[|entries| - 1] in entries;
    }
  }

  /** The four spellings the load code adds for a name `k`. */
  function LaptopAliases(k: string): (r: seq<string>)
    ensures |r| == 4
    ensures forall j :: 0 <= j < 4 ==> |r[j]| > |k|
    ensures forall j :: 0 <= j < 4 ==> r[j][0] == 'L' || r[j][|r[j]| - 1] == 'U'
  {
    ["LAPTOP GPU " + k, "Laptop GPU " + k, k + " LAPTOP GPU", k + " Laptop GPU"]
  }

  /** One pass of the alias loop: the four spellings of `k` all get `k`'s entry. */
  function WithAliases(t: Table, k: string): (r: Table)
    requires k in t.flops
    ensures t.flops.Keys <= r.flops.Keys
  {
    var a, v := LaptopAliases(k), t.flops[k];
    Insert(Insert(Insert(Insert(t, a[0], v), a[1], v), a[2], v), a[3], v)
  }

  /** The four spellings, written out as the loop body writes them. */
  lemma WithAliasesSpelled(t: Table, k: string)
    requires k in t.flops
    ensures var v := t.flops[k];
            WithAliases(t, k) ==
              Insert(Insert(Insert(Insert(t, "LAPTOP GPU " + k, v), "Laptop GPU " + k, v), k + " LAPTOP GPU", v),
                     k + " Laptop GPU", v)
  {
    var a := LaptopAliases(k);
    assert a[0] == "LAPTOP GPU " + k && a[1] == "Laptop GPU " + k;
    assert a[2] == k + " LAPTOP GPU" && a[3] == k + " Laptop GPU";
  }

  /** The alias loop over the key snapshot `ks`, in order. */
  function Expanded(t: Table, ks: seq<string>): (r: Table)
    requires forall i :: 0 <= i < |ks| ==> ks[i] in t.flops
    ensures t.flops.Keys <= r.flops.Keys
  {
    if ks == [] then t else WithAliases(Expanded(t, ks[..|ks| - 1]), ks[|ks| - 1])
  }

  /** The table as the rest of the program sees it: the literal, then its laptop spellings. */
  function Built(entries: seq<(string, Flops)>): map<string, Flops> {
    var t := Literal(entries);
    LiteralWellFormed(entries);
    Expanded(t, t.order).flops
  }

  /**
   * A name that no laptop spelling can equal: one that does not start with `L` and does not
   * end with `U` (every spelling starts with "LAPTOP"/"Laptop" or ends with "GPU").
   */
  predicate UnlikeAnAlias(k: string) {
    k == [] || (k[0] != 'L' && k[|k| - 1] != 'U')
  }

  /** No laptop spelling of any name is a name that is unlike an alias. */
  lemma AliasIsNotBase(k: string, k0: string, j: nat)
    requires UnlikeAnAlias(k0) && j < 4
    ensures LaptopAliases(k)[j] != k0
  {
  }

  /** Where the name sits inside each of its laptop spellings. */
  lemma AliasParts(k: string, j: nat)
    requires j < 4
    ensures var a := LaptopAliases(k)[j];
      && (j < 2 ==> a[11..] == k && a[|a| - 1] == (if k == [] then ' ' else k[|k| - 1]))
      && (j >= 2 ==> a[..|a| - 11] == k && a[|a| - 1] == 'U')
  {
  }

  /** Two different names unlike an alias never share a laptop spelling. */
  lemma AliasesApart(k1: string, k2: string, j1: nat, j2: nat)
    requires k1 != k2 && UnlikeAnAlias(k1) && UnlikeAnAlias(k2) && j1 < 4 && j2 < 4
    ensures LaptopAliases(k1)[j1] != LaptopAliases(k2)[j2]
  {
    AliasParts(k1, j1);
    AliasParts(k2, j2);
  }

  /** The keys one pass of the alias loop leaves alone keep their entries. */
  lemma WithAliasesKeeps(t: Table, k: string, x: string)
    requires k in t.flops && x in t.flops && x !in LaptopAliases(k)
    ensures WithAliases(t, k).flops[x] == t.flops[x]
  {
  }

  /** One pass of the alias loop gives each spelling of `k` the entry of `k`. */
  lemma WithAliasesSets(t: Table, k: string, j: nat)
    requires k in t.flops && j < 4
    ensures LaptopAliases(k)[j] in WithAliases(t, k).flops
    ensures WithAliases(t, k).flops[LaptopAliases(k)[j]] == t.flops[k]
  {
  }

  /** The alias loop leaves the entry of a name unlike an alias as it was. */
  lemma {:induction false} ExpandedKeepsName(t: Table, ks: seq<string>, k0: string)
    requires forall i :: 0 <= i < |ks| ==> ks[i] in t.flops
    requires k0 in t.flops && UnlikeAnAlias(k0)
    ensures Expanded(t, ks).flops[k0] == t.flops[k0]
  {
    if ks != [] {
      var init, k := ks[..|ks| - 1], ks[|ks| - 1];
      ExpandedKeepsName(t, init, k0);
      forall j | 0 <= j < 4 {
        AliasIsNotBase(k, k0, j);
      }
      WithAliasesKeeps(Expanded(t, init), k, k0);
    }
  }

  /** After the alias loop, the `j`-th laptop spelling of the `i`-th snapshot name carries that name's entry. */
  lemma {:induction false} ExpandedAlias(t: Table, ks: seq<string>, i: nat, j: nat)
    requires forall i :: 0 <= i < |ks| ==> ks[i] in t.flops
    requires forall k :: k in t.flops ==> UnlikeAnAlias(k)
    requires i < |ks| && j < 4
    ensures LaptopAliases(ks[i])[j] in Expanded(t, ks).flops
    ensures Expanded(t, ks).flops[LaptopAliases(ks[i])[j]] == t.flops[ks[i]]
  {
    var init, k := ks[..|ks| - 1], ks[|ks| - 1];
    if ks[i] == k {
      ExpandedKeepsName(t, init, k);
      WithAliasesSets(Expanded(t, init), k, j);
    } else {
      assert i < |init|;
      assert init[i] == ks[i];
      ExpandedAlias(t, init, i, j);
      var r0 := Expanded(t, init);
      forall j2 | 0 <= j2 < 4 {
        AliasesApart(ks[i], k, j, j2);
      }
      WithAliasesKeeps(r0, k, LaptopAliases(ks[i])[j]);
    }
  }

  /** After the alias loop, every laptop spelling of a snapshot name carries that name's entry. */
  lemma ExpandedAliases(t: Table, ks: seq<string>)
    requires forall i :: 0 <= i < |ks| ==> ks[i] in t.flops
    requires forall k :: k in t.flops ==> UnlikeAnAlias(k)
    ensures forall i, j :: 0 <= i < |ks| && 0 <= j < 4 ==>
              LaptopAliases(ks[i])[j] in Expanded(t, ks).flops &&
              Expanded(t, ks).flops[LaptopAliases(ks[i])[j]] == t.flops[ks[i]]
  {
    forall i, j | 0 <= i < |ks| && 0 <= j < 4
      ensures LaptopAliases(ks[i])[j] in Expanded(t, ks).flops &&
              Expanded(t, ks).flops[LaptopAliases(ks[i])[j]] == t.flops[ks[i]]
    {
      ExpandedAlias(t, ks, i, j);
    }
  }

  /** The alias loop adds laptop spellings of snapshot names and nothing else. */
  lemma {:induction false} ExpandedAddsOnlyAliases(t: Table, ks: seq<string>)
    requires forall i :: 0 <= i < |ks| ==> ks[i] in t.flops
    ensures forall x :: x in Expanded(t, ks).flops ==>
              x in t.flops || exists i, j :: 0 <= i < |ks| && 0 <= j < 4 && x == LaptopAliases(ks[i])[j]
  {
    if ks != [] {
      var init, k := ks[..|ks| - 1], ks[|ks| - 1];
      ExpandedAddsOnlyAliases(t, init);
      forall x | x in Expanded(t, ks).flops
        ensures x in t.flops || exists i, j :: 0 <= i < |ks| && 0 <= j < 4 && x == LaptopAliases(ks[i])[j]
      {
        var a := LaptopAliases(k);
        if x in a {
          var j :| 0 <= j < 4 && a[j] == x;
          assert x == LaptopAliases(ks[|ks| - 1])[j];
        } else if x !in t.flops {
          assert x in Expanded(t, init).flops;
          var i, j :| 0 <= i < |init| && 0 <= j < 4 && x == LaptopAliases(init[i])[j];
          assert x == LaptopAliases(ks[i])[j];
        }
      }
    }
  }

  /** Every key of a literal is the name of one of its entries. */
  lemma {:induction false} LiteralKeysNamed(entries: seq<(string, Flops)>)
    ensures forall k :: k in Literal(entries).flops ==> exists i :: 0 <= i < |entries| && entries[i].0 == k
  {
    if entries != [] {
      var init := entries[..|entries| - 1];
      LiteralKeysNamed(init);
      forall k | k in Literal(entries).flops
        ensures exists i :: 0 <= i < |entries| && entries[i].0 == k
      {
        if k != entries[|entries| - 1].0 {
          assert k in Literal(init).flops;
          var i :| 0 <= i < |init| && init[i].0 == k;
          assert entries[i].0 == k;
        }
      }
    }
  }

  /**
   * The table after module load, for a literal whose names are all unlike an alias: the literal's
   * entries unchanged, the four laptop spellings of each of its names with that name's entry,
   * and nothing more.
   */
  lemma BuiltSpec(entries: seq<(string, Flops)>)
    requires forall e :: e in entries ==> UnlikeAnAlias(e.0)
    ensures forall k :: k in Literal(entries).flops ==> k in Built(entries) && Built(entries)[k] == Literal(entries).flops[k]
    ensures forall k, j :: k in Literal(entries).flops && 0 <= j < 4 ==>
              LaptopAliases(k)[j] in Built(entries) && Built(entries)[LaptopAliases(k)[j]] == Literal(entries).flops[k]
    ensures forall x :: x in Built(entries) ==>
              x in Literal(entries).flops || exists k, j :: k in Literal(entries).flops && 0 <= j < 4 && x == LaptopAliases(k)[j]
  {
    var t := Literal(entries);
    LiteralWellFormed(entries);
    LiteralKeysNamed(entries);
    forall k | k in t.flops
      ensures UnlikeAnAlias(k) && Built(entries)[k] == t.flops[k]
    {
      var i :| 0 <= i < |entries| && entries[i].0 == k;
      assert entries[i] in entries;
      ExpandedKeepsName(t, t.order, k);
    }
    ExpandedAliases(t, t.order);
    ExpandedAddsOnlyAliases(t, t.order);
    forall k, j | k in t.flops && 0 <= j < 4
      ensures LaptopAliases(k)[j] in Built(entries) && Built(entries)[LaptopAliases(k)[j]] == t.flops[k]
    {
      var i :| 0 <= i < |t.order| && t.order[i] == k;
    }
  }

  /** A name unlike an alias keeps its literal entry through module load, whatever the other names. */
  lemma BuiltKeepsName(entries: seq<(string, Flops)>, k: string)
    requires k in Literal(entries).flops && UnlikeAnAlias(k)
    ensures k in Built(entries) && Built(entries)[k] == Literal(entries).flops[k]
  {
    LiteralWellFormed(entries);
    var t := Literal(entries);
    ExpandedKeepsName(t, t.order, k);
  }

  /** A name unlike an alias is in the loaded table only if the literal names it. */
  lemma BuiltAddsOnlyAliases(entries: seq<(string, Flops)>, k: string)
    requires k !in Literal(entries).flops && UnlikeAnAlias(k)
    ensures k !in Built(entries)
  {
    LiteralWellFormed(entries);
    var t := Literal(entries);
    ExpandedAddsOnlyAliases(t, t.order);
    if k in Built(entries) {
      var i, j :| 0 <= i < |t.order| && 0 <= j < 4 && k == LaptopAliases(t.order[i])[j];
      AliasIsNotBase(t.order[i], k, j);
    }
  }

  /** No entry of the list is named `k`. */
  predicate Lacks(entries: seq<(string, Flops)>, k: string) {
    forall e :: e in entries ==> e.0 != k
  }

  /** The mixed-case GTX name as the literal writes it. */
  const MixedCaseGtx := "NVIDIA GeForce GTX 1660 TI"

  /** The same name in the upper case of every other NVIDIA name. */
  const UpperCaseGtx := "NVIDIA GEFORCE GTX 1660 TI"

  /** The Apple groups do not name the upper-case GTX card. */
  lemma AppleLacksGtx()
    ensures Lacks(MChips, UpperCaseGtx) && Lacks(AChips, UpperCaseGtx)
  {
  }

  /** The RTX 40 and RTX 30 groups do not name the upper-case GTX card. */
  lemma NewerRtxLacksGtx()
    ensures Lacks(Rtx40, UpperCaseGtx) && Lacks(Rtx30, UpperCaseGtx)
  {
  }

  /** The RTX 20 and GTX groups do not name the upper-case GTX card. */
  lemma OlderGeForceLacksGtx()
    ensures Lacks(Rtx20, UpperCaseGtx) && Lacks(Gtx, UpperCaseGtx)
  {
  }

  /** The professional group names the GTX card in neither spelling. */
  lemma NvidiaProLacksGtx()
    ensures Lacks(NvidiaPro, UpperCaseGtx) && Lacks(NvidiaPro, MixedCaseGtx)
  {
  }

  /** The data-center group names the GTX card in neither spelling. */
  lemma NvidiaDataCenterLacksGtx()
    ensures Lacks(NvidiaDataCenter, UpperCaseGtx) && Lacks(NvidiaDataCenter, MixedCaseGtx)
  {
  }

  /** The RX 6000 group names the GTX card in neither spelling. */
  lemma Rx6000LacksGtx()
    ensures Lacks(Rx6000, UpperCaseGtx) && Lacks(Rx6000, MixedCaseGtx)
  {
  }

  /** The RX 7000 group names the GTX card in neither spelling. */
  lemma Rx7000LacksGtx()
    ensures Lacks(Rx7000, UpperCaseGtx) && Lacks(Rx7000, MixedCaseGtx)
  {
  }

  /** The `CHIP_FLOPS` object. */
  class ChipTable {
    var flops: map<string, Flops>
    var order: seq<string>

    /** The object as a value. */
    function Value(): Table
      reads this
    {
      Table(flops, order)
    }

    /** The object literal, evaluated entry by entry. */
    constructor (entries: seq<(string, Flops)>)
      ensures Value() == Literal(entries)
    {
      flops, order := map[], [];
      new;
      for i := 0 to |entries|
        invariant Value() == Literal(entries[..i])
      {
        assert entries[..i + 1][..i] == entries[..i];
        Put(entries[i].0, entries[i].1);
      }
      assert entries[..|entries|] == entries;
    }

    /** `CHIP_FLOPS[k] = v`. */
    method Put(k: string, v: Flops)
      modifies this
      ensures Value() == Insert(old(Value()), k, v)
    {
      if k !in flops {
        order := order + [k];
      }
      flops := flops[k := v];
    }

    /**
     * The "laptop variants" loop: over a snapshot of the keys taken before it starts, each
     * name gets its four laptop spellings, each set to the name's current entry.
     */
    method AddLaptopVariants()
      requires WellFormed(Value())
      modifies this
      ensures Value() == Expanded(old(Value()), old(order))
    {
      var snapshot := order;
      ghost var t0 := Value();
      for i := 0 to |snapshot|
        invariant Value() == Expanded(t0, snapshot[..i])
      {
        var k := snapshot[i];
        ghost var before := Value();
        assert snapshot[..i + 1][..i] == snapshot[..i];
        var v := flops[k];
        WithAliasesSpelled(before, k);
        Put("LAPTOP GPU " + k, v);
        Put("Laptop GPU " + k, v);
        Put(k + " LAPTOP GPU", v);
        Put(k + " Laptop GPU", v);
      }
      assert snapshot[..|snapshot|] == snapshot;
    }
  }

  /** Module load: the literal, then the laptop variants. */
  method Load(entries: seq<(string, Flops)>) returns (table: ChipTable)
    ensures table.flops == Built(entries)
  {
    table := new ChipTable(entries);
    LiteralWellFormed(entries);
    table.AddLaptopVariants();
  }

  /** The literal, read as the groups before the GTX one, the GTX one, and those after it. */
  lemma LiteralByGroups(gtx: seq<(string, Flops)>)
    ensures Literal(EarlyGroups + gtx + LateGroups).flops ==
              Literal(EarlyGroups).flops + Literal(gtx).flops + Literal(LateGroups).flops
  {
    LiteralAppend(EarlyGroups, gtx);
    LiteralAppend(EarlyGroups + gtx, LateGroups);
  }

  /** No group before the GTX one names the upper-case GTX card. */
  lemma EarlyGroupsLackUpperCaseGtx()
    ensures UpperCaseGtx !in Literal(EarlyGroups).flops
  {
    AppleLacksGtx();
    NewerRtxLacksGtx();
    OlderGeForceLacksGtx();
    var e := EarlyGroups;
    assert forall x :: x in e ==> x in MChips || x in AChips || x in Rtx40 || x in Rtx30 || x in Rtx20;
    LiteralLacks(e, UpperCaseGtx);
  }

  /** No group after the GTX one names the GTX card, in either spelling. */
  lemma LateGroupsLackGtx()
    ensures UpperCaseGtx !in Literal(LateGroups).flops && MixedCaseGtx !in Literal(LateGroups).flops
  {
    NvidiaProLacksGtx();
    NvidiaDataCenterLacksGtx();
    Rx6000LacksGtx();
    Rx7000LacksGtx();
    var l := LateGroups;
    assert forall x :: x in l ==> x in NvidiaPro || x in NvidiaDataCenter || x in Rx6000 || x in Rx7000;
    LiteralLacks(l, UpperCaseGtx);
    LiteralLacks(l, MixedCaseGtx);
  }

  /** The throughput the GTX 1660 Ti entry records. */
  const GtxFlops := Flops(4.8, 9.6, 19.2)

  /**
   * As written: the loaded table keeps the GTX 1660 Ti entry under its mixed-case name, and has
   * nothing under the upper-case name.
   */
  lemma GtxAsWritten()
    ensures MixedCaseGtx in Built(Entries) && Built(Entries)[MixedCaseGtx] == GtxFlops
    ensures UpperCaseGtx !in Built(Entries)
  {
    LiteralByGroups(Gtx);
    EarlyGroupsLackUpperCaseGtx();
    LateGroupsLackGtx();
    OlderGeForceLacksGtx();
    LiteralLacks(Gtx, UpperCaseGtx);
    assert Literal(Gtx).flops[MixedCaseGtx] == GtxFlops;
    BuiltKeepsName(Entries, MixedCaseGtx);
    BuiltAddsOnlyAliases(Entries, UpperCaseGtx);
  }

  /** Corrected: the loaded table has the GTX 1660 Ti entry under the upper-case name. */
  lemma GtxCorrected()
    ensures UpperCaseGtx in Built(FixedEntries) && Built(FixedEntries)[UpperCaseGtx] == GtxFlops
  {
    LiteralByGroups(GtxFixed);
    LateGroupsLackGtx();
    assert Literal(GtxFixed).flops[UpperCaseGtx] == GtxFlops;
    BuiltKeepsName(FixedEntries, UpperCaseGtx);
  }
}
