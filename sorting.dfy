/**
 * The node ordering of src/lib/sorting.ts: `sortNodes` copies the list and sorts the copy with a
 * comparator that first honours a user-defined order of ids and otherwise compares one key in the
 * chosen direction.
 *
 * `Array.prototype.sort` is stable; it is modelled by a stable insertion sort. `localeCompare`
 * is the parameter `nameOrder`; the usage figures are ordered numbers (`real`).
 */
module Sorting {

  /** The usage figures a `NodeWithData` carries. */
  datatype Usage = Usage(cpu: real, gpu: real, memory: real, power: real)

  /** What the comparator reads of a node. */
  datatype Entry = Entry(id: string, name: string, isMaster: bool, data: Usage)

  datatype Direction = Asc | Desc

  /** The three settings `sortNodes` takes besides the list. */
  datatype Settings = Settings(sortBy: string, direction: Direction, customOrder: seq<string>)

  /** `Array.prototype.indexOf`: the first position of `x`, or -1. */
  function IndexOf(s: seq<string>, x: string): (r: int)
    ensures -1 <= r < |s|
    ensures r == -1 <==> x !in s
    ensures r >= 0 ==> s[r] == x && forall k :: 0 <= k < r ==> s[k] != x
  {
    if s == [] then -1
    else if s[0] == x then 0
    else
      var r := IndexOf(s[1..], x);
      if r == -1 then -1 else r + 1
  }

  function Sign(d: Direction): real {
    if d == Asc then 1.0 else -1.0
  }

  /** The comparator of `sortNodes`: negative puts `a` first, positive puts `b` first. */
  function Compare(st: Settings, nameOrder: (string, string) -> int, a: Entry, b: Entry): (r: real)
    ensures a.id in st.customOrder && b.id in st.customOrder ==>
              (r < 0.0 <==> IndexOf(st.customOrder, a.id) < IndexOf(st.customOrder, b.id)) &&
              (r == 0.0 <==> a.id == b.id)
    ensures !(a.id in st.customOrder && b.id in st.customOrder) ==>
              r == Sign(st.direction) * KeyOrder(st.sortBy, nameOrder, a, b)
  {
    var ia := IndexOf(st.customOrder, a.id);
    var ib := IndexOf(st.customOrder, b.id);
    if |st.customOrder| > 0 && ia != -1 && ib != -1 then (ia - ib) as real
    else
      var dir := Sign(st.direction);
      match st.sortBy
      case "master" => if a.isMaster == b.isMaster then 0.0 else if a.isMaster then -dir else dir
      case "name" => dir * (nameOrder(a.name, b.name) as real)
      case "cpu" => dir * (a.data.cpu - b.data.cpu)
      case "gpu" => dir * (a.data.gpu - b.data.gpu)
      case "memory" => dir * (a.data.memory - b.data.memory)
      case "power" => dir * (a.data.power - b.data.power)
      case _ => 0.0
  }

  /** The key comparison alone, ascending, for the keys the comparator knows. */
  function KeyOrder(sortBy: string, nameOrder: (string, string) -> int, a: Entry, b: Entry): real {
    match sortBy
    case "master" => if a.isMaster == b.isMaster then 0.0 else if a.isMaster then -1.0 else 1.0
    case "name" => nameOrder(a.name, b.name) as real
    case "cpu" => a.data.cpu - b.data.cpu
    case "gpu" => a.data.gpu - b.data.gpu
    case "memory" => a.data.memory - b.data.memory
    case "power" => a.data.power - b.data.power
    case _ => 0.0
  }

  /**
   * Outside the custom order the comparator is the key comparison, negated for "desc"; an
   * unknown key compares every pair as equal.
   */
  lemma CompareByKey(st: Settings, nameOrder: (string, string) -> int, a: Entry, b: Entry)
    requires |st.customOrder| == 0 || a.id !in st.customOrder || b.id !in st.customOrder
    ensures st.direction == Asc ==> Compare(st, nameOrder, a, b) == KeyOrder(st.sortBy, nameOrder, a, b)
    ensures st.direction == Desc ==> Compare(st, nameOrder, a, b) == -KeyOrder(st.sortBy, nameOrder, a, b)
    ensures st.sortBy !in {"master", "name", "cpu", "gpu", "memory", "power"} ==> Compare(st, nameOrder, a, b) == 0.0
  {
  }

  /** Two nodes that both appear in a non-empty custom order compare by their positions in it. */
  lemma CompareByCustomOrder(st: Settings, nameOrder: (string, string) -> int, a: Entry, b: Entry)
    requires a.id in st.customOrder && b.id in st.customOrder
    ensures Compare(st, nameOrder, a, b) < 0.0 <==> IndexOf(st.customOrder, a.id) < IndexOf(st.customOrder, b.id)
    ensures Compare(st, nameOrder, a, b) == 0.0 <==> a.id == b.id
  {
  }

  /** Sorting by "master": masters first ascending, last descending, equal flags tie. */
  lemma CompareMasters(st: Settings, nameOrder: (string, string) -> int, a: Entry, b: Entry)
    requires st.sortBy == "master" && (|st.customOrder| == 0 || a.id !in st.customOrder || b.id !in st.customOrder)
    ensures a.isMaster == b.isMaster ==> Compare(st, nameOrder, a, b) == 0.0
    ensures a.isMaster && !b.isMaster ==> (Compare(st, nameOrder, a, b) < 0.0 <==> st.direction == Asc)
    ensures !a.isMaster && b.isMaster ==> (Compare(st, nameOrder, a, b) < 0.0 <==> st.direction == Desc)
  {
  }

  // ---------------------------------------------------------------------------------------------
  // The sort

  /** Insert `x` after the last element of `s` that does not compare after it. */
  function Insert<T(==,!new)>(cmp: (T, T) -> real, s: seq<T>, x: T): (r: seq<T>)
    ensures |r| == |s| + 1
    ensures multiset(r) == multiset(s) + multiset{x}
    ensures forall y :: y in r <==> y in s || y == x
  {
    if s == [] then [x]
    else if cmp(s[|s| - 1], x) <= 0.0 then s + [x]
    else
      assert s == s[..|s| - 1] + [s[|s| - 1]];
      Insert(cmp, s[..|s| - 1], x) + [s[|s| - 1]]
  }

  /** A stable sort by `cmp`: each element in turn is inserted after everything not after it. */
  function SortBy<T(==,!new)>(cmp: (T, T) -> real, xs: seq<T>): (r: seq<T>)
    ensures |r| == |xs|
    ensures multiset(r) == multiset(xs)
    ensures forall y :: y in r <==> y in xs
  {
    if xs == [] then []
    else
      assert xs == xs[..|xs| - 1] + [xs[|xs| - 1]];
      Insert(cmp, SortBy(cmp, xs[..|xs| - 1]), xs[|xs| - 1])
  }

  /** The comparator never puts an earlier element of `s` after a later one. */
  ghost predicate Sorted<T>(cmp: (T, T) -> real, s: seq<T>) {
    forall i, j :: 0 <= i < j < |s| ==> cmp(s[i], s[j]) <= 0.0
  }

  /**
   * On the elements of `xs` the comparator is a total preorder: every pair is comparable and
   * "not after" is transitive.
   */
  ghost predicate TotalPreorderOn<T(!new)>(cmp: (T, T) -> real, xs: seq<T>) {
    && (forall a, b :: a in xs && b in xs ==> cmp(a, b) <= 0.0 || cmp(b, a) <= 0.0)
    && (forall a, b, c :: a in xs && b in xs && c in xs && cmp(a, b) <= 0.0 && cmp(b, c) <= 0.0 ==>
          cmp(a, c) <= 0.0)
  }

  lemma PreorderOnFewer<T(!new)>(cmp: (T, T) -> real, xs: seq<T>, ys: seq<T>)
    requires TotalPreorderOn(cmp, ys) && forall a :: a in xs ==> a in ys
    ensures TotalPreorderOn(cmp, xs)
  {
  }

  /** Appending an element that nothing before it compares after keeps a sequence sorted. */
  lemma SortedSnoc<T>(cmp: (T, T) -> real, s: seq<T>, y: T)
    requires Sorted(cmp, s) && forall k :: 0 <= k < |s| ==> cmp(s[k], y) <= 0.0
    ensures Sorted(cmp, s + [y])
  {
    var t := s + [y];
    forall i, j | 0 <= i < j < |t| ensures cmp(t[i], t[j]) <= 0.0 {
      if j < |s| {
        assert t[i] == s[i] && t[j] == s[j];
      } else {
        assert t[i] == s[i];
      }
    }
  }

  lemma {:induction false} InsertSorted<T(!new)>(cmp: (T, T) -> real, s: seq<T>, x: T)
    requires Sorted(cmp, s) && TotalPreorderOn(cmp, s + [x])
    ensures Sorted(cmp, Insert(cmp, s, x))
  {
    if s != [] {
      var init, last := s[..|s| - 1], s[|s| - 1];
      assert s == init + [last];
      if cmp(last, x) > 0.0 {
        PreorderOnFewer(cmp, init + [x], s + [x]);
        InsertSorted(cmp, init, x);
        InsertBefore(cmp, s, x);
      } else {
        InsertAtEnd(cmp, s, x);
      }
    }
  }

  /** `x` goes last when the last element is not after it. */
  lemma InsertAtEnd<T(!new)>(cmp: (T, T) -> real, s: seq<T>, x: T)
    requires s != [] && Sorted(cmp, s) && TotalPreorderOn(cmp, s + [x]) && cmp(s[|s| - 1], x) <= 0.0
    ensures Sorted(cmp, s + [x])
  {
    var last := s[|s| - 1];
    forall i | 0 <= i < |s| ensures cmp(s[i], x) <= 0.0 {
      if i < |s| - 1 {
        assert s[i] in s + [x] && last in s + [x] && x in s + [x];
        assert cmp(s[i], last) <= 0.0;
      }
    }
    SortedSnoc(cmp, s, x);
  }

  /** `x` goes before the last element when that element is after it. */
  lemma InsertBefore<T(!new)>(cmp: (T, T) -> real, s: seq<T>, x: T)
    requires s != [] && Sorted(cmp, s) && TotalPreorderOn(cmp, s + [x]) && cmp(s[|s| - 1], x) > 0.0
    requires Sorted(cmp, Insert(cmp, s[..|s| - 1], x))
    ensures Sorted(cmp, Insert(cmp, s[..|s| - 1], x) + [s[|s| - 1]])
  {
    var init, last := s[..|s| - 1], s[|s| - 1];
    var r := Insert(cmp, init, x);
    assert last in s + [x] && x in s + [x];
    assert cmp(x, last) <= 0.0;
    forall k | 0 <= k < |r| ensures cmp(r[k], last) <= 0.0 {
      if r[k] != x {
        assert r[k] in init;
        var m :| 0 <= m < |init| && init[m] == r[k];
        assert s[m] == r[k];
      }
    }
    SortedSnoc(cmp, r, last);
  }

  /** When the comparator is a total preorder on the elements, the result is sorted by it. */
  lemma {:induction false} SortBySorted<T(!new)>(cmp: (T, T) -> real, xs: seq<T>)
    requires TotalPreorderOn(cmp, xs)
    ensures Sorted(cmp, SortBy(cmp, xs))
  {
    if xs != [] {
      var init, last := xs[..|xs| - 1], xs[|xs| - 1];
      assert xs == init + [last];
      PreorderOnFewer(cmp, init, xs);
      SortBySorted(cmp, init);
      var sorted := SortBy(cmp, init);
      PreorderOnFewer(cmp, sorted + [last], xs);
      InsertSorted(cmp, sorted, last);
    }
  }

  /** A comparator that ties every pair leaves the order as it was: the sort is stable. */
  lemma {:induction false} AllTiesKeepOrder<T(!new)>(cmp: (T, T) -> real, xs: seq<T>)
    requires forall a, b :: a in xs && b in xs ==> cmp(a, b) == 0.0
    ensures SortBy(cmp, xs) == xs
  {
    if xs != [] {
      var init := xs[..|xs| - 1];
      assert xs == init + [xs[|xs| - 1]];
      AllTiesKeepOrder(cmp, init);
      if init != [] {
        assert init[|init| - 1] in xs;
      }
    }
  }

  /** `[...nodes].sort(comparator)`: a sorted copy; the argument is a value and stays as it was. */
  function SortNodes(st: Settings, nameOrder: (string, string) -> int, nodes: seq<Entry>): (r: seq<Entry>)
    ensures multiset(r) == multiset(nodes)
  {
    SortBy((a, b) => Compare(st, nameOrder, a, b), nodes)
  }

  /** With an unknown key and no custom order, `sortNodes` returns the nodes in their original order. */
  lemma UnknownKeyKeepsOrder(st: Settings, nameOrder: (string, string) -> int, nodes: seq<Entry>)
    requires st.customOrder == [] && st.sortBy !in {"master", "name", "cpu", "gpu", "memory", "power"}
    ensures SortNodes(st, nameOrder, nodes) == nodes
  {
    AllTiesKeepOrder((a, b) => Compare(st, nameOrder, a, b), nodes);
  }

  /** By the master flag alone, without a custom order, the comparator is a total preorder. */
  lemma MasterOrderIsPreorder(st: Settings, nameOrder: (string, string) -> int, nodes: seq<Entry>)
    requires st.sortBy == "master" && st.customOrder == []
    ensures TotalPreorderOn((a, b) => Compare(st, nameOrder, a, b), nodes)
  {
  }

  /** Sorting by "master", ascending, without a custom order: every master comes before every other node. */
  lemma MastersFirst(nameOrder: (string, string) -> int, nodes: seq<Entry>)
    ensures var r := SortNodes(Settings("master", Asc, []), nameOrder, nodes);
            forall i, j :: 0 <= i < j < |r| && r[j].isMaster ==> r[i].isMaster
  {
    var st := Settings("master", Asc, []);
    MasterOrderIsPreorder(st, nameOrder, nodes);
    SortBySorted((a, b) => Compare(st, nameOrder, a, b), nodes);
  }

  /** The same, descending: every master comes after every other node. */
  lemma MastersLastDescending(nameOrder: (string, string) -> int, nodes: seq<Entry>)
    ensures var r := SortNodes(Settings("master", Desc, []), nameOrder, nodes);
            forall i, j :: 0 <= i < j < |r| && r[i].isMaster ==> r[j].isMaster
  {
    var st := Settings("master", Desc, []);
    MasterOrderIsPreorder(st, nameOrder, nodes);
    SortBySorted((a, b) => Compare(st, nameOrder, a, b), nodes);
  }

  /** When the custom order lists every node's id, the result follows the custom order. */
  lemma CustomOrderFollowed(st: Settings, nameOrder: (string, string) -> int, nodes: seq<Entry>)
    requires forall n :: n in nodes ==> n.id in st.customOrder
    ensures var r := SortNodes(st, nameOrder, nodes);
            forall i, j :: 0 <= i < j < |r| ==> IndexOf(st.customOrder, r[i].id) <= IndexOf(st.customOrder, r[j].id)
  {
    var cmp := (a, b) => Compare(st, nameOrder, a, b);
    assert forall a, b :: a in nodes && b in nodes ==>
      cmp(a, b) == (IndexOf(st.customOrder, a.id) - IndexOf(st.customOrder, b.id)) as real;
    SortBySorted(cmp, nodes);
    var r := SortNodes(st, nameOrder, nodes);
    forall i, j | 0 <= i < j < |r|
      ensures IndexOf(st.customOrder, r[i].id) <= IndexOf(st.customOrder, r[j].id)
    {
      assert r[i] in nodes && r[j] in nodes;
    }
  }
}
