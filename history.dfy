/**
 * The bounded metric history kept by a node (inframon.ts): one sample per tick is pushed onto
 * every series, and a series that grows past `HistoryLength` loses its oldest entry. Samples
 * are stored, never computed on, so they are modelled as `real` values; the time labels are
 * strings.
 */
module History {

  /** One hour of one-second samples. */
  const HistoryLength := 3600

  function Min(a: int, b: int): int {
    if a <= b then a else b
  }

  /** A series after one tick: `push(x)`, then `shift()` when it is longer than the bound. */
  function Pushed<T>(s: seq<T>, x: T): (r: seq<T>)
    ensures |r| == if |s| + 1 > HistoryLength then |s| else |s| + 1
    ensures r[|r| - 1] == x
  {
    var grown := s + [x];
    if |grown| > HistoryLength then grown[1..] else grown
  }

  /** A tick keeps the bound and adds one entry until it is reached. */
  lemma PushedBounded<T>(s: seq<T>, x: T)
    requires |s| <= HistoryLength
    ensures |Pushed(s, x)| == Min(|s| + 1, HistoryLength)
  {
  }

  /** Below the bound a tick only appends; at the bound it drops the oldest and appends (FIFO). */
  lemma PushedFifo<T>(s: seq<T>, x: T)
    ensures |s| < HistoryLength ==> Pushed(s, x) == s + [x]
    ensures |s| == HistoryLength ==> Pushed(s, x) == s[1..] + [x]
  {
  }

  /** The series after recording every sample of `xs`, one tick each, from an empty series. */
  function Recorded<T>(xs: seq<T>): seq<T> {
    if xs == [] then [] else Pushed(Recorded(xs[..|xs| - 1]), xs[|xs| - 1])
  }

  /** A series always holds exactly the latest `HistoryLength` samples, oldest first. */
  lemma {:induction false} RecordedIsWindow<T>(xs: seq<T>)
    ensures Recorded(xs) == xs[|xs| - Min(|xs|, HistoryLength)..]
  {
    if xs != [] {
      var init := xs[..|xs| - 1];
      RecordedIsWindow(init);
      var w := init[|init| - Min(|init|, HistoryLength)..];
      assert w + [xs[|xs| - 1]] == xs[|init| - Min(|init|, HistoryLength)..];
      if |w| + 1 > HistoryLength {
        assert (w + [xs[|xs| - 1]])[1..] == xs[|xs| - Min(|xs|, HistoryLength)..];
      }
    }
  }

  /** The "latest or 0" read: the newest sample, 0 for an empty series (JavaScript `|| 0`). */
  function LatestOrZero(s: seq<real>): (r: real)
    ensures s == [] ==> r == 0.0
    ensures s != [] ==> r == s[|s| - 1]
  {
    if s == [] then 0.0 else s[|s| - 1]
  }

  /** Reading right after a tick gives back the sample of that tick. */
  lemma LatestAfterTick(s: seq<real>, x: real)
    ensures LatestOrZero(Pushed(s, x)) == x
  {
  }

  /** The seven series of the agent: CPU, GPU, memory, power, network rx/tx and the time labels. */
  class AgentHistory {
    var cpu: seq<real>
    var gpu: seq<real>
    var memory: seq<real>
    var power: seq<real>
    var rx: seq<real>
    var tx: seq<real>
    var timePoints: seq<string>

    /** All series have one common length, within the bound. */
    ghost predicate Valid()
      reads this
    {
      && |cpu| <= HistoryLength
      && |gpu| == |cpu| && |memory| == |cpu| && |power| == |cpu|
      && |rx| == |cpu| && |tx| == |cpu| && |timePoints| == |cpu|
    }

    constructor ()
      ensures Valid() && cpu == [] && timePoints == []
    {
      cpu, gpu, memory, power, rx, tx, timePoints := [], [], [], [], [], [], [];
    }

    /** One sampling tick: push every sample, then shift every series that outgrew the bound. */
    method Tick(c: real, g: real, m: real, p: real, r: real, t: real, stamp: string)
      requires Valid()
      modifies this
      ensures Valid()
      ensures cpu == Pushed(old(cpu), c) && gpu == Pushed(old(gpu), g)
      ensures memory == Pushed(old(memory), m) && power == Pushed(old(power), p)
      ensures rx == Pushed(old(rx), r) && tx == Pushed(old(tx), t)
      ensures timePoints == Pushed(old(timePoints), stamp)
    {
      var cpu', gpu', memory', power', rx', tx', timePoints' :=
        cpu + [c], gpu + [g], memory + [m], power + [p], rx + [r], tx + [t], timePoints + [stamp];
      if |cpu'| > HistoryLength { cpu' := cpu'[1..]; }
      if |memory'| > HistoryLength { memory' := memory'[1..]; }
      if |power'| > HistoryLength { power' := power'[1..]; }
      if |rx'| > HistoryLength { rx' := rx'[1..]; }
      if |tx'| > HistoryLength { tx' := tx'[1..]; }
      if |gpu'| > HistoryLength { gpu' := gpu'[1..]; }
      if |timePoints'| > HistoryLength { timePoints' := timePoints'[1..]; }
      cpu, gpu, memory, power, rx, tx, timePoints := cpu', gpu', memory', power', rx', tx', timePoints';
    }
  }
}
