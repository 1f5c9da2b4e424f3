/**
 * The standalone monitor of servermon.ts: the same bounded history as the agent without the GPU
 * series, and the `/api/server-data` read that reports the newest sample of each series.
 */
module Servermon {
  import opened History

  /** The current values reported by `/api/server-data`. */
  datatype Report = Report(cpu: real, memory: real, power: real, rx: real, tx: real)

  /** The six module-level series of servermon.ts. */
  class ServerHistory {
    var cpu: seq<real>
    var memory: seq<real>
    var power: seq<real>
    var rx: seq<real>
    var tx: seq<real>
    var timePoints: seq<string>

    /** All six series have one common length, within the bound. */
    ghost predicate Valid()
      reads this
    {
      && |cpu| <= HistoryLength
      && |memory| == |cpu| && |power| == |cpu| && |rx| == |cpu| && |tx| == |cpu|
      && |timePoints| == |cpu|
    }

    constructor ()
      ensures Valid() && cpu == [] && timePoints == []
    {
      cpu, memory, power, rx, tx, timePoints := [], [], [], [], [], [];
    }

    /** One tick of `updateHistory`: push one value onto each series, then trim each to the bound. */
    method Tick(c: real, m: real, p: real, r: real, t: real, stamp: string)
      requires Valid()
      modifies this
      ensures Valid()
      ensures cpu == Pushed(old(cpu), c) && memory == Pushed(old(memory), m)
      ensures power == Pushed(old(power), p) && rx == Pushed(old(rx), r) && tx == Pushed(old(tx), t)
      ensures timePoints == Pushed(old(timePoints), stamp)
    {
      var cpu', memory', power', rx', tx', timePoints' :=
        cpu + [c], memory + [m], power + [p], rx + [r], tx + [t], timePoints + [stamp];
      if |cpu'| > HistoryLength { cpu' := cpu'[1..]; }
      if |memory'| > HistoryLength { memory' := memory'[1..]; }
      if |power'| > HistoryLength { power' := power'[1..]; }
      if |rx'| > HistoryLength { rx' := rx'[1..]; }
      if |tx'| > HistoryLength { tx' := tx'[1..]; }
      if |timePoints'| > HistoryLength { timePoints' := timePoints'[1..]; }
      cpu, memory, power, rx, tx, timePoints := cpu', memory', power', rx', tx', timePoints';
    }

    /** The server-data read: the newest value of each series, or 0 while it is empty. */
    function Current(): (r: Report)
      reads this
      ensures Valid() && cpu == [] ==> r == Report(0.0, 0.0, 0.0, 0.0, 0.0)
      ensures Valid() && cpu != [] ==>
                var i := |cpu| - 1;
                r == Report(cpu[i], memory[i], power[i], rx[i], tx[i])
    {
      Report(LatestOrZero(cpu), LatestOrZero(memory), LatestOrZero(power), LatestOrZero(rx), LatestOrZero(tx))
    }
  }

  /** The report read from the series of a tick: exactly the values of that tick. */
  lemma ReportAfterTick(cpu: seq<real>, memory: seq<real>, power: seq<real>, rx: seq<real>, tx: seq<real>,
                        c: real, m: real, p: real, r: real, t: real)
    ensures Report(LatestOrZero(Pushed(cpu, c)), LatestOrZero(Pushed(memory, m)), LatestOrZero(Pushed(power, p)),
                   LatestOrZero(Pushed(rx, r)), LatestOrZero(Pushed(tx, t)))
            == Report(c, m, p, r, t)
  {
    LatestAfterTick(cpu, c);
    LatestAfterTick(memory, m);
    LatestAfterTick(power, p);
    LatestAfterTick(rx, r);
    LatestAfterTick(tx, t);
  }
}
