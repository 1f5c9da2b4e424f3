/**
 * The `discoverMaster` scan of src/lib/discovery.ts as a class over the variables its closures
 * share, proved against the sequential schedule and the bookkeeping of `DiscoverySpec`.
 */
module Discovery {
  import opened Wrappers
  import opened DiscoverySpec

  /**
   * The variables shared by the closures of one `discoverMaster` call, and the `masterUrl`
   * field it writes. `rejectMidSweep` is true for the code as written, whose cleanup may reject
   * while the fifth sweep is still running; the corrected scan rejects only once it is over.
   */
  class Scan {
    const network: (nat, nat) -> seq<SocketEvent>
    const rejectMidSweep: bool

    var attempts: nat
    var active: int
    var found: bool
    var sweeping: bool
    var masterUrl: Option<string>
    var outcome: Settlement
    var probes: seq<Probe>

    constructor (network: (nat, nat) -> seq<SocketEvent>, rejectMidSweep: bool)
      ensures this.network == network && this.rejectMidSweep == rejectMidSweep
      ensures attempts == 0 && active == 0 && !found && !sweeping
      ensures masterUrl == None && outcome == Pending && probes == []
    {
      this.network := network;
      this.rejectMidSweep := rejectMidSweep;
      attempts, active, found, sweeping := 0, 0, false, false;
      masterUrl, outcome, probes := None, Pending, [];
    }

    function Bookkeeping(): Book
      reads this`active, this`found, this`masterUrl, this`outcome
    {
      Book(active, found, masterUrl, outcome)
    }

    ghost predicate TracksUpTo(D: nat)
      reads this`active, this`found, this`masterUrl, this`outcome, this`probes, this`attempts
    {
      Tracks(network, rejectMidSweep, attempts, Bookkeeping(), probes, D)
    }

    method Settle(next: Settlement)
      modifies this`outcome
      ensures outcome == Settled(old(outcome), next)
    {
      if outcome.Pending? {
        outcome := next;
      }
    }

    method Cleanup()
      modifies this`active, this`outcome
      ensures Bookkeeping() == AfterCleanup(old(Bookkeeping()), attempts, rejectMidSweep, sweeping)
    {
      active := active - 1;
      if active == 0 && attempts >= MaxAttempts && !found && (rejectMidSweep || !sweeping) {
        Settle(Rejected(ExhaustedReason));
      }
    }

    /** `attemptDiscovery(ip)` up to `socket.connect`: nothing once a master was found. */
    method StartProbe(batch: nat, host: nat)
      modifies this`active, this`probes
      ensures found ==> active == old(active) && probes == old(probes)
      ensures !found ==> active == old(active) + 1 && probes == old(probes) + [Probe(attempts, batch, host)]
    {
      if found {
        return;
      }
      active := active + 1;
      probes := probes + [Probe(attempts, batch, host)];
    }

    /** The socket handlers of probe `p`, run on its events in order until the socket is destroyed. */
    method Receive(p: Probe)
      modifies this`active, this`outcome, this`found, this`masterUrl
      ensures Bookkeeping() == AfterEvents(old(Bookkeeping()), FateAt(network, p), attempts, rejectMidSweep, sweeping)
    {
      var events := network(p.sweep, p.host);
      var k := 0;
      while k < |events|
        invariant k <= |events|
        invariant FateOf(events[k..]) == FateOf(events)
        invariant Bookkeeping() == old(Bookkeeping())
      {
        match events[k] {
          case Data(Message(kind, url)) =>
            if kind == AnnounceType {
              found := true;
              masterUrl := Some(url);
              Cleanup();
              Settle(Resolved(url));
              return;
            }
          case Data(Garbage) =>
            Cleanup();
            return;
          case Timeout =>
            Cleanup();
            return;
          case Error =>
            Cleanup();
            return;
        }
        assert events[k..][1..] == events[k + 1..];
        k := k + 1;
      }
    }

    /** The inner loop of a sweep: start the probes of batch `b` (hosts 50b+1 .. 50b+50, at most 254). */
    method StartBatch(b: nat)
      requires !found && 1 <= attempts <= MaxAttempts && b * MaxConcurrent < LastHost
      requires |probes| == LastHost * (attempts - 1) + MaxConcurrent * b && probes == Started(|probes|)
      modifies this`active, this`probes
      ensures |probes| == LastHost * (attempts - 1) + BatchEnd(b) && probes == Started(|probes|)
      ensures active == old(active) + (BatchEnd(b) - MaxConcurrent * b)
    {
      ghost var base := LastHost * (attempts - 1);
      var i := MaxConcurrent * b + 1;
      var j := i;
      while j < i + MaxConcurrent && j <= LastHost
        invariant i <= j <= BatchEnd(b) + 1
        invariant probes == Started(base + j - 1)
        invariant !found && active == old(active) + (j - i)
      {
        StartProbe(b, j);
        SweepProbe(attempts, j);
        BatchOfHost(j - 1, b);
        j := j + 1;
      }
      assert j - 1 == BatchEnd(b);
    }

    /** The socket handlers of the `d`-th started probe, with the tracking carried over. */
    method ReceiveOne(d: nat)
      requires sweeping && TracksUpTo(d) && d < |probes| && probes[d].sweep == attempts
      requires attempts == MaxAttempts ==> |probes| >= EarlyRejectPoint
      requires d + 1 == EarlyRejectPoint ==> |probes| == EarlyRejectPoint && attempts == MaxAttempts
      modifies this`active, this`outcome, this`found, this`masterUrl
      ensures TracksUpTo(d + 1)
    {
      TracksReceive(network, rejectMidSweep, attempts, Bookkeeping(), probes, d);
      Receive(probes[d]);
    }

    /** The events of the probes of the batch just started, probe after probe. */
    method ReceiveBatch(b: nat, ghost from: nat)
      requires sweeping && 1 <= attempts <= MaxAttempts && MaxConcurrent * b < LastHost
      requires from == LastHost * (attempts - 1) + MaxConcurrent * b
      requires |probes| == LastHost * (attempts - 1) + BatchEnd(b)
      requires forall d :: from <= d < |probes| ==> probes[d].sweep == attempts
      requires TracksUpTo(from)
      modifies this`active, this`outcome, this`found, this`masterUrl
      ensures TracksUpTo(|probes|)
    {
      var d := LastHost * (attempts - 1) + MaxConcurrent * b;
      while d < |probes|
        invariant from <= d <= |probes|
        invariant sweeping && TracksUpTo(d)
      {
        RejectPointInBatch(attempts, b, d);
        ReceiveOne(d);
        d := d + 1;
      }
    }

    /** `StartBatch` with the tracking carried over: the new probes are open and not yet handled. */
    method StartBatchTracked(b: nat)
      requires !found && sweeping && 1 <= attempts <= MaxAttempts && MaxConcurrent * b < LastHost
      requires |probes| == LastHost * (attempts - 1) + MaxConcurrent * b && probes == Started(|probes|)
      requires TracksUpTo(|probes|)
      modifies this`active, this`probes
      ensures |probes| == LastHost * (attempts - 1) + BatchEnd(b) && probes == Started(|probes|)
      ensures old(|probes|) == LastHost * (attempts - 1) + MaxConcurrent * b && TracksUpTo(old(|probes|))
      ensures forall d :: LastHost * (attempts - 1) + MaxConcurrent * b <= d < |probes| ==>
                probes[d].sweep == attempts && probes[d].batch == b
    {
      ghost var from, to := |probes|, LastHost * (attempts - 1) + BatchEnd(b);
      ghost var bk, ps0 := Bookkeeping(), probes;
      BatchInSweep(attempts, b, Started(to));
      StartBatch(b);
      StartedPrefix(from, to);
      StartedBatchTracks(network, rejectMidSweep, attempts, bk, Bookkeeping(), ps0, probes);
    }

    /** One pass of the outer loop of `scanNetwork`: start batch `b`, then handle its events. */
    method ScanBatch(b: nat)
      requires !found && sweeping && 1 <= attempts <= MaxAttempts && MaxConcurrent * b < LastHost
      requires |probes| == LastHost * (attempts - 1) + MaxConcurrent * b && probes == Started(|probes|)
      requires TracksUpTo(|probes|)
      modifies this`active, this`probes, this`outcome, this`found, this`masterUrl
      ensures |probes| == LastHost * (attempts - 1) + BatchEnd(b) && probes == Started(|probes|)
      ensures TracksUpTo(|probes|)
      ensures found ==> FirstProbe(network, probes).Some? &&
                        FirstProbe(network, probes).value.sweep == attempts && FirstProbe(network, probes).value.batch == b
    {
      ghost var from := |probes|;
      StartBatchTracked(b);
      assert FirstProbe(network, probes[..from]).None?;
      ReceiveBatch(b, from);
      ghost var n := |probes|;
      assert TracksUpTo(n) && probes[..n] == probes;
      FirstProbeAfter(network, probes, from, attempts, b);
    }

    /**
     * One `scanNetwork` call that passes the guard: count the sweep, then start and handle the
     * batches in turn, stopping before the next batch once a master was found.
     */
    method Sweep()
      requires !found && !sweeping && attempts < MaxAttempts
      requires |probes| == LastHost * attempts && probes == Started(|probes|) && TracksUpTo(|probes|)
      modifies this`attempts, this`sweeping, this`active, this`probes, this`outcome, this`found, this`masterUrl
      ensures attempts == old(attempts) + 1 && !sweeping && TracksUpTo(|probes|)
      ensures ScheduledPrefix(probes)
      ensures !found ==> |probes| == LastHost * attempts
      ensures found ==> FirstProbe(network, probes).Some? &&
                        StopsAfterBatchOf(probes, FirstProbe(network, probes).value)
    {
      TracksNextSweep(network, rejectMidSweep, attempts, Bookkeeping(), probes, |probes|);
      attempts := attempts + 1;
      sweeping := true;
      var i := 1;
      var b := 0;  // the batch number, (i - 1) / 50
      while i <= LastHost
        invariant i == MaxConcurrent * b + 1 && b <= 6
        invariant sweeping && attempts == old(attempts) + 1 && attempts <= MaxAttempts
        invariant probes == Started(|probes|)
        invariant !found ==> |probes| == LastHost * (attempts - 1) + Min(MaxConcurrent * b, LastHost)
        invariant TracksUpTo(|probes|)
        invariant found ==> 1 <= b && MaxConcurrent * (b - 1) < LastHost
        invariant found ==> |probes| == LastHost * (attempts - 1) + BatchEnd(b - 1)
        invariant found ==> FirstProbe(network, probes).Some? &&
                            FirstProbe(network, probes).value.sweep == attempts &&
                            FirstProbe(network, probes).value.batch == b - 1
      {
        if found {
          break;
        }
        ScanBatch(b);
        i := i + MaxConcurrent;
        b := b + 1;
      }
      SweepOutcome(network, attempts, b, probes, found);
      sweeping := false;
    }

    /**
     * The whole `discoverMaster` run: `scanNetwork` re-scheduled after every sweep that found
     * nothing, until five sweeps are counted; its guard then rejects with "No master node found".
     */
    method Run()
      requires attempts == 0 && active == 0 && !found && !sweeping
      requires masterUrl == None && outcome == Pending && probes == []
      modifies this`attempts, this`sweeping, this`active, this`probes, this`outcome, this`found, this`masterUrl
      ensures found <==> FirstAnnouncer(network, probes).Some?
      ensures ScanOutcome(network, rejectMidSweep, outcome, masterUrl, probes)
    {
      TracksInit(network, rejectMidSweep);
      while !found && attempts < MaxAttempts
        invariant attempts <= MaxAttempts && !sweeping && TracksUpTo(|probes|)
        invariant ScheduledPrefix(probes)
        invariant !found ==> |probes| == LastHost * attempts
        invariant found ==> FirstProbe(network, probes).Some? &&
                            StopsAfterBatchOf(probes, FirstProbe(network, probes).value)
        decreases MaxAttempts - attempts
      {
        Sweep();
      }
      assert probes[..|probes|] == probes;
      FirstProbeIsFirstAnnouncer(network, probes);
      if rejectMidSweep && AllClosed(network, Started(ScanLength)[..EarlyRejectPoint]) {
        ClosedStartIsSeen(network, probes, found);
      }
      if !found {
        assert probes == Started(ScanLength) && !outcome.Resolved?;
        Settle(Rejected(NotFoundReason));
        assert outcome.Rejected?;
      }
    }
  }

  /**
   * One `discoverMaster` call on a fresh closure state: the settled promise, the `masterUrl` field
   * afterwards and the probes started, in order.
   */
  method Discover(network: (nat, nat) -> seq<SocketEvent>, rejectMidSweep: bool)
    returns (outcome: Settlement, masterUrl: Option<string>, probes: seq<Probe>)
    ensures ScanOutcome(network, rejectMidSweep, outcome, masterUrl, probes)
  {
    var scan := new Scan(network, rejectMidSweep);
    scan.Run();
    outcome, masterUrl, probes := scan.outcome, scan.masterUrl, scan.probes;
  }

  // ---------------------------------------------------------------------------------------------
  // A master that only answers late

  const LateUrl := "http://10.0.0.100:3899"

  /** Every host refuses, except host 100, which announces a master from the fifth sweep on. */
  function LateMaster(sweep: nat, host: nat): seq<SocketEvent> {
    if sweep == MaxAttempts && host == 100 then [Data(Message(AnnounceType, LateUrl))] else [Error]
  }

  /**
   * On that network every probe up to the end of the first batch of the fifth sweep is refused,
   * and the scan's probe of host 100 in the fifth sweep announces `LateUrl`.
   */
  lemma LateMasterAnswersLate()
    ensures AllClosed(LateMaster, Started(ScanLength)[..EarlyRejectPoint])
    ensures FirstAnnouncer(LateMaster, Started(ScanLength)) == Some(LastHost * (MaxAttempts - 1) + 99)
  {
    var full := Started(ScanLength);
    forall k | 0 <= k < EarlyRejectPoint
      ensures FateAt(LateMaster, full[..EarlyRejectPoint][k]).Closed?
    {
      StartedAt(ScanLength, k);
    }
    var f := LastHost * (MaxAttempts - 1) + 99;
    StartedAt(ScanLength, f);
    SweepProbe(MaxAttempts, 100);
    forall k | 0 <= k < f
      ensures !FateAt(LateMaster, full[k]).Announced?
    {
      StartedAt(ScanLength, k);
    }
    FirstAnnouncerIs(LateMaster, full, f);
  }

  /**
   * The code as written gives up with "No master node found after all attempts" on a network
   * where a master answers in the fifth sweep; the corrected scan resolves to its URL.
   */
  method LateMasterOutcomes() returns (asWritten: Settlement, corrected: Settlement)
    ensures asWritten == Rejected(ExhaustedReason)
    ensures corrected == Resolved(LateUrl)
  {
    LateMasterAnswersLate();
    var url, probes;
    asWritten, url, probes := Discover(LateMaster, true);
    corrected, url, probes := Discover(LateMaster, false);
    var first := FirstAnnouncer(LateMaster, probes);
    assert first.Some?;
    assert FateAt(LateMaster, probes[first.value]) == Announced(LateUrl);
  }
}
