/**
 * Peer discovery of src/lib/discovery.ts. The master answers a TCP probe on port 3898 with an
 * announcement carrying its registry URL; a slave probes hosts 1..254 of its subnet in batches of
 * 50, up to five sweeps, and settles a promise with the first announced URL or a rejection.
 *
 * Sockets are not modelled: what a probe of host `h` in sweep `s` receives is the input
 * `network(s, h)`, a list of socket events in arrival order. The schedule is sequential: all
 * probes of a batch are started, then the events of each probe of the batch are handled in
 * batch order, then the next batch starts.
 */
module DiscoverySpec {
  import opened Wrappers
  import opened Text

  const DiscoveryPort := 3898
  const ProbeText := "INFRAMON_DISCOVERY"
  const AnnounceType := "MASTER_ANNOUNCE"
  const MaxAttempts := 5
  const MaxConcurrent := 50
  const LastHost := 254
  const FallbackSubnet := "192.168.1."
  const ExhaustedReason := "No master node found after all attempts"
  const NotFoundReason := "No master node found"

  function Min(a: int, b: int): int {
    if a <= b then a else b
  }

  // ---------------------------------------------------------------------------------------------
  // The subnet prefix

  /** One address of a network interface, as the operating system lists it. */
  datatype Alias = Alias(family: string, internal: bool, address: string)

  predicate IsExternalIPv4(a: Alias) {
    a.family == "IPv4" && !a.internal
  }

  /** The position of the first non-internal IPv4 alias. */
  function FirstExternal(aliases: seq<Alias>): (r: Option<nat>)
    ensures r.Some? ==> r.value < |aliases| && IsExternalIPv4(aliases[r.value])
    ensures r.Some? ==> forall k :: 0 <= k < r.value ==> !IsExternalIPv4(aliases[k])
    ensures r.None? ==> forall k :: 0 <= k < |aliases| ==> !IsExternalIPv4(aliases[k])
  {
    if aliases == [] then None
    else if IsExternalIPv4(aliases[0]) then Some(0)
    else match FirstExternal(aliases[1..])
      case Some(k) => Some(k + 1)
      case None => None
  }

  /** `address.split('.').slice(0, 3).join('.') + '.'`. */
  function SubnetPrefix(address: string): (r: string)
    ensures |r| >= 1 && r[|r| - 1] == '.'
  {
    var octets := Split(address, '.');
    Join(octets[..Min(|octets|, 3)], '.') + "."
  }

  /** Of a dotted quad, the prefix keeps the first three octets and their dots. */
  lemma SubnetOfDottedQuad(a: string, b: string, c: string, d: string)
    requires '.' !in a && '.' !in b && '.' !in c && '.' !in d
    ensures SubnetPrefix(a + "." + b + "." + c + "." + d) == a + "." + b + "." + c + "."
  {
    var s := a + ['.'] + (b + ['.'] + (c + ['.'] + d));
    assert s == a + "." + b + "." + c + "." + d;
    SplitQuad(a, b, c, d);
    var octets := Split(s, '.');
    assert octets[..Min(|octets|, 3)] == [a, b, c];
    JoinThree(a, b, c);
  }

  lemma SplitQuad(a: string, b: string, c: string, d: string)
    requires '.' !in a && '.' !in b && '.' !in c && '.' !in d
    ensures Split(a + ['.'] + (b + ['.'] + (c + ['.'] + d)), '.') == [a, b, c, d]
  {
    SplitWithoutSeparator(d, '.');
    SplitCons(c, d, '.');
    SplitCons(b, c + ['.'] + d, '.');
    SplitCons(a, b + ['.'] + (c + ['.'] + d), '.');
  }

  lemma JoinThree(a: string, b: string, c: string)
    ensures Join([a, b, c], '.') == a + "." + b + "." + c
  {
    assert [a, b, c][1..] == [b, c];
    assert [b, c][1..] == [c];
    assert Join([c], '.') == c;
    assert Join([b, c], '.') == b + ['.'] + c;
    assert Join([a, b, c], '.') == a + ['.'] + (b + ['.'] + c);
  }

  /** The first non-internal IPv4 alias, interface after interface. */
  function FirstExternalIn(interfaces: seq<seq<Alias>>): (r: Option<Alias>)
    ensures r.Some? ==> IsExternalIPv4(r.value)
    ensures r.Some? ==> exists i :: FirstExternalAt(interfaces, i) && r.value == interfaces[i][FirstExternal(interfaces[i]).value]
    ensures r.None? ==> forall i :: 0 <= i < |interfaces| ==> FirstExternal(interfaces[i]).None?
  {
    if interfaces == [] then None
    else match FirstExternal(interfaces[0])
      case Some(k) =>
        assert FirstExternalAt(interfaces, 0);
        Some(interfaces[0][k])
      case None =>
        var r := FirstExternalIn(interfaces[1..]);
        if r.Some? then
          var i :| FirstExternalAt(interfaces[1..], i) && r.value == interfaces[1..][i][FirstExternal(interfaces[1..][i]).value];
          assert FirstExternalAt(interfaces, i + 1);
          r
        else r
  }

  /** Interface `i` is the first, in interface order, with a non-internal IPv4 alias. */
  predicate FirstExternalAt(interfaces: seq<seq<Alias>>, i: int) {
    && 0 <= i < |interfaces|
    && FirstExternal(interfaces[i]).Some?
    && forall j :: 0 <= j < i ==> FirstExternal(interfaces[j]).None?
  }

  /** `getSubnet`: the prefix of the first non-internal IPv4 address, else the fallback. */
  method GetSubnet(interfaces: seq<seq<Alias>>) returns (subnet: string)
    ensures FirstExternalIn(interfaces).Some? ==> subnet == SubnetPrefix(FirstExternalIn(interfaces).value.address)
    ensures FirstExternalIn(interfaces).None? ==> subnet == FallbackSubnet
  {
    for i := 0 to |interfaces|
      invariant FirstExternalIn(interfaces[i..]) == FirstExternalIn(interfaces)
    {
      assert interfaces[i..][1..] == interfaces[i + 1..];
      for j := 0 to |interfaces[i]|
        invariant forall k :: 0 <= k < j ==> !IsExternalIPv4(interfaces[i][k])
      {
        var alias := interfaces[i][j];
        if alias.family == "IPv4" && !alias.internal {
          FirstExternalUnique(interfaces[i], j);
          return SubnetPrefix(alias.address);
        }
      }
    }
    subnet := FallbackSubnet;
  }

  lemma FirstExternalUnique(aliases: seq<Alias>, k: nat)
    requires k < |aliases| && IsExternalIPv4(aliases[k])
    requires forall j :: 0 <= j < k ==> !IsExternalIPv4(aliases[j])
    ensures FirstExternal(aliases) == Some(k)
  {
  }

  // ---------------------------------------------------------------------------------------------
  // The probe/announce exchange

  /** A reply as the slave parses it: unparseable text, or an object with a `type` and a `url`. */
  datatype Reply = Garbage | Message(kind: string, url: string)

  /** The URL of the master's registry, built from its own address. */
  function AnnouncedUrl(localIp: string): string {
    "http://" + localIp + ":3899"
  }

  /**
   * `startMaster`'s data handler: the announcement for the exact probe text (after which the
   * master ends the socket), nothing for anything else.
   */
  function Respond(data: string, localIp: string): (r: Option<Reply>)
    ensures r.Some? <==> data == ProbeText
    ensures r.Some? ==> r.value == Message(AnnounceType, AnnouncedUrl(localIp))
  {
    if data == ProbeText then Some(Message(AnnounceType, AnnouncedUrl(localIp))) else None
  }

  /** What a probe socket can receive. */
  datatype SocketEvent = Data(reply: Reply) | Timeout | Error

  /** What a probe's events amount to: an announcement, a cleaned-up socket, or one still open. */
  datatype Fate = Announced(url: string) | Closed | Open

  /** A parsed reply of a type other than the announcement: the data handler ignores it. */
  predicate Ignorable(e: SocketEvent) {
    e.Data? && e.reply.Message? && e.reply.kind != AnnounceType
  }

  /** What one handler does with an event it does not ignore: resolve on an announcement, else clean up. */
  function Verdict(e: SocketEvent): (f: Fate)
    ensures f.Announced? <==> e.Data? && e.reply.Message? && e.reply.kind == AnnounceType
    ensures f != Open
  {
    match e
    case Data(Message(kind, url)) => if kind == AnnounceType then Announced(url) else Closed
    case _ => Closed
  }

  /** Event `i` is the first one the handlers do not ignore. */
  predicate FirstDecidingAt(events: seq<SocketEvent>, i: int) {
    && 0 <= i < |events|
    && !Ignorable(events[i])
    && forall j :: 0 <= j < i ==> Ignorable(events[j])
  }

  /**
   * The handlers applied to the events in order: an announcement resolves, unparseable data, a
   * timeout or an error cleans up, and a parsed reply of any other type is ignored. After a
   * cleanup the socket is destroyed and hears nothing more.
   */
  function FateOf(events: seq<SocketEvent>): (f: Fate)
    ensures f.Announced? ==> exists i :: 0 <= i < |events| && events[i] == Data(Message(AnnounceType, f.url))
    ensures !f.Open? ==> events != []
    ensures f.Open? ==> forall i :: 0 <= i < |events| ==> Ignorable(events[i])
    ensures !f.Open? ==> exists i :: FirstDecidingAt(events, i) && f == Verdict(events[i])
  {
    if events == [] then Open
    else match events[0]
      case Data(Message(kind, url)) => if kind == AnnounceType then Announced(url) else FateOf(events[1..])
      case _ => Closed
  }

  /** A master's reply to the probe text makes the probe announce the master's registry URL. */
  lemma ProbeFindsMaster(localIp: string, before: seq<SocketEvent>, after: seq<SocketEvent>)
    requires forall i :: 0 <= i < |before| ==> Ignorable(before[i])
    ensures FateOf(before + [Data(Respond(ProbeText, localIp).value)] + after) == Announced(AnnouncedUrl(localIp))
  {
    IgnoredPrefix(before, [Data(Respond(ProbeText, localIp).value)] + after);
    assert before + [Data(Respond(ProbeText, localIp).value)] + after
        == before + ([Data(Respond(ProbeText, localIp).value)] + after);
  }

  /**
   * Unparseable data, a timeout or an error after replies the handler ignores cleans the probe
   * up, whatever arrives afterwards.
   */
  lemma ProbeCleansUp(before: seq<SocketEvent>, e: SocketEvent, after: seq<SocketEvent>)
    requires forall i :: 0 <= i < |before| ==> Ignorable(before[i])
    requires e == Data(Garbage) || e == Timeout || e == Error
    ensures FateOf(before + [e] + after) == Closed
  {
    IgnoredPrefix(before, [e] + after);
    assert before + [e] + after == before + ([e] + after);
  }

  /** Replies the handler ignores change nothing about what follows them. */
  lemma IgnoredPrefix(before: seq<SocketEvent>, rest: seq<SocketEvent>)
    requires forall i :: 0 <= i < |before| ==> Ignorable(before[i])
    ensures FateOf(before + rest) == FateOf(rest)
  {
    var events := before + rest;
    var k := 0;
    while k < |before|
      invariant k <= |before|
      invariant FateOf(events) == FateOf(events[k..])
    {
      assert events[k..][1..] == events[k + 1..];
      k := k + 1;
    }
    assert events[|before|..] == rest;
  }

  // ---------------------------------------------------------------------------------------------
  // The sweep schedule

  /**
   * One started probe: its sweep (1..5), batch (0..5) and host suffix (1..254); the address it
   * connects to is the subnet prefix followed by the decimal host suffix.
   */
  datatype Probe = Probe(sweep: nat, batch: nat, host: nat)

  /** The last host of batch `b`. */
  function BatchEnd(b: nat): nat {
    Min(MaxConcurrent * b + MaxConcurrent, LastHost)
  }

  /**
   * The `k`-th probe of the scan, counting from 0: sweeps of 254 hosts one after the other,
   * each sweep from host 1 up, the hosts grouped in batches of fifty.
   */
  function NthProbe(k: nat): Probe {
    var host := k % LastHost + 1;
    Probe(k / LastHost + 1, (host - 1) / MaxConcurrent, host)
  }

  /** The first `n` probes of the scan, in the order they are started. */
  function Started(n: nat): (r: seq<Probe>)
    ensures |r| == n
  {
    if n == 0 then [] else Started(n - 1) + [NthProbe(n - 1)]
  }

  /** All probes of the five sweeps. */
  const ScanLength := LastHost * MaxAttempts

  lemma BatchOfHost(k: int, b: int)
    requires MaxConcurrent * b <= k < MaxConcurrent * b + MaxConcurrent
    ensures k / MaxConcurrent == b
  {
  }

  /** The probe of host `host` in sweep `a`. */
  lemma SweepProbe(a: nat, host: nat)
    requires 1 <= a && 1 <= host <= LastHost
    ensures NthProbe(LastHost * (a - 1) + host - 1) == Probe(a, (host - 1) / MaxConcurrent, host)
  {
    var k := LastHost * (a - 1) + host - 1;
    assert k / LastHost == a - 1 && k % LastHost == host - 1;
  }

  /** The `k`-th of the first `n` probes is the `k`-th probe of the scan. */
  lemma {:induction false} StartedAt(n: nat, k: nat)
    requires k < n
    ensures Started(n)[k] == NthProbe(k)
  {
    if k < n - 1 {
      StartedAt(n - 1, k);
    }
  }

  /** Fewer probes are a prefix of more probes. */
  lemma {:induction false} StartedPrefix(m: nat, n: nat)
    requires m <= n
    ensures Started(m) == Started(n)[..m]
  {
    if m < n {
      StartedPrefix(m, n - 1);
      assert Started(n)[..n - 1] == Started(n - 1);
    }
  }

  /**
   * Sweep `a` is the stretch of 254 probes that visits every host suffix 1..254 once, ascending,
   * each in a batch of at most 50, every probe carrying the sweep number.
   */
  lemma SweepVisitsEveryHostOnce(a: nat)
    requires 1 <= a <= MaxAttempts
    ensures forall k :: LastHost * (a - 1) <= k < LastHost * a ==>
      var p := Started(ScanLength)[k];
      && p.host == k - LastHost * (a - 1) + 1 && p.sweep == a
      && MaxConcurrent * p.batch < p.host <= BatchEnd(p.batch)
  {
    forall k | LastHost * (a - 1) <= k < LastHost * a
      ensures var p := Started(ScanLength)[k];
              && p.host == k - LastHost * (a - 1) + 1 && p.sweep == a
              && MaxConcurrent * p.batch < p.host <= BatchEnd(p.batch)
    {
      var host := k - LastHost * (a - 1) + 1;
      StartedAt(ScanLength, k);
      SweepProbe(a, host);
      var b := (host - 1) / MaxConcurrent;
      assert MaxConcurrent * b <= host - 1 < MaxConcurrent * b + MaxConcurrent;
    }
  }

  // ---------------------------------------------------------------------------------------------
  // What a log of started probes amounts to

  function FateAt(network: (nat, nat) -> seq<SocketEvent>, p: Probe): Fate {
    FateOf(network(p.sweep, p.host))
  }

  /** The index of the first probe in `ps` whose events announce a master. */
  function FirstAnnouncer(network: (nat, nat) -> seq<SocketEvent>, ps: seq<Probe>): (r: Option<nat>)
    ensures r.Some? ==> r.value < |ps| && FateAt(network, ps[r.value]).Announced?
    ensures r.Some? ==> forall j :: 0 <= j < r.value ==> !FateAt(network, ps[j]).Announced?
    ensures r.None? ==> forall j :: 0 <= j < |ps| ==> !FateAt(network, ps[j]).Announced?
  {
    if ps == [] then None
    else
      var r := FirstAnnouncer(network, ps[..|ps| - 1]);
      if r.Some? then r
      else if FateAt(network, ps[|ps| - 1]).Announced? then Some(|ps| - 1)
      else None
  }

  /** A probe that announces after only silent or refused ones is the first announcer. */
  lemma FirstAnnouncerIs(network: (nat, nat) -> seq<SocketEvent>, ps: seq<Probe>, f: nat)
    requires f < |ps| && FateAt(network, ps[f]).Announced?
    requires forall k :: 0 <= k < f ==> !FateAt(network, ps[k]).Announced?
    ensures FirstAnnouncer(network, ps) == Some(f)
  {
  }

  /** The first announcing probe itself, as the handlers meet it probe after probe. */
  function FirstProbe(network: (nat, nat) -> seq<SocketEvent>, ps: seq<Probe>): (r: Option<Probe>)
    ensures r.Some? ==> r.value in ps && FateAt(network, r.value).Announced?
  {
    if ps == [] then None
    else
      var r := FirstProbe(network, ps[..|ps| - 1]);
      if r.Some? then r
      else if FateAt(network, ps[|ps| - 1]).Announced? then Some(ps[|ps| - 1])
      else None
  }

  /** The URL announced last in `ps`. */
  function LastUrl(network: (nat, nat) -> seq<SocketEvent>, ps: seq<Probe>): Option<string> {
    if ps == [] then None
    else if FateAt(network, ps[|ps| - 1]).Announced? then Some(FateAt(network, ps[|ps| - 1]).url)
    else LastUrl(network, ps[..|ps| - 1])
  }

  /** Every probe in `ps` was cleaned up without an announcement. */
  ghost predicate AllClosed(network: (nat, nat) -> seq<SocketEvent>, ps: seq<Probe>) {
    forall j :: 0 <= j < |ps| ==> FateAt(network, ps[j]).Closed?
  }

  /** How many probes at the front of `ps` were cleaned up without an announcement, one after the other. */
  function ClosedRun(network: (nat, nat) -> seq<SocketEvent>, ps: seq<Probe>): (n: nat)
    ensures n <= |ps|
  {
    if ps == [] then 0
    else
      var r := ClosedRun(network, ps[..|ps| - 1]);
      if r == |ps| - 1 && FateAt(network, ps[|ps| - 1]).Closed? then |ps| else r
  }

  /** `FirstProbe` is the probe at the index `FirstAnnouncer` finds. */
  lemma {:induction false} FirstProbeIsFirstAnnouncer(network: (nat, nat) -> seq<SocketEvent>, ps: seq<Probe>)
    ensures FirstProbe(network, ps) ==
              if FirstAnnouncer(network, ps).Some? then Some(ps[FirstAnnouncer(network, ps).value]) else None
  {
    if ps != [] {
      var init := ps[..|ps| - 1];
      FirstProbeIsFirstAnnouncer(network, init);
      if FirstAnnouncer(network, init).Some? {
        assert init[FirstAnnouncer(network, init).value] == ps[FirstAnnouncer(network, init).value];
      }
    }
  }

  /** The refused run covers the first `k` probes exactly when they were all refused. */
  lemma {:induction false} ClosedRunIsAllClosed(network: (nat, nat) -> seq<SocketEvent>, ps: seq<Probe>, k: nat)
    requires k <= |ps|
    ensures k <= ClosedRun(network, ps) <==> AllClosed(network, ps[..k])
  {
    if ps != [] {
      var init := ps[..|ps| - 1];
      if k < |ps| {
        ClosedRunIsAllClosed(network, init, k);
        assert init[..k] == ps[..k];
      } else {
        ClosedRunIsAllClosed(network, init, |init|);
        assert init[..|init|] == init;
        assert ps[..k] == init + [ps[|ps| - 1]];
      }
    }
  }

  /** When none of the first `from` probes announced, the first announcer is one of the rest. */
  lemma {:induction false} FirstProbeAfter(network: (nat, nat) -> seq<SocketEvent>, ps: seq<Probe>, from: nat, a: nat, b: nat)
    requires from <= |ps| && FirstProbe(network, ps[..from]).None?
    requires forall j :: from <= j < |ps| ==> ps[j].sweep == a && ps[j].batch == b
    ensures FirstProbe(network, ps).Some? ==> FirstProbe(network, ps).value.sweep == a && FirstProbe(network, ps).value.batch == b
  {
    if |ps| == from {
      assert ps[..from] == ps;
    } else {
      var init := ps[..|ps| - 1];
      assert init[..from] == ps[..from];
      FirstProbeAfter(network, init, from, a, b);
    }
  }

  /** The scan stopped right after the batch of probe `p`: the last started probe ends that batch. */
  ghost predicate StopsAfterBatchOf(ps: seq<Probe>, p: Probe) {
    |ps| > 0 &&
    var last := ps[|ps| - 1];
    p.sweep == last.sweep && p.batch == last.batch && last.host == BatchEnd(last.batch)
  }

  /**
   * When every probe up to the end of the first batch of the fifth sweep was refused, the last
   * refusal of that batch leaves no connection open with every sweep counted.
   */
  const EarlyRejectPoint := LastHost * (MaxAttempts - 1) + MaxConcurrent

  // ---------------------------------------------------------------------------------------------
  // The scan state machine

  /** The state of the promise `discoverMaster` returns. */
  datatype Settlement = Pending | Resolved(url: string) | Rejected(reason: string)

  /** `resolve`/`reject`: only the first call has an effect. */
  function Settled(current: Settlement, next: Settlement): Settlement {
    if current.Pending? then next else current
  }

  /** The bookkeeping the socket handlers change: open connections, the flag, the URL, the promise. */
  datatype Book = Book(active: int, found: bool, masterUrl: Option<string>, outcome: Settlement)

  /**
   * `cleanup`: one connection fewer; reject once none is open, all sweeps are counted and no
   * master was seen (in the corrected scan, only once the last sweep is over).
   */
  function AfterCleanup(bk: Book, attempts: nat, rejectMidSweep: bool, sweeping: bool): Book {
    var active := bk.active - 1;
    var exhausted := active == 0 && attempts >= MaxAttempts && !bk.found && (rejectMidSweep || !sweeping);
    bk.(active := active, outcome := if exhausted then Settled(bk.outcome, Rejected(ExhaustedReason)) else bk.outcome)
  }

  /** The effect of all the events of one probe: an announcement sets the flag and URL, cleans up, then resolves. */
  function AfterEvents(bk: Book, fate: Fate, attempts: nat, rejectMidSweep: bool, sweeping: bool): Book {
    match fate
    case Open => bk
    case Closed => AfterCleanup(bk, attempts, rejectMidSweep, sweeping)
    case Announced(url) =>
      var cleaned := AfterCleanup(bk.(found := true, masterUrl := Some(url)), attempts, rejectMidSweep, sweeping);
      cleaned.(outcome := Settled(cleaned.outcome, Resolved(url)))
  }

  /**
   * What handling the events of the first `D` started probes has done: the flag, the URL and
   * the promise follow the first and the last announcement; while every handled probe was
   * refused, the open connections are exactly the started ones not yet handled, and the promise
   * is rejected from the end of the first batch of the fifth sweep on, in the code as written.
   */
  ghost predicate Tracks(network: (nat, nat) -> seq<SocketEvent>, rejectMidSweep: bool, attempts: nat,
                         bk: Book, probes: seq<Probe>, D: nat)
  {
    && D <= |probes| && attempts <= MaxAttempts
    && var done := probes[..D];
       var first := FirstProbe(network, done);
       var closed := ClosedRun(network, done);
       && (bk.found <==> first.Some?)
       && bk.masterUrl == LastUrl(network, done)
       && (first.Some? ==> !bk.outcome.Pending?)
       && (bk.outcome.Resolved? ==> first.Some? && bk.outcome.url == FateAt(network, first.value).url)
       && (first.Some? && (first.value.sweep < MaxAttempts || !rejectMidSweep) ==>
             bk.outcome == Resolved(FateAt(network, first.value).url))
       && (bk.outcome.Rejected? ==> bk.outcome == Rejected(ExhaustedReason) && rejectMidSweep && attempts == MaxAttempts)
       && (closed == D ==> bk.active == |probes| - D)
       && (closed == D && D < EarlyRejectPoint ==> bk.outcome.Pending?)
       && (rejectMidSweep && EarlyRejectPoint <= closed ==> bk.outcome == Rejected(ExhaustedReason))
  }

  lemma TracksStart(network: (nat, nat) -> seq<SocketEvent>, rejectMidSweep: bool, attempts: nat,
                    bk: Book, probes: seq<Probe>, D: nat, p: Probe)
    requires Tracks(network, rejectMidSweep, attempts, bk, probes, D)
    ensures Tracks(network, rejectMidSweep, attempts, bk.(active := bk.active + 1), probes + [p], D)
  {
    assert (probes + [p])[..D] == probes[..D];
  }

  /** Starting several probes at once: each adds an open connection, nothing else changes. */
  lemma {:induction false} TracksStartMany(network: (nat, nat) -> seq<SocketEvent>, rejectMidSweep: bool, attempts: nat,
                                           bk: Book, probes: seq<Probe>, D: nat, started: seq<Probe>)
    requires Tracks(network, rejectMidSweep, attempts, bk, probes, D)
    ensures Tracks(network, rejectMidSweep, attempts, bk.(active := bk.active + |started|), probes + started, D)
  {
    if started == [] {
      assert probes + started == probes;
    } else {
      var init := started[..|started| - 1];
      TracksStartMany(network, rejectMidSweep, attempts, bk, probes, D, init);
      TracksStart(network, rejectMidSweep, attempts, bk.(active := bk.active + |init|), probes + init, D, started[|started| - 1]);
      assert probes + init + [started[|started| - 1]] == probes + started;
    }
  }

  /** Starting the probes that extend `ps0` to `ps` keeps the tracking. */
  lemma StartedBatchTracks(network: (nat, nat) -> seq<SocketEvent>, rejectMidSweep: bool, attempts: nat,
                           bk: Book, bk': Book, ps0: seq<Probe>, ps: seq<Probe>)
    requires Tracks(network, rejectMidSweep, attempts, bk, ps0, |ps0|)
    requires |ps0| <= |ps| && ps0 == ps[..|ps0|]
    requires bk' == bk.(active := bk.active + (|ps| - |ps0|))
    ensures Tracks(network, rejectMidSweep, attempts, bk', ps, |ps0|)
  {
    var rest := ps[|ps0|..];
    assert ps0 + rest == ps;
    TracksStartMany(network, rejectMidSweep, attempts, bk, ps0, |ps0|, rest);
    assert bk.(active := bk.active + |rest|) == bk';
  }

  /** The probes of batch `b` of sweep `a` all carry sweep number `a` and batch number `b`. */
  lemma BatchInSweep(a: nat, b: nat, ps: seq<Probe>)
    requires 1 <= a && MaxConcurrent * b < LastHost
    requires ps == Started(LastHost * (a - 1) + BatchEnd(b))
    ensures forall d :: LastHost * (a - 1) + MaxConcurrent * b <= d < |ps| ==> ps[d].sweep == a && ps[d].batch == b
  {
    forall d | LastHost * (a - 1) + MaxConcurrent * b <= d < |ps|
      ensures ps[d].sweep == a && ps[d].batch == b
    {
      StartedAt(|ps|, d);
      SweepProbe(a, d - LastHost * (a - 1) + 1);
      BatchOfHost(d - LastHost * (a - 1), b);
    }
  }

  /** Within a batch, `EarlyRejectPoint` is reached only at the end of the first batch of the fifth sweep. */
  lemma RejectPointInBatch(a: nat, b: nat, d: nat)
    requires 1 <= a <= MaxAttempts && MaxConcurrent * b < LastHost
    requires LastHost * (a - 1) + MaxConcurrent * b <= d < LastHost * (a - 1) + BatchEnd(b)
    ensures a == MaxAttempts ==> LastHost * (a - 1) + BatchEnd(b) >= EarlyRejectPoint
    ensures d + 1 == EarlyRejectPoint ==> LastHost * (a - 1) + BatchEnd(b) == EarlyRejectPoint && a == MaxAttempts
  {
  }

  lemma TracksNextSweep(network: (nat, nat) -> seq<SocketEvent>, rejectMidSweep: bool, attempts: nat,
                        bk: Book, probes: seq<Probe>, D: nat)
    requires Tracks(network, rejectMidSweep, attempts, bk, probes, D) && attempts < MaxAttempts
    ensures Tracks(network, rejectMidSweep, attempts + 1, bk, probes, D)
  {
  }

  /** Handling the events of the next probe of the current sweep keeps the tracking. */
  lemma TracksReceive(network: (nat, nat) -> seq<SocketEvent>, rejectMidSweep: bool, attempts: nat,
                      bk: Book, probes: seq<Probe>, D: nat)
    requires Tracks(network, rejectMidSweep, attempts, bk, probes, D)
    requires D < |probes| && probes[D].sweep == attempts
    requires attempts == MaxAttempts ==> |probes| >= EarlyRejectPoint
    requires D + 1 == EarlyRejectPoint ==> |probes| == EarlyRejectPoint && attempts == MaxAttempts
    ensures Tracks(network, rejectMidSweep, attempts,
                   AfterEvents(bk, FateAt(network, probes[D]), attempts, rejectMidSweep, true), probes, D + 1)
  {
    assert probes[..D + 1][..D] == probes[..D];
  }

  /** `ps` is how the five-sweep scan begins. */
  ghost predicate ScheduledPrefix(ps: seq<Probe>) {
    |ps| <= ScanLength && ps == Started(|ps|)
  }

  /** What a sweep that ended before batch `b` leaves: the full sweep, or a prefix ending with the announcer's batch. */
  lemma SweepOutcome(network: (nat, nat) -> seq<SocketEvent>, a: nat, b: nat, ps: seq<Probe>, found: bool)
    requires 1 <= a <= MaxAttempts && b <= 6 && (found || LastHost < MaxConcurrent * b + 1)
    requires ps == Started(|ps|)
    requires !found ==> |ps| == LastHost * (a - 1) + Min(MaxConcurrent * b, LastHost)
    requires found ==> 1 <= b && MaxConcurrent * (b - 1) < LastHost
    requires found ==> |ps| == LastHost * (a - 1) + BatchEnd(b - 1)
    requires found ==> FirstProbe(network, ps).Some? &&
                       FirstProbe(network, ps).value.sweep == a && FirstProbe(network, ps).value.batch == b - 1
    ensures ScheduledPrefix(ps)
    ensures !found ==> |ps| == LastHost * a
    ensures found ==> StopsAfterBatchOf(ps, FirstProbe(network, ps).value)
  {
    if found {
      StartedAt(|ps|, |ps| - 1);
      SweepProbe(a, BatchEnd(b - 1));
      BatchOfHost(BatchEnd(b - 1) - 1, b - 1);
    }
  }

  /**
   * When the first batch of the fifth sweep and everything before it was refused, the scan gets
   * at least that far: a master can only answer later, and without one all five sweeps run.
   */
  lemma ClosedStartIsSeen(network: (nat, nat) -> seq<SocketEvent>, ps: seq<Probe>, found: bool)
    requires ScheduledPrefix(ps)
    requires found ==> FirstAnnouncer(network, ps).Some?
    requires !found ==> |ps| == ScanLength
    requires AllClosed(network, Started(ScanLength)[..EarlyRejectPoint])
    ensures |ps| >= EarlyRejectPoint && EarlyRejectPoint <= ClosedRun(network, ps)
  {
    var m := Min(|ps|, EarlyRejectPoint);
    StartedPrefix(EarlyRejectPoint, ScanLength);
    StartedPrefix(m, EarlyRejectPoint);
    StartedPrefix(m, |ps|);
    ClosedPrefixHasNoAnnouncer(network, Started(EarlyRejectPoint), m);
    assert ps[..m] == Started(EarlyRejectPoint)[..m];
    ClosedPrefixHasNoAnnouncer(network, ps, m);
    ClosedRunIsAllClosed(network, ps, m);
  }

  /** An announcer in `ps` comes after a refused prefix of length `m`, and a prefix of a refused prefix is refused. */
  lemma ClosedPrefixHasNoAnnouncer(network: (nat, nat) -> seq<SocketEvent>, ps: seq<Probe>, m: nat)
    requires m <= |ps| && (AllClosed(network, ps[..m]) || AllClosed(network, ps))
    ensures AllClosed(network, ps[..m])
    ensures FirstAnnouncer(network, ps).Some? ==> FirstAnnouncer(network, ps).value >= m
  {
    assert forall j :: 0 <= j < m ==> ps[..m][j] == ps[j];
  }

  /**
   * What a finished scan amounts to, given the probes it started: the promise is settled; the
   * probes are how the five-sweep schedule begins; the URL field holds the last announced URL; a
   * master was seen exactly when some probe announced one, and then the scan stopped right after
   * that probe's batch and otherwise ran all five sweeps; the promise resolves to the first
   * announced URL unless the code as written has already rejected it in the fifth sweep, which it
   * does whenever the first batch of the fifth sweep and everything before it was refused.
   */
  ghost predicate ScanOutcome(network: (nat, nat) -> seq<SocketEvent>, rejectMidSweep: bool,
                              outcome: Settlement, masterUrl: Option<string>, probes: seq<Probe>)
  {
    var first := FirstAnnouncer(network, probes);
    && !outcome.Pending?
    && ScheduledPrefix(probes)
    && masterUrl == LastUrl(network, probes)
    && (first.None? ==> probes == Started(ScanLength) && outcome.Rejected?)
    && (first.None? && !rejectMidSweep ==> outcome == Rejected(NotFoundReason))
    && (first.Some? ==> StopsAfterBatchOf(probes, probes[first.value]))
    && (outcome.Resolved? ==> first.Some? && outcome.url == FateAt(network, probes[first.value]).url)
    && (first.Some? && (probes[first.value].sweep < MaxAttempts || !rejectMidSweep) ==>
          outcome == Resolved(FateAt(network, probes[first.value]).url))
    && (rejectMidSweep && AllClosed(network, Started(ScanLength)[..EarlyRejectPoint]) ==>
          outcome == Rejected(ExhaustedReason))
  }

  /** A scan that has started nothing tracks trivially. */
  lemma TracksInit(network: (nat, nat) -> seq<SocketEvent>, rejectMidSweep: bool)
    ensures Tracks(network, rejectMidSweep, 0, Book(0, false, None, Pending), [], 0)
  {
  }
}
