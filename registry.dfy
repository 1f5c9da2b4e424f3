/**
 * The master's node registry of inframon.ts: a JavaScript `Map<string, ServerNode>` changed by
 * the registry HTTP handlers (register, list, get, rename, delete, heartbeat) and by the master's
 * own sampling tick. The clock is the parameter `now` (milliseconds); the forwarded rename call
 * is the parameter `remoteOk` (whether the node's own endpoint answered with an ok status).
 *
 * `Table` is the value of the map (its keys in insertion order and its entries); the pure step
 * functions say what each handler does to it, and the class `NodeRegistry` performs the same
 * changes in place on its fields.
 */
module Registry {
  import opened Wrappers

  /** A record is served only while `now - lastSeen` is below this many milliseconds. */
  const ActiveWindowMs := 60000

  datatype NodeStatus = Connected | Disconnected | Connecting

  /**
   * A `ServerNode`. `compressedData` is the opaque snapshot blob; the empty string is a blob
   * that is missing (JavaScript treats both as false).
   */
  datatype Node = Node(
    id: string, name: string, os: string, ip: string, port: int,
    lastSeen: int, isMaster: bool, status: NodeStatus, compressedData: string)

  /** The JSON body of `POST /api/nodes/register`; an absent `compressedData` is `None`. */
  datatype Registration = Registration(
    id: string, name: string, os: string, ip: string, port: int,
    isMaster: bool, compressedData: Option<string>)

  /** What a handler answers: 200 with a value, 404 or 500. */
  datatype Response<T> = Ok(value: T) | NotFound | ServerError

  /** The registry map: its keys in insertion order and its entries. */
  datatype Table = Table(keys: seq<string>, entries: map<string, Node>)

  const Empty := Table([], map[])

  /** The shape every reachable registry has: keys listed once each, every record under its own id. */
  ghost predicate WellFormed(t: Table) {
    && Distinct(t.keys)
    && (forall k :: k in t.entries <==> k in t.keys)
    && (forall k :: k in t.entries ==> t.entries[k].id == k)
  }

  /** No two distinct non-master records share an IP address. */
  ghost predicate OneRecordPerIp(t: Table) {
    forall a, b ::
      a in t.entries && b in t.entries && IsNonMasterAt(t.entries, a, t.entries[b].ip) && !t.entries[b].isMaster
      ==> a == b
  }

  ghost predicate Consistent(t: Table) {
    WellFormed(t) && OneRecordPerIp(t)
  }

  predicate IsNonMasterAt(entries: map<string, Node>, k: string, ip: string)
    requires k in entries
  {
    !entries[k].isMaster && entries[k].ip == ip
  }

  predicate IsActive(n: Node, now: int) {
    now - n.lastSeen < ActiveWindowMs
  }

  /** JavaScript's `!value` on the submitted blob: absent or empty. */
  predicate Blank(blob: Option<string>) {
    blob.None? || blob.value == ""
  }

  /** `map.set(k, v)`: a new key goes last, an existing key keeps its place. */
  function Set(t: Table, k: string, v: Node): Table {
    Table(if k in t.keys then t.keys else t.keys + [k], t.entries[k := v])
  }

  ghost predicate Distinct(s: seq<string>) {
    forall i, j :: 0 <= i < j < |s| ==> s[i] != s[j]
  }

  /** The key list without `k`. */
  function Without(keys: seq<string>, k: string): (r: seq<string>)
    ensures forall x :: x in r <==> x in keys && x != k
    ensures Distinct(keys) ==> Distinct(r)
  {
    if keys == [] then []
    else if keys[0] == k then Without(keys[1..], k)
    else
      var rest := Without(keys[1..], k);
      assert Distinct(keys) ==> keys[0] !in rest && Distinct([keys[0]] + rest) by {
        if Distinct(keys) {
          assert keys[0] !in keys[1..];
          var c := [keys[0]] + rest;
          forall i, j | 0 <= i < j < |c| ensures c[i] != c[j] {
            if i == 0 { assert c[j] == rest[j - 1]; }
            else { assert c[i] == rest[i - 1] && c[j] == rest[j - 1]; }
          }
        }
      }
      [keys[0]] + rest
  }

  /**
   * `Without` is a filter: it drops `k` from each part and keeps the rest in their order, so
   * the map's remaining keys keep their insertion order after a delete.
   */
  lemma {:induction false} WithoutAppend(a: seq<string>, b: seq<string>, k: string)
    ensures Without(a + b, k) == Without(a, k) + Without(b, k)
    ensures |a| == 1 ==> Without(a, k) == (if a[0] == k then [] else a)
    decreases |a|
  {
    if a == [] {
      assert a + b == b;
    } else {
      assert (a + b)[0] == a[0] && (a + b)[1..] == a[1..] + b;
      WithoutAppend(a[1..], b, k);
      if |a| == 1 {
        assert a[1..] == [];
      }
    }
  }

  /**
   * `Array.from(nodes.values()).find(n => n.ip === ip && !n.isMaster)`, as the key of the record
   * found: the first such record in insertion order.
   */
  function FindNonMaster(keys: seq<string>, entries: map<string, Node>, ip: string): (r: Option<string>)
    ensures r.Some? ==> r.value in keys && r.value in entries && IsNonMasterAt(entries, r.value, ip)
    ensures r.None? ==> forall k :: k in keys && k in entries ==> !IsNonMasterAt(entries, k, ip)
  {
    if keys == [] then None
    else if keys[0] in entries && IsNonMasterAt(entries, keys[0], ip) then Some(keys[0])
    else FindNonMaster(keys[1..], entries, ip)
  }

  /**
   * `POST /api/nodes/register`. A blank blob is refused before anything changes. Otherwise a
   * non-master record with the same IP is refreshed under its own id (lastSeen, status, blob,
   * name); failing that, the submitted record is stored under the submitted id as CONNECTING.
   */
  function RegisterStep(t: Table, req: Registration, now: int): (r: (Table, Response<()>))
    ensures Blank(req.compressedData) ==> r == (t, ServerError)
    ensures !Blank(req.compressedData) ==> r.1 == Ok(())
    ensures !Blank(req.compressedData) && FindNonMaster(t.keys, t.entries, req.ip).None? ==>
      && r.0.entries == t.entries[req.id := Node(req.id, req.name, req.os, req.ip, req.port, now,
                                                 req.isMaster, Connecting, req.compressedData.value)]
      && r.0.keys == (if req.id in t.keys then t.keys else t.keys + [req.id])
    ensures !Blank(req.compressedData) && FindNonMaster(t.keys, t.entries, req.ip).Some? ==>
      var k := FindNonMaster(t.keys, t.entries, req.ip).value;
      var old_ := t.entries[k];
      && r.0.keys == t.keys
      && r.0.entries.Keys == t.entries.Keys
      && r.0.entries[k] == Node(old_.id, req.name, old_.os, old_.ip, old_.port, now,
                                old_.isMaster, Connected, req.compressedData.value)
      && forall j :: j in t.entries && j != k ==> r.0.entries[j] == t.entries[j]
  {
    if Blank(req.compressedData) then (t, ServerError)
    else
      match FindNonMaster(t.keys, t.entries, req.ip)
      case Some(k) =>
        var n := t.entries[k].(lastSeen := now, status := Connected,
                               compressedData := req.compressedData.value, name := req.name);
        (Set(t, k, n), Ok(()))
      case None =>
        var n := Node(req.id, req.name, req.os, req.ip, req.port, now,
                      req.isMaster, Connecting, req.compressedData.value);
        (Set(t, req.id, n), Ok(()))
  }

  /** `GET /api/nodes`: the records seen within the active window, in insertion order. */
  function ActiveNodes(t: Table, now: int): seq<Node> {
    ActiveAmong(t.keys, t.entries, now)
  }

  function ActiveAmong(keys: seq<string>, entries: map<string, Node>, now: int): (r: seq<Node>)
    ensures forall n :: n in r ==> IsActive(n, now) && exists k :: k in keys && k in entries && entries[k] == n
    ensures forall k :: k in keys && k in entries && IsActive(entries[k], now) ==> entries[k] in r
  {
    if keys == [] then []
    else
      var rest := ActiveAmong(keys[1..], entries, now);
      if keys[0] in entries && IsActive(entries[keys[0]], now) then [entries[keys[0]]] + rest else rest
  }

  /** `GET /api/nodes/:nodeId`: 404 when absent or stale, 500 when it holds no blob. */
  function Lookup(t: Table, id: string, now: int): (r: Response<Node>)
    ensures r.NotFound? <==> id !in t.entries || !IsActive(t.entries[id], now)
    ensures r.ServerError? <==> id in t.entries && IsActive(t.entries[id], now) && t.entries[id].compressedData == ""
    ensures r.Ok? ==> id in t.entries && r.value == t.entries[id]
  {
    if id !in t.entries || !IsActive(t.entries[id], now) then NotFound
    else if t.entries[id].compressedData == "" then ServerError
    else Ok(t.entries[id])
  }

  /** `DELETE /api/nodes/:nodeId`. */
  function DeleteStep(t: Table, id: string): (r: (Table, Response<()>))
    ensures id !in t.entries ==> r == (t, NotFound)
    ensures id in t.entries ==> r.1 == Ok(()) && r.0.entries == t.entries - {id}
    ensures id in t.entries ==> r.0.keys == Without(t.keys, id)
  {
    if id !in t.entries then (t, NotFound)
    else (Table(Without(t.keys, id), t.entries - {id}), Ok(()))
  }

  /** `POST /api/nodes/:nodeId/heartbeat`: only the status changes; `lastSeen` is left as it was. */
  function HeartbeatStep(t: Table, id: string): (r: (Table, Response<()>))
    ensures id !in t.entries ==> r == (t, NotFound)
    ensures id in t.entries ==>
              r.1 == Ok(()) && r.0.entries == t.entries[id := t.entries[id].(status := Connected)]
    ensures WellFormed(t) ==> r.0.keys == t.keys
  {
    if id !in t.entries then (t, NotFound)
    else (Set(t, id, t.entries[id].(status := Connected)), Ok(()))
  }

  /**
   * `POST /api/nodes/:nodeId/hostname`: 404 when absent; the name changes only when the call
   * forwarded to the node itself succeeded, otherwise 500 and nothing changes. The record is
   * looked up when the name is written, so a rename never brings back a deleted record; the
   * handler as written is `RenameCapture` followed by `RenameWriteBack`.
   */
  function RenameStep(t: Table, id: string, hostname: string, remoteOk: bool): (r: (Table, Response<()>))
    ensures id !in t.entries ==> r == (t, NotFound)
    ensures id in t.entries && !remoteOk ==> r == (t, ServerError)
    ensures id in t.entries && remoteOk ==>
              r.1 == Ok(()) && r.0.entries == t.entries[id := t.entries[id].(name := hostname)]
  {
    if id !in t.entries then (t, NotFound)
    else if !remoteOk then (t, ServerError)
    else (Set(t, id, t.entries[id].(name := hostname)), Ok(()))
  }

  /**
   * The rename handler as written is two steps with an `await` between them. First
   * `nodes.get(nodeId)` captures the record object, or answers 404. Then, once the forwarded call
   * has answered, the handler renames that captured object and `nodes.set`s it again. Any other
   * handler may run in between. The capture is the object itself, so a refresh or a heartbeat
   * of it in between shows in it; a delete does not, and the object then lives on only in the
   * capture.
   */
  function RenameCapture(t: Table, id: string): (r: Response<Node>)
    ensures id !in t.entries <==> r == NotFound
    ensures id in t.entries ==> r == Ok(t.entries[id])
  {
    if id !in t.entries then NotFound else Ok(t.entries[id])
  }

  /** The write-back after the `await`: the captured object, renamed, is set under `id` whatever the table now holds. */
  function RenameWriteBack(t: Table, id: string, captured: Node, hostname: string, remoteOk: bool): (r: (Table, Response<()>))
    ensures !remoteOk ==> r == (t, ServerError)
    ensures remoteOk ==> r.1 == Ok(()) && id in r.0.entries && r.0.entries[id] == captured.(name := hostname)
    ensures remoteOk ==> forall k :: k in t.entries && k != id ==> k in r.0.entries && r.0.entries[k] == t.entries[k]
  {
    if !remoteOk then (t, ServerError)
    else (Set(t, id, captured.(name := hostname)), Ok(()))
  }

  /**
   * When nothing deleted the record during the `await`, the captured object is still the table's
   * record, and the two steps do what the one-step rename does.
   */
  lemma RenameWithoutInterleaving(t: Table, id: string, hostname: string, remoteOk: bool)
    requires RenameCapture(t, id).Ok?
    ensures RenameWriteBack(t, id, RenameCapture(t, id).value, hostname, remoteOk) == RenameStep(t, id, hostname, remoteOk)
  {
  }

  /**
   * The master's own entry, written on every sampling tick: `blob` is what `compressData`
   * returned for the snapshot, and a null result is stored as the empty string.
   */
  function SelfUpdateStep(t: Table, nodeId: string, name: string, os: string, ip: string, port: int,
                          blob: Option<string>, now: int): (r: Table)
    ensures nodeId in r.entries && r.entries[nodeId].isMaster && r.entries[nodeId].lastSeen == now
    ensures r.entries[nodeId].compressedData == blob.GetOr("")
    ensures r.entries[nodeId] == Node(nodeId, name, os, ip, port, now, true, Connected, blob.GetOr(""))
    ensures r.entries.Keys == t.entries.Keys + {nodeId}
    ensures forall k :: k in t.entries && k != nodeId ==> k in r.entries && r.entries[k] == t.entries[k]
    ensures WellFormed(t) ==> r.keys == if nodeId in t.entries then t.keys else t.keys + [nodeId]
  {
    Set(t, nodeId, Node(nodeId, name, os, ip, port, now, true, Connected, blob.GetOr("")))
  }

  // ---------------------------------------------------------------------------------------------
  // Properties of the registry

  lemma SetKeepsWellFormed(t: Table, k: string, v: Node)
    requires WellFormed(t) && v.id == k
    ensures WellFormed(Set(t, k, v))
  {
  }

  /** Registration keeps every key once, every record under its id, and one non-master per IP. */
  lemma RegisterKeepsConsistent(t: Table, req: Registration, now: int)
    requires Consistent(t)
    ensures Consistent(RegisterStep(t, req, now).0)
  {
    var t' := RegisterStep(t, req, now).0;
    if !Blank(req.compressedData) {
      var found := FindNonMaster(t.keys, t.entries, req.ip);
      if found.Some? {
        SetKeepsWellFormed(t, found.value, t'.entries[found.value]);
      } else {
        forall a, b | a in t'.entries && b in t'.entries && IsNonMasterAt(t'.entries, a, t'.entries[b].ip)
                      && !t'.entries[b].isMaster
          ensures a == b
        {
          if a != req.id && b != req.id {
            assert IsNonMasterAt(t.entries, a, t.entries[b].ip);
          }
        }
      }
    }
  }

  lemma DeleteKeepsConsistent(t: Table, id: string)
    requires Consistent(t)
    ensures Consistent(DeleteStep(t, id).0)
  {
  }

  /** A heartbeat changes neither keys, ids, roles nor addresses. */
  lemma HeartbeatKeepsConsistent(t: Table, id: string)
    requires Consistent(t)
    ensures Consistent(HeartbeatStep(t, id).0)
  {
    if id in t.entries {
      SetKeepsWellFormed(t, id, t.entries[id].(status := Connected));
    }
  }

  /** A rename changes neither keys, ids, roles nor addresses. */
  lemma RenameKeepsConsistent(t: Table, id: string, hostname: string, remoteOk: bool)
    requires Consistent(t)
    ensures Consistent(RenameStep(t, id, hostname, remoteOk).0)
  {
    if id in t.entries {
      SetKeepsWellFormed(t, id, t.entries[id].(name := hostname));
    }
  }

  /** The master's own entry is a master record, so the one-per-IP rule is untouched. */
  lemma SelfUpdateKeepsConsistent(t: Table, nodeId: string, name: string, os: string, ip: string, port: int,
                                  blob: Option<string>, now: int)
    requires Consistent(t)
    ensures Consistent(SelfUpdateStep(t, nodeId, name, os, ip, port, blob, now))
  {
    SetKeepsWellFormed(t, nodeId, Node(nodeId, name, os, ip, port, now, true, Connected, blob.GetOr("")));
  }

  /**
   * Once a non-master has registered from `ip`, every later non-blank registration from that IP
   * refreshes an existing record: the number of records does not grow.
   */
  lemma RepeatedRegistrationDoesNotGrow(t: Table, first: Registration, second: Registration, now1: int, now2: int)
    requires Consistent(t)
    requires !first.isMaster && !Blank(first.compressedData)
    requires second.ip == first.ip && !Blank(second.compressedData)
    ensures var t1 := RegisterStep(t, first, now1).0;
            |RegisterStep(t1, second, now2).0.entries| == |t1.entries|
  {
    var t1 := RegisterStep(t, first, now1).0;
    RegisterKeepsConsistent(t, first, now1);
    var k := if FindNonMaster(t.keys, t.entries, first.ip).Some?
             then FindNonMaster(t.keys, t.entries, first.ip).value else first.id;
    assert k in t1.keys && k in t1.entries && IsNonMasterAt(t1.entries, k, first.ip);
    assert FindNonMaster(t1.keys, t1.entries, second.ip).Some?;
    var t2 := RegisterStep(t1, second, now2).0;
    assert t2.entries.Keys == t1.entries.Keys;
  }

  /** A refreshing registration leaves the number of records as it was. */
  lemma RefreshKeepsSize(t: Table, req: Registration, now: int)
    requires !Blank(req.compressedData) && FindNonMaster(t.keys, t.entries, req.ip).Some?
    ensures |RegisterStep(t, req, now).0.entries| == |t.entries|
  {
    assert RegisterStep(t, req, now).0.entries.Keys == t.entries.Keys;
  }

  /** The list endpoint and the single-record endpoint agree on which records are live. */
  lemma ListAgreesWithLookup(t: Table, id: string, now: int)
    requires WellFormed(t)
    ensures id in t.entries ==> (t.entries[id] in ActiveNodes(t, now) <==> !Lookup(t, id, now).NotFound?)
    ensures forall n :: n in ActiveNodes(t, now) ==> !Lookup(t, n.id, now).NotFound?
  {
    forall n | n in ActiveNodes(t, now) ensures !Lookup(t, n.id, now).NotFound? {
      var k :| k in t.keys && k in t.entries && t.entries[k] == n;
    }
  }

  /** After a successful delete, the record is gone for the single-record endpoint and the list. */
  lemma DeleteThenLookup(t: Table, id: string, now: int)
    requires WellFormed(t)
    ensures var t' := DeleteStep(t, id).0;
            Lookup(t', id, now) == NotFound && forall n :: n in ActiveNodes(t', now) ==> n.id != id
  {
    var t' := DeleteStep(t, id).0;
    forall n | n in ActiveNodes(t', now) ensures n.id != id {
      var k :| k in t'.keys && k in t'.entries && t'.entries[k] == n;
      assert k in t.entries && t.entries[k].id == k;
    }
  }

  /** A heartbeat does not bring a stale record back: `lastSeen` is untouched. */
  lemma HeartbeatDoesNotRevive(t: Table, id: string, now: int)
    requires id in t.entries && !IsActive(t.entries[id], now)
    ensures Lookup(HeartbeatStep(t, id).0, id, now) == NotFound
  {
  }

  /** When every listed key holds a live record, the list endpoint returns one record per key. */
  lemma {:induction false} AllActiveListed(keys: seq<string>, entries: map<string, Node>, now: int)
    requires forall k :: k in keys ==> k in entries && IsActive(entries[k], now)
    ensures |ActiveAmong(keys, entries, now)| == |keys|
  {
    if keys != [] {
      AllActiveListed(keys[1..], entries, now);
    }
  }

  /**
   * The stale write-back resurrects a deleted record. The slave "a" at 10.0.0.2 is being
   * renamed. During the `await` it is deleted, and a new slave "c" registers from the same
   * address. The write-back then puts "a" back: the delete is undone, and two non-master
   * records share 10.0.0.2.
   */
  lemma StaleRenameResurrects(now: int)
    ensures
      var t0 := Set(Empty, "a", AlphaRecord(now));
      var captured := RenameCapture(t0, "a");
      var t1 := DeleteStep(t0, "a").0;
      var t2 := RegisterStep(t1, Registration("c", "gamma", "Linux", "10.0.0.2", 3000, false, Some("C")), now).0;
      var t3 := RenameWriteBack(t2, "a", captured.value, "alpha2", true).0;
      && captured.Ok? && Consistent(t0) && Consistent(t2)
      && "a" !in t2.entries && "a" in t3.entries
      && !OneRecordPerIp(t3)
  {
    var t0 := Set(Empty, "a", AlphaRecord(now));
    StaleDeleteEmpties(now);
    var c := Node("c", "gamma", "Linux", "10.0.0.2", 3000, now, false, Connecting, "C");
    var t2 := RegisterStep(Table([], map[]), Registration("c", "gamma", "Linux", "10.0.0.2", 3000, false, Some("C")), now).0;
    assert t2 == Table(["c"], map["c" := c]);
    var t3 := RenameWriteBack(t2, "a", AlphaRecord(now), "alpha2", true).0;
    assert IsNonMasterAt(t3.entries, "a", t3.entries["c"].ip) && !t3.entries["c"].isMaster;
  }

  /** Deleting the only record of the scenario leaves the empty table. */
  lemma StaleDeleteEmpties(now: int)
    ensures DeleteStep(Set(Empty, "a", AlphaRecord(now)), "a").0 == Table([], map[])
  {
    var t0 := Set(Empty, "a", AlphaRecord(now));
    var t1 := DeleteStep(t0, "a").0;
    assert t1.entries == map[];
    assert t1.keys == [] by {
      assert t0.keys == ["a"] && t0.keys[1..] == [];
      assert Without(t0.keys, "a") == Without(t0.keys[1..], "a");
    }
  }

  /**
   * Re-reading the table at write-back time, as the one-step rename does, leaves a deleted
   * record deleted and keeps one non-master record per address, whatever ran during the `await`.
   */
  lemma RenameAfterDelete(t: Table, id: string, hostname: string, remoteOk: bool)
    requires Consistent(t)
    ensures var t' := RenameStep(DeleteStep(t, id).0, id, hostname, remoteOk).0;
            id !in t'.entries && Consistent(t')
  {
    DeleteKeepsConsistent(t, id);
    RenameKeepsConsistent(DeleteStep(t, id).0, id, hostname, remoteOk);
  }

  function MasterRecord(now: int): Node { Node("m", "master", "Linux", "10.0.0.1", 3000, now, true, Connected, "M") }
  function AlphaRecord(now: int): Node { Node("a", "alpha", "Linux", "10.0.0.2", 3000, now, false, Connecting, "A") }
  function BetaRecord(now: int): Node { Node("b", "beta", "Linux", "10.0.0.3", 3000, now, false, Connecting, "B") }

  /** The master's first tick, then the first registration of a slave: two records. */
  lemma MasterThenAlpha(now: int)
    ensures
      var t0 := SelfUpdateStep(Empty, "m", "master", "Linux", "10.0.0.1", 3000, Some("M"), now);
      RegisterStep(t0, Registration("a", "alpha", "Linux", "10.0.0.2", 3000, false, Some("A")), now).0
        == Table(["m", "a"], map["m" := MasterRecord(now), "a" := AlphaRecord(now)])
  {
    var t0 := SelfUpdateStep(Empty, "m", "master", "Linux", "10.0.0.1", 3000, Some("M"), now);
    assert t0 == Table(["m"], map["m" := MasterRecord(now)]);
    assert FindNonMaster(t0.keys, t0.entries, "10.0.0.2") == None by {
      assert FindNonMaster(t0.keys[1..], t0.entries, "10.0.0.2") == None;
    }
  }

  /** The master's first tick and the first registrations of two slaves: three live records. */
  lemma ThreeNodesScenario(now: int)
    ensures
      var t0 := SelfUpdateStep(Empty, "m", "master", "Linux", "10.0.0.1", 3000, Some("M"), now);
      var t1 := RegisterStep(t0, Registration("a", "alpha", "Linux", "10.0.0.2", 3000, false, Some("A")), now).0;
      var t2 := RegisterStep(t1, Registration("b", "beta", "Linux", "10.0.0.3", 3000, false, Some("B")), now).0;
      && t2 == Table(["m", "a", "b"], map["m" := MasterRecord(now), "a" := AlphaRecord(now), "b" := BetaRecord(now)])
      && |ActiveNodes(t2, now)| == 3
  {
    MasterThenAlpha(now);
    var t1 := Table(["m", "a"], map["m" := MasterRecord(now), "a" := AlphaRecord(now)]);
    var t2 := RegisterStep(t1, Registration("b", "beta", "Linux", "10.0.0.3", 3000, false, Some("B")), now).0;
    assert FindNonMaster(t1.keys, t1.entries, "10.0.0.3") == None;
    assert t2 == Table(["m", "a", "b"], map["m" := MasterRecord(now), "a" := AlphaRecord(now), "b" := BetaRecord(now)]);
    AllActiveListed(t2.keys, t2.entries, now);
  }

  /** The registry after the slave at 10.0.0.2 registers again under the id "a2". */
  lemma AlphaRestarts(now: int)
    ensures
      var t2 := Table(["m", "a", "b"], map["m" := MasterRecord(now), "a" := AlphaRecord(now), "b" := BetaRecord(now)]);
      RegisterStep(t2, Registration("a2", "alpha2", "Linux", "10.0.0.2", 3000, false, Some("A2")), now).0
        == Table(["m", "a", "b"], map["m" := MasterRecord(now), "b" := BetaRecord(now),
                 "a" := AlphaRecord(now).(name := "alpha2", status := Connected, compressedData := "A2")])
  {
    var t2 := Table(["m", "a", "b"], map["m" := MasterRecord(now), "a" := AlphaRecord(now), "b" := BetaRecord(now)]);
    assert FindNonMaster(t2.keys, t2.entries, "10.0.0.2") == Some("a");
  }

  /**
   * The slave at 10.0.0.2 restarts under a new id and registers again: still three records, and
   * the record under its old id carries the new name and blob.
   */
  lemma RestartScenario(now: int)
    ensures
      var t2 := Table(["m", "a", "b"], map["m" := MasterRecord(now), "a" := AlphaRecord(now), "b" := BetaRecord(now)]);
      var t3 := RegisterStep(t2, Registration("a2", "alpha2", "Linux", "10.0.0.2", 3000, false, Some("A2")), now).0;
      && |ActiveNodes(t3, now)| == 3
      && t3.keys == ["m", "a", "b"]
      && t3.entries["a"].name == "alpha2" && t3.entries["a"].compressedData == "A2"
      && "a2" !in t3.entries
  {
    AlphaRestarts(now);
    var t3 := Table(["m", "a", "b"], map["m" := MasterRecord(now), "b" := BetaRecord(now),
                    "a" := AlphaRecord(now).(name := "alpha2", status := Connected, compressedData := "A2")]);
    AllActiveListed(t3.keys, t3.entries, now);
  }

  // ---------------------------------------------------------------------------------------------
  // The registry object

  /** The `nodes` map of the master process, changed in place by the handlers. */
  class NodeRegistry {
    var keys: seq<string>
    var entries: map<string, Node>

    function Contents(): Table
      reads this
    {
      Table(keys, entries)
    }

    ghost predicate Valid()
      reads this
    {
      Consistent(Contents())
    }

    constructor ()
      ensures Valid() && Contents() == Empty
    {
      keys := [];
      entries := map[];
    }

    /** `nodes.set(k, n)`. */
    method SetEntry(k: string, n: Node)
      modifies this
      ensures Contents() == Set(old(Contents()), k, n)
    {
      if k !in keys {
        keys := keys + [k];
      }
      entries := entries[k := n];
    }

    method Register(req: Registration, now: int) returns (resp: Response<()>)
      requires Valid()
      modifies this
      ensures Valid()
      ensures (Contents(), resp) == RegisterStep(old(Contents()), req, now)
    {
      RegisterKeepsConsistent(Contents(), req, now);
      if req.compressedData.None? || req.compressedData.value == "" {
        return ServerError;
      }
      var existing := FindNonMaster(keys, entries, req.ip);
      if existing.Some? {
        var node := entries[existing.value];
        node := node.(lastSeen := now);
        node := node.(status := Connected);
        node := node.(compressedData := req.compressedData.value);
        node := node.(name := req.name);
        SetEntry(existing.value, node);
      } else {
        SetEntry(req.id, Node(req.id, req.name, req.os, req.ip, req.port, now,
                              req.isMaster, Connecting, req.compressedData.value));
      }
      resp := Ok(());
    }

    /** `GET /api/nodes`: walks the records in insertion order and keeps the live ones. */
    method List(now: int) returns (active: seq<Node>)
      ensures active == ActiveNodes(Contents(), now)
    {
      active := [];
      var i := |keys|;
      while i > 0
        invariant 0 <= i <= |keys|
        invariant active == ActiveAmong(keys[i..], entries, now)
      {
        i := i - 1;
        assert keys[i..][1..] == keys[i + 1..];
        if keys[i] in entries && IsActive(entries[keys[i]], now) {
          active := [entries[keys[i]]] + active;
        }
      }
    }

    method Get(id: string, now: int) returns (r: Response<Node>)
      ensures r == Lookup(Contents(), id, now)
    {
      if id !in entries || !IsActive(entries[id], now) {
        return NotFound;
      }
      if entries[id].compressedData == "" {
        return ServerError;
      }
      r := Ok(entries[id]);
    }

    /** The rename, reading the record at write-back time (see `StaleRenameResurrects`). */
    method Rename(id: string, hostname: string, remoteOk: bool) returns (resp: Response<()>)
      requires Valid()
      modifies this
      ensures Valid()
      ensures (Contents(), resp) == RenameStep(old(Contents()), id, hostname, remoteOk)
    {
      RenameKeepsConsistent(Contents(), id, hostname, remoteOk);
      if id !in entries {
        return NotFound;
      }
      if !remoteOk {
        return ServerError;
      }
      var node := entries[id];
      node := node.(name := hostname);
      SetEntry(id, node);
      resp := Ok(());
    }

    method Delete(id: string) returns (resp: Response<()>)
      requires Valid()
      modifies this
      ensures Valid()
      ensures (Contents(), resp) == DeleteStep(old(Contents()), id)
    {
      DeleteKeepsConsistent(Contents(), id);
      if id !in entries {
        return NotFound;
      }
      keys := Without(keys, id);
      entries := entries - {id};
      resp := Ok(());
    }

    method Heartbeat(id: string) returns (resp: Response<()>)
      requires Valid()
      modifies this
      ensures Valid()
      ensures (Contents(), resp) == HeartbeatStep(old(Contents()), id)
    {
      HeartbeatKeepsConsistent(Contents(), id);
      if id !in entries {
        return NotFound;
      }
      var node := entries[id];
      node := node.(status := Connected);
      SetEntry(id, node);
      resp := Ok(());
    }

    method SelfUpdate(nodeId: string, name: string, os: string, ip: string, port: int,
                      blob: Option<string>, now: int)
      requires Valid()
      modifies this
      ensures Valid()
      ensures Contents() == SelfUpdateStep(old(Contents()), nodeId, name, os, ip, port, blob, now)
    {
      SelfUpdateKeepsConsistent(Contents(), nodeId, name, os, ip, port, blob, now);
      SetEntry(nodeId, Node(nodeId, name, os, ip, port, now, true, Connected, blob.GetOr("")));
    }
  }
}
