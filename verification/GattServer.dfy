/**
 The GattServer object (service/gatt_server.cpp, types in service/gatt_server.h). Its methods change the
 object the way GattDeclaration, GattConnections and GattIndications specify; connections are objects
 reachable through two indexes, and one pending indication object may be shared by several connections.
 */
module GattServer {
  import opened Common
  import BdAddress
  import D = GattDeclaration
  import L = GattConnections
  import N = GattIndications

  /** `ref` is the place of the object among all connection objects ever made. */
  class Connection {
    const connId: ConnId
    const addr: L.Address
    ghost const ref: L.Ref
    var requests: map<L.RequestId, L.Handle>

    constructor (connId: ConnId, addr: L.Address, ghost ref: L.Ref)
      ensures this.connId == connId && this.addr == addr && this.ref == ref && requests == map[]
    {
      this.connId, this.addr, this.ref := connId, addr, ref;
      requests := map[];
    }
  }

  class PendingIndication {
    const callback: Option<Callback>
    ghost const serial: N.Serial
    var hasSuccess: bool

    constructor (callback: Option<Callback>, ghost serial: N.Serial)
      ensures this.callback == callback && this.serial == serial && !hasSuccess
    {
      this.callback := callback;
      this.serial := serial;
      hasSuccess := false;
    }
  }

  function Ids(cs: seq<Connection>): (r: seq<ConnId>)
    ensures |r| == |cs| && forall i :: 0 <= i < |cs| ==> r[i] == cs[i].connId
  {
    seq(|cs|, i requires 0 <= i < |cs| => cs[i].connId)
  }

  ghost function Refs(cs: seq<Connection>): (r: seq<L.Ref>)
    ensures |r| == |cs| && forall i :: 0 <= i < |cs| ==> r[i] == cs[i].ref
  {
    seq(|cs|, i requires 0 <= i < |cs| => cs[i].ref)
  }

  ghost function RefById(m: map<ConnId, Connection>): map<ConnId, L.Ref> { map id | id in m :: m[id].ref }

  ghost function RefByAddress(m: map<L.Address, seq<Connection>>): map<L.Address, seq<L.Ref>> {
    map a | a in m :: Refs(m[a])
  }

  /** The object is on the list of all objects, at its place. */
  ghost predicate Listed(objs: seq<Connection>, c: Connection) { c.ref < |objs| && objs[c.ref] == c }

  ghost predicate AllListed(objs: seq<Connection>, cs: seq<Connection>) {
    forall i :: 0 <= i < |cs| ==> Listed(objs, cs[i])
  }

  /** Both indexes lead to listed objects. */
  ghost predicate Registered(objs: seq<Connection>, ids: map<ConnId, Connection>,
                             addrs: map<L.Address, seq<Connection>>)
  {
    && (forall id :: id in ids ==> Listed(objs, ids[id]))
    && (forall a :: a in addrs ==> AllListed(objs, addrs[a]))
  }

  /** The record of an object. */
  ghost predicate Mirrors(c: Connection, r: L.Conn)
    reads c
  {
    r == L.Conn(c.connId, c.addr, c.requests)
  }

  lemma RegisterMore(objs: seq<Connection>, ids: map<ConnId, Connection>, addrs: map<L.Address, seq<Connection>>,
                     c: Connection)
    requires Registered(objs, ids, addrs) && c.ref == |objs|
    ensures var bucket := if c.addr in addrs then addrs[c.addr] else [];
            Registered(objs + [c], ids[c.connId := c], addrs[c.addr := bucket + [c]])
  {
    var bucket := if c.addr in addrs then addrs[c.addr] else [];
    var addrs' := addrs[c.addr := bucket + [c]];
    forall a | a in addrs' ensures AllListed(objs + [c], addrs'[a]) {
      assert a in addrs ==> AllListed(objs, addrs[a]);
    }
  }

  lemma RefsMore(ids: map<ConnId, Connection>, addrs: map<L.Address, seq<Connection>>, c: Connection)
    ensures RefById(ids[c.connId := c]) == RefById(ids)[c.connId := c.ref]
    ensures var bucket := if c.addr in addrs then addrs[c.addr] else [];
            RefByAddress(addrs[c.addr := bucket + [c]]) == RefByAddress(addrs)[c.addr := Refs(bucket) + [c.ref]]
  {
    var bucket := if c.addr in addrs then addrs[c.addr] else [];
    assert Refs(bucket + [c]) == Refs(bucket) + [c.ref];
  }

  lemma RefsReplaced(addrs: map<L.Address, seq<Connection>>, addr: L.Address, bucket: seq<Connection>)
    ensures RefByAddress(addrs[addr := bucket]) == RefByAddress(addrs)[addr := Refs(bucket)]
  {
  }

  lemma RefsWithout(cs: seq<Connection>, i: nat)
    requires i < |cs|
    ensures Refs(cs[..i] + cs[i+1..]) == Refs(cs)[..i] + Refs(cs)[i+1..]
  {
    var a, b := Refs(cs[..i] + cs[i+1..]), Refs(cs)[..i] + Refs(cs)[i+1..];
    assert |a| == |b| && forall k :: 0 <= k < |a| ==> a[k] == b[k];
  }

  lemma {:induction false} WithoutAt(conns: seq<L.Conn>, rs: seq<L.Ref>, id: ConnId, i: nat)
    requires i < |rs| && rs[i] < |conns| && conns[rs[i]].id == id
    requires forall k :: 0 <= k < i ==> rs[k] < |conns| && conns[rs[k]].id != id
    ensures L.Without(conns, rs, id) == rs[..i] + rs[i+1..]
  {
    if i > 0 {
      WithoutAt(conns, rs[1..], id, i - 1);
      assert rs[..i] + rs[i+1..] == [rs[0]] + (rs[1..][..i-1] + rs[1..][i..]);
    }
  }

  lemma {:induction false} WithoutNone(conns: seq<L.Conn>, rs: seq<L.Ref>, id: ConnId)
    requires forall k :: 0 <= k < |rs| ==> rs[k] < |conns| && conns[rs[k]].id != id
    ensures L.Without(conns, rs, id) == rs
  {
    if rs != [] { WithoutNone(conns, rs[1..], id); }
  }

  /** The handles entered so far. */
  ghost function Entered(m: map<D.Id, int>, left: set<D.Id>): map<D.Id, int> {
    map id | id in m && id !in left :: m[id]
  }

  ghost function Shared(m: map<ConnId, PendingIndication>): set<PendingIndication> { set c | c in m.Keys :: m[c] }

  ghost function Serials(m: map<ConnId, PendingIndication>): map<ConnId, N.Serial> {
    map c | c in m :: m[c].serial
  }

  /** The takers, and nobody else, have come to wait on the object. */
  ghost predicate Sent(m: map<ConnId, PendingIndication>, m': map<ConnId, PendingIndication>,
                       takers: set<ConnId>, p: PendingIndication)
  {
    && (forall c :: c in m' <==> c in m || c in takers)
    && (forall c :: c in takers ==> m'[c] == p)
    && (forall c :: c in m && c !in takers ==> m'[c] == m[c])
  }

  /** A message goes out only for a published characteristic. */
  function MessageFor(handles: map<D.Id, int>, charId: D.Id, confirm: bool, value: seq<Byte>): Option<N.Message> {
    if charId in handles then Some(N.Message(handles[charId], confirm, value)) else None
  }

  lemma SerialsAfter(m: map<ConnId, PendingIndication>, m': map<ConnId, PendingIndication>,
                     takers: set<ConnId>, p: PendingIndication)
    requires Sent(m, m', takers, p)
    ensures Serials(m') == Serials(m) + N.All(takers, p.serial)
  {
    var r := Serials(m) + N.All(takers, p.serial);
    assert forall c :: c in Serials(m') <==> c in r;
    assert forall c :: c in r ==> Serials(m')[c] == r[c];
  }

  lemma AwaitedMeans(m: map<ConnId, PendingIndication>, p: PendingIndication)
    requires forall c :: c in m && m[c].serial == p.serial ==> m[c] == p
    ensures N.Awaited(Serials(m), p.serial) <==> exists c :: c in m && m[c] == p
  {
    if c :| c in m && m[c] == p { assert c in Serials(m) && Serials(m)[c] == p.serial; }
  }

  class Server {
    const serverId: int

    var pendingId: Option<D.Id>
    var pendingDecl: Option<D.Decl>
    var pendingEndCallback: Option<Callback>
    var pendingHandleMap: map<D.Id, int>
    var idToHandle: map<D.Id, int>
    var handleToId: map<int, D.Id>

    var connIdMap: map<ConnId, Connection>
    var connAddrMap: map<L.Address, seq<Connection>>
    ghost var objs: seq<Connection>
    ghost var conns: seq<L.Conn>

    var pendingIndications: map<ConnId, PendingIndication>
    ghost var succeeded: set<N.Serial>
    ghost var callbacks: seq<Option<Callback>>

    constructor (serverId: int)
      ensures Database() == D.EMPTY && LinksValid() && Links() == L.NO_LINKS
      ensures IndicationsValid() && Indications() == N.NO_INDICATIONS
    {
      this.serverId := serverId;
      pendingId, pendingDecl, pendingEndCallback, pendingHandleMap := None, None, None, map[];
      idToHandle, handleToId := map[], map[];
      connIdMap, connAddrMap, objs, conns := map[], map[], [], [];
      pendingIndications, succeeded, callbacks := map[], {}, [];
    }

    // -------------------------------------------------------------------------------------------
    // Declaring and publishing services

    ghost function Database(): D.Db
      reads this`pendingId, this`pendingDecl, this`pendingEndCallback, this`pendingHandleMap
      reads this`idToHandle, this`handleToId
    {
      D.Db(pendingId, pendingDecl, pendingEndCallback, pendingHandleMap, idToHandle, handleToId)
    }

    /** Counts the published services with the UUID. */
    method CountServices(uuid: D.Uuid) returns (n: nat)
      ensures n == |D.Services(idToHandle, uuid)|
    {
      n := 0;
      var left := idToHandle.Keys;
      ghost var found: set<D.Id> := {};
      while left != {}
        invariant left <= idToHandle.Keys
        invariant found == set id | id in idToHandle.Keys - left && id.Service? && id.svc.uuid == uuid
        invariant n == |found|
        decreases |left|
      {
        var id :| id in left;
        left := left - {id};
        if id.Service? && id.svc.uuid == uuid {
          n := n + 1;
          found := found + {id};
        }
      }
      assert found == D.Services(idToHandle, uuid);
    }

    method BeginServiceDeclaration(uuid: D.Uuid, primary: bool) returns (id: Option<D.Id>, out: seq<D.Out>)
      modifies this`pendingDecl
      ensures (Database(), id, out) == D.Begin(old(Database()), uuid, primary)
    {
      if pendingDecl.Some? { return None, []; }
      if pendingId.Some? || pendingEndCallback.Some? { return None, [D.CheckFailed]; }
      var inst := CountServices(uuid);
      var svc := D.ServiceId(uuid, inst, primary);
      pendingDecl := Some(D.Decl(1, svc, -1, [D.Entry(D.Service(svc), 0, 0)]));
      id, out := Some(D.Service(svc)), [];
    }

    method CountCharacteristics(attributes: seq<D.Entry>, uuid: D.Uuid) returns (n: nat)
      ensures n == D.CharCount(attributes, uuid)
    {
      n := 0;
      for i := 0 to |attributes|
        invariant n == D.CharCount(attributes[..i], uuid)
      {
        assert attributes[..i+1][..i] == attributes[..i];
        if attributes[i].id.Char? && attributes[i].id.cu == uuid { n := n + 1; }
      }
      assert attributes[..|attributes|] == attributes;
    }

    method AddCharacteristic(uuid: D.Uuid, properties: int, permissions: int) returns (id: Option<D.Id>)
      modifies this`pendingDecl
      ensures (Database(), id) == D.AddCharacteristic(old(Database()), uuid, properties, permissions)
    {
      if pendingDecl.None? { return None; }
      if pendingEndCallback.Some? { return None; }
      var d := pendingDecl.value;
      var inst := CountCharacteristics(d.attributes, uuid);
      var charId := D.Char(d.serviceId, uuid, inst);
      pendingDecl := Some(D.Append(d, D.Entry(charId, properties, permissions), 2));
      id := Some(charId);
    }

    /** GetIdForDescriptor: walks back from the last entry, never reaching the service at the front. */
    method OwnerAndInstance(attributes: seq<D.Entry>, uuid: D.Uuid) returns (owner: Option<D.Id>, inst: nat)
      requires attributes != []
      ensures owner == D.Owner(attributes)
      ensures owner.Some? ==> inst == D.DescCount(attributes, uuid)
    {
      inst := 0;
      var i := |attributes| - 1;
      assert attributes[..i + 1] == attributes;
      while i > 0
        invariant 0 <= i < |attributes|
        invariant D.Owner(attributes) == D.Owner(attributes[..i + 1])
        invariant D.DescCount(attributes, uuid) == inst + D.DescCount(attributes[..i + 1], uuid)
      {
        var id := attributes[i].id;
        assert attributes[..i + 1][..i] == attributes[..i];
        if id.Char? { return Some(id), inst; }
        if !id.Desc? { return None, inst; }
        if id.du == uuid { inst := inst + 1; }
        i := i - 1;
      }
      owner := None;
    }

    method AddDescriptor(uuid: D.Uuid, permissions: int) returns (id: Option<D.Id>, out: seq<D.Out>)
      modifies this`pendingDecl
      ensures (Database(), id, out) == D.AddDescriptor(old(Database()), uuid, permissions)
    {
      if pendingDecl.None? { return None, []; }
      if pendingEndCallback.Some? { return None, []; }
      var d := pendingDecl.value;
      if d.attributes == [] { return None, [D.CheckFailed]; }
      var owner, inst := OwnerAndInstance(d.attributes, uuid);
      if owner.None? { return None, []; }
      var c := owner.value;
      var descId := D.Desc(c.svc, c.cu, c.ci, uuid, inst);
      pendingDecl := Some(D.Append(d, D.Entry(descId, 0, permissions), 1));
      id, out := Some(descId), [];
    }

    method CleanUpPendingData()
      modifies this`pendingId, this`pendingDecl, this`pendingEndCallback, this`pendingHandleMap
      ensures Database() == D.CleanUp(old(Database()))
    {
      pendingId, pendingDecl, pendingEndCallback, pendingHandleMap := None, None, None, map[];
    }

    method EndServiceDeclaration(callback: Option<Callback>, hal: int) returns (ok: bool, out: seq<D.Out>)
      modifies this`pendingId, this`pendingDecl, this`pendingEndCallback, this`pendingHandleMap
      ensures (Database(), ok, out) == D.End(old(Database()), callback, hal)
    {
      if callback.None? { return false, []; }
      if pendingDecl.None? { return false, []; }
      if pendingEndCallback.Some? { return false, []; }
      var d := pendingDecl.value;
      if pendingId.Some? || d.numHandles == 0 || d.attributes == [] { return false, [D.CheckFailed]; }
      var serviceId := d.attributes[0].id;
      if serviceId != D.Service(d.serviceId) { return false, [D.CheckFailed]; }
      pendingDecl := Some(d.(attributes := d.attributes[1..]));
      out := [D.AddService(d.serviceId, d.numHandles, hal)];
      if hal != BT_STATUS_SUCCESS {
        CleanUpPendingData();
        return false, out;
      }
      pendingId := Some(serviceId);
      pendingEndCallback := callback;
      ok := true;
    }

    /** Enters the pending handles into the reverse map one by one, in no particular order. */
    method EnterHandles()
      modifies this`handleToId
      ensures D.Overwrites(old(handleToId), pendingHandleMap, handleToId)
    {
      var left := pendingHandleMap.Keys;
      while left != {}
        invariant left <= pendingHandleMap.Keys
        invariant D.Overwrites(old(handleToId), Entered(pendingHandleMap, left), handleToId)
        decreases |left|
      {
        var id :| id in left;
        D.OverwritesMore(old(handleToId), Entered(pendingHandleMap, left), handleToId, id, pendingHandleMap[id]);
        assert Entered(pendingHandleMap, left - {id})
            == Entered(pendingHandleMap, left)[id := pendingHandleMap[id]];
        handleToId := handleToId[pendingHandleMap[id] := id];
        left := left - {id};
      }
      assert Entered(pendingHandleMap, left) == pendingHandleMap;
    }

    method NotifyEndCallback(status: int, id: D.ServiceId) returns (out: seq<D.Out>)
      modifies this`pendingId, this`pendingDecl, this`pendingEndCallback, this`pendingHandleMap
      modifies this`idToHandle, this`handleToId
      ensures D.Finishes(old(Database()), status, id, Database(), out)
      ensures status != BT_STATUS_SUCCESS ==> (Database(), out) == D.Finish(old(Database()), status, id)
    {
      if pendingEndCallback.None? { return [D.CheckFailed]; }
      if status == BT_STATUS_SUCCESS {
        idToHandle := pendingHandleMap + idToHandle;
        EnterHandles();
      }
      out := [D.Done(pendingEndCallback.value, status, id)];
      CleanUpPendingData();
    }

    method PopAndRequest(hal: int) returns (out: seq<D.Out>)
      requires pendingDecl.Some? && pendingDecl.value.attributes != []
      modifies this`pendingId, this`pendingDecl, this`pendingEndCallback, this`pendingHandleMap
      modifies this`idToHandle, this`handleToId
      ensures (Database(), out) == D.HandleNext(old(Database()), hal)
    {
      var d := pendingDecl.value;
      var entry := d.attributes[0];
      pendingDecl := Some(d.(attributes := d.attributes[1..]));
      if entry.id.Service? { return [D.CheckFailed]; }
      out := [D.RequestFor(d.serviceHandle, entry, hal)];
      if hal != BT_STATUS_SUCCESS {
        var end := NotifyEndCallback(hal, d.serviceId);
        return out + end;
      }
      pendingId := Some(entry.id);
    }

    method HandleNextEntry(hal: int) returns (out: seq<D.Out>)
      modifies this`pendingId, this`pendingDecl, this`pendingEndCallback, this`pendingHandleMap
      modifies this`idToHandle, this`handleToId
      ensures (Database(), out) == D.HandleNext(old(Database()), hal)
    {
      if pendingDecl.None? { return [D.CheckFailed]; }
      var d := pendingDecl.value;
      if d.attributes == [] {
        out := [D.StartService(d.serviceHandle, hal)];
        if hal != BT_STATUS_SUCCESS {
          var end := NotifyEndCallback(hal, d.serviceId);
          out := out + end;
        }
      } else {
        out := PopAndRequest(hal);
      }
    }

    method ServiceAddedCallback(server: int, status: int, id: D.ServiceId, handle: int, hal: int)
      returns (out: seq<D.Out>)
      modifies this`pendingId, this`pendingDecl, this`pendingEndCallback, this`pendingHandleMap
      modifies this`idToHandle, this`handleToId
      ensures (Database(), out) ==
              if server != serverId then (old(Database()), [])
              else D.ServiceAdded(old(Database()), status, id, handle, hal)
    {
      if server != serverId { return []; }
      if pendingId.None? || D.Service(id) != pendingId.value { return [D.CheckFailed]; }
      if pendingDecl.None? || id != pendingDecl.value.serviceId { return [D.CheckFailed]; }
      if status != BT_STATUS_SUCCESS {
        out := NotifyEndCallback(status, id);
        return;
      }
      pendingHandleMap := pendingHandleMap[D.Service(id) := handle];
      if pendingDecl.value.serviceHandle != -1 { return [D.CheckFailed]; }
      pendingDecl := Some(pendingDecl.value.(serviceHandle := handle));
      out := HandleNextEntry(hal);
    }

    method AttributeAdded(awaited: bool, status: int, service: int, handle: int, hal: int) returns (out: seq<D.Out>)
      modifies this`pendingId, this`pendingDecl, this`pendingEndCallback, this`pendingHandleMap
      modifies this`idToHandle, this`handleToId
      ensures (Database(), out) == D.AttributeAdded(old(Database()), awaited, status, service, handle, hal)
    {
      if pendingDecl.None? || pendingDecl.value.serviceHandle != service { return [D.CheckFailed]; }
      if pendingId.None? || !awaited { return [D.CheckFailed]; }
      if status != BT_STATUS_SUCCESS {
        out := NotifyEndCallback(status, pendingDecl.value.serviceId);
        return;
      }
      pendingHandleMap := pendingHandleMap[pendingId.value := handle];
      out := HandleNextEntry(hal);
    }

    method CharacteristicAddedCallback(server: int, status: int, uuid: D.Uuid, service: int, handle: int, hal: int)
      returns (out: seq<D.Out>)
      modifies this`pendingId, this`pendingDecl, this`pendingEndCallback, this`pendingHandleMap
      modifies this`idToHandle, this`handleToId
      ensures (Database(), out) ==
              if server != serverId then (old(Database()), [])
              else D.AttributeAdded(old(Database()), D.AwaitsChar(old(Database()), uuid), status, service, handle, hal)
    {
      if server != serverId { return []; }
      var awaited := pendingId.Some? && pendingId.value.Char? && pendingId.value.cu == uuid;
      out := AttributeAdded(awaited, status, service, handle, hal);
    }

    method DescriptorAddedCallback(server: int, status: int, uuid: D.Uuid, service: int, handle: int, hal: int)
      returns (out: seq<D.Out>)
      modifies this`pendingId, this`pendingDecl, this`pendingEndCallback, this`pendingHandleMap
      modifies this`idToHandle, this`handleToId
      ensures (Database(), out) ==
              if server != serverId then (old(Database()), [])
              else D.AttributeAdded(old(Database()), D.AwaitsDesc(old(Database()), uuid), status, service, handle, hal)
    {
      if server != serverId { return []; }
      var awaited := pendingId.Some? && pendingId.value.Desc? && pendingId.value.du == uuid;
      out := AttributeAdded(awaited, status, service, handle, hal);
    }

    method ServiceStartedCallback(server: int, status: int, service: int) returns (out: seq<D.Out>)
      modifies this`pendingId, this`pendingDecl, this`pendingEndCallback, this`pendingHandleMap
      modifies this`idToHandle, this`handleToId
      ensures if server != serverId then Database() == old(Database()) && out == []
              else D.StartAnswered(old(Database()), status, service, Database(), out)
    {
      if server != serverId { return []; }
      if pendingId.None? || pendingDecl.None? || pendingDecl.value.serviceHandle != service { return [D.CheckFailed]; }
      out := [];
      if status != BT_STATUS_SUCCESS { out := [D.DeleteService(service)]; }
      var end := NotifyEndCallback(status, pendingDecl.value.serviceId);
      assert [] + end == end && ([D.DeleteService(service)] + end)[1..] == end;
      out := out + end;
    }

    // -------------------------------------------------------------------------------------------
    // Connections and requests

    ghost function Links(): L.Links
      reads this`connIdMap, this`connAddrMap, this`conns
    {
      L.Links(conns, RefById(connIdMap), RefByAddress(connAddrMap))
    }

    ghost predicate LinksValid()
      reads this`connIdMap, this`connAddrMap, this`conns, this`objs, objs
    {
      && |objs| == |conns|
      && (forall i :: 0 <= i < |objs| ==> objs[i].ref == i && Mirrors(objs[i], conns[i]))
      && Registered(objs, connIdMap, connAddrMap)
      && L.Sound(Links())
    }

    /** Enters the object into both indexes. */
    method Insert(c: Connection)
      requires c.connId !in connIdMap && c.ref == |conns|
      modifies this`connIdMap, this`connAddrMap, this`conns
      ensures connIdMap == old(connIdMap)[c.connId := c]
      ensures var bucket := if c.addr in old(connAddrMap) then old(connAddrMap)[c.addr] else [];
              connAddrMap == old(connAddrMap)[c.addr := bucket + [c]]
      ensures conns == old(conns) + [L.Conn(c.connId, c.addr, map[])]
      ensures Links() == L.Connect(old(Links()), c.connId, c.addr)
    {
      connIdMap := connIdMap[c.connId := c];
      var bucket := if c.addr in connAddrMap then connAddrMap[c.addr] else [];
      connAddrMap := connAddrMap[c.addr := bucket + [c]];
      conns := conns + [L.Conn(c.connId, c.addr, map[])];
      RefsMore(old(connIdMap), old(connAddrMap), c);
      assert Refs(bucket) == L.Bucket(old(Links()), c.addr);
    }

    /** The new object is on the list and in the indexes. */
    method Register(c: Connection)
      requires LinksValid() && c.connId !in connIdMap && c.ref == |objs| && c.requests == map[]
      modifies this`connIdMap, this`connAddrMap, this`conns, this`objs
      ensures objs == old(objs) + [c] && |conns| == |objs| && Registered(objs, connIdMap, connAddrMap)
      ensures forall i :: 0 <= i < |objs| ==> objs[i].ref == i && Mirrors(objs[i], conns[i])
      ensures Links() == L.Connect(old(Links()), c.connId, c.addr)
    {
      RegisterMore(objs, connIdMap, connAddrMap, c);
      Insert(c);
      objs := objs + [c];
    }

    method AddConnection(connId: ConnId, addr: L.Address)
      requires LinksValid() && connId !in connIdMap
      modifies this`connIdMap, this`connAddrMap, this`conns, this`objs
      ensures LinksValid() && Links() == L.Connect(old(Links()), connId, addr)
      ensures old(objs) <= objs && forall i :: |old(objs)| <= i < |objs| ==> fresh(objs[i])
    {
      var connection := new Connection(connId, addr, |objs|);
      L.ConnectSound(Links(), connId, addr);
      Register(connection);
    }

    /** The first connection with the id is taken out of the bucket of the given address. */
    method RemoveFromBucket(connId: ConnId, addr: L.Address)
      requires LinksValid() && addr in connAddrMap
      modifies this`connAddrMap
      ensures addr in connAddrMap && connAddrMap == old(connAddrMap)[addr := connAddrMap[addr]]
      ensures AllListed(objs, connAddrMap[addr])
      ensures Refs(connAddrMap[addr]) == L.Without(conns, Refs(old(connAddrMap)[addr]), connId)
    {
      var bucket := connAddrMap[addr];
      ghost var rs := Refs(bucket);
      assert AllListed(objs, bucket);
      for i := 0 to |bucket|
        invariant forall k :: 0 <= k < i ==> bucket[k].connId != connId
        invariant connAddrMap == old(connAddrMap)
      {
        assert Listed(objs, bucket[i]);
        if bucket[i].connId == connId {
          WithoutAt(conns, rs, connId, i);
          RefsWithout(bucket, i);
          connAddrMap := connAddrMap[addr := bucket[..i] + bucket[i+1..]];
          return;
        }
      }
      forall k | 0 <= k < |rs| ensures rs[k] < |conns| && conns[rs[k]].id != connId {
        assert Listed(objs, bucket[k]);
      }
      WithoutNone(conns, rs, connId);
    }

    method DropConnection(connId: ConnId, addr: L.Address)
      requires LinksValid()
      modifies this`connIdMap, this`connAddrMap
      ensures LinksValid() && Links() == L.Disconnect(old(Links()), connId, addr)
    {
      L.DisconnectSound(Links(), connId, addr);
      if addr in connAddrMap {
        RemoveFromBucket(connId, addr);
        RefsReplaced(old(connAddrMap), addr, connAddrMap[addr]);
        assert Registered(objs, connIdMap, connAddrMap);
      }
      connIdMap := connIdMap - {connId};
      assert RefById(connIdMap) == old(Links()).byId - {connId};
    }

    method ConnectionCallback(connId: ConnId, server: int, connected: bool, addr: L.Address)
      requires LinksValid()
      modifies this`connIdMap, this`connAddrMap, this`conns, this`objs
      ensures LinksValid()
      ensures Links() == if server != serverId then old(Links())
                         else if connected then L.Connect(old(Links()), connId, addr)
                         else L.Disconnect(old(Links()), connId, addr)
      ensures old(objs) <= objs && forall i :: |old(objs)| <= i < |objs| ==> fresh(objs[i])
    {
      if server != serverId { return; }
      if !connected {
        DropConnection(connId, addr);
        return;
      }
      if connId in connIdMap { return; }
      AddConnection(connId, addr);
    }

    method GetConnection(connId: ConnId, addr: L.Address, req: L.RequestId) returns (c: Connection?)
      requires LinksValid()
      ensures c != null <==> L.Receives(Links(), connId, addr, req)
      ensures c != null ==> Listed(objs, c) && c.ref == Links().byId[connId]
    {
      if connId !in connIdMap { return null; }
      c := connIdMap[connId];
      assert Listed(objs, c) && Mirrors(objs[c.ref], conns[c.ref]);
      if c.addr != addr { return null; }
      if req in c.requests { return null; }
    }

    method SetRequests(c: Connection, requests: map<L.RequestId, L.Handle>)
      requires LinksValid() && Listed(objs, c)
      modifies this`conns, c`requests
      ensures LinksValid() && Links() == L.SetRequests(old(Links()), c.ref, requests)
    {
      L.TableSound(Links(), c.ref, requests);
      c.requests := requests;
      conns := conns[c.ref := conns[c.ref].(requests := requests)];
    }

    method RequestReadCallback(connId: ConnId, req: L.RequestId, addr: L.Address, handle: L.Handle)
      requires LinksValid()
      modifies this`conns, objs`requests
      ensures LinksValid() && Links() == L.Read(old(Links()), handleToId.Keys, connId, addr, req, handle)
    {
      var conn := GetConnection(connId, addr, req);
      if conn == null { return; }
      if handle !in handleToId { return; }
      SetRequests(conn, conn.requests[req := handle]);
    }

    method RequestWriteCallback(connId: ConnId, req: L.RequestId, addr: L.Address, handle: L.Handle, length: int,
                                needRsp: bool)
      requires LinksValid()
      modifies this`conns, objs`requests
      ensures LinksValid()
      ensures Links() == L.Write(old(Links()), handleToId.Keys, connId, addr, req, handle, length, needRsp)
    {
      if length < 0 { return; }
      var conn := GetConnection(connId, addr, req);
      if conn == null { return; }
      if handle !in handleToId { return; }
      if needRsp { SetRequests(conn, conn.requests[req := handle]); }
    }

    method RequestExecWriteCallback(connId: ConnId, req: L.RequestId, addr: L.Address)
      requires LinksValid()
      modifies this`conns, objs`requests
      ensures LinksValid() && Links() == L.ExecWrite(old(Links()), connId, addr, req)
    {
      var conn := GetConnection(connId, addr, req);
      if conn == null { return; }
      SetRequests(conn, conn.requests[req := L.NO_HANDLE]);
    }

    /** The search runs on after a match, so the last one counts. */
    method FindPending(addr: L.Address, req: L.RequestId) returns (c: Connection?)
      requires LinksValid()
      ensures var r := L.LastWith(Links(), L.Bucket(Links(), addr), req);
              if c == null then r.None? else r == Some(c.ref) && Listed(objs, c)
    {
      c := null;
      if addr !in connAddrMap { return; }
      var bucket := connAddrMap[addr];
      ghost var rs := Refs(bucket);
      assert AllListed(objs, bucket);
      for i := 0 to |bucket|
        invariant var r := L.LastWith(Links(), rs[..i], req);
                  if c == null then r.None? else r == Some(c.ref) && Listed(objs, c)
      {
        assert rs[..i+1][..i] == rs[..i];
        assert Listed(objs, bucket[i]);
        if req in bucket[i].requests { c := bucket[i]; }
      }
      assert rs[..|bucket|] == rs;
    }

    /** The checks before anything is sent, and the connection the response is for. */
    method FindTarget(addr: L.Address, req: L.RequestId, offset: int, value: seq<Byte>) returns (c: Connection?)
      requires LinksValid()
      ensures var r := L.Target(Links(), addr, req, offset, value);
              if c == null then r.None? else r == Some(c.ref) && Listed(objs, c)
    {
      var valid := BdAddress.FromString(addr);
      if !valid { return null; }
      if (|value| + offset) % L.SIZE_T > L.MAX_ATTR_LEN { return null; }
      c := FindPending(addr, req);
    }

    method Compose(conn: Connection, req: L.RequestId, error: int, offset: int, value: seq<Byte>)
      returns (response: L.Reply)
      requires LinksValid() && Listed(objs, conn) && L.Pending(Links(), conn.ref, req)
      ensures response == L.ReplyFor(Links(), conn.ref, req, error, offset, value)
    {
      assert Mirrors(conn, conns[conn.ref]);
      var handle := conn.requests[req];
      response := L.Reply(conn.connId, req, error, handle, 0, []);
      if handle != L.NO_HANDLE { response := response.(offset := offset, value := value); }
    }

    method Deliver(conn: Connection, req: L.RequestId, error: int, offset: int, value: seq<Byte>, hal: int)
      returns (ok: bool, reply: Option<L.Reply>)
      requires LinksValid() && Listed(objs, conn) && L.Pending(Links(), conn.ref, req)
      modifies this`conns, conn`requests
      ensures LinksValid()
      ensures (Links(), ok, reply) == L.RespondTo(old(Links()), Some(conn.ref), req, error, offset, value, hal)
    {
      var response := Compose(conn, req, error, offset, value);
      reply := Some(response);
      if hal != BT_STATUS_SUCCESS { return false, reply; }
      SetRequests(conn, conn.requests - {req});
      ok := true;
    }

    method SendResponse(addr: L.Address, req: L.RequestId, error: int, offset: int, value: seq<Byte>, hal: int)
      returns (ok: bool, reply: Option<L.Reply>)
      requires LinksValid()
      modifies this`conns, objs`requests
      ensures LinksValid() && (Links(), ok, reply) == L.Respond(old(Links()), addr, req, error, offset, value, hal)
    {
      var conn := FindTarget(addr, req, offset, value);
      if conn == null { return false, None; }
      ok, reply := Deliver(conn, req, error, offset, value, hal);
    }

    // -------------------------------------------------------------------------------------------
    // Notifications

    ghost function Indications(): N.Indications
      reads this`pendingIndications, this`succeeded, this`callbacks
    {
      N.Indications(Serials(pendingIndications), succeeded, callbacks)
    }

    /** Each pending object stands for its serial number. */
    ghost predicate IndicationsValid()
      reads this`pendingIndications, this`succeeded, this`callbacks, Shared(pendingIndications)`hasSuccess
    {
      && (forall c :: c in pendingIndications ==> Stands(pendingIndications[c]))
      && (forall n :: n in succeeded ==> n < |callbacks|)
      && (forall c, d :: c in pendingIndications && d in pendingIndications
                         && pendingIndications[c].serial == pendingIndications[d].serial ==>
            pendingIndications[c] == pendingIndications[d])
    }

    ghost predicate Stands(p: PendingIndication)
      reads this`succeeded, this`callbacks, p`hasSuccess
    {
      && p.serial < |callbacks| && p.callback == callbacks[p.serial]
      && (p.hasSuccess <==> p.serial in succeeded)
    }

    /** One place of the bucket: nothing on a connection that waits, otherwise a call of the HAL. */
    method SendOn(connId: ConnId, pending: PendingIndication, message: N.Message, status: int,
                  ghost m: map<ConnId, PendingIndication>, ghost takers: set<ConnId>)
      returns (took: bool, calls: seq<N.Sending>)
      requires Sent(m, pendingIndications, takers, pending)
      modifies this`pendingIndications
      ensures took <==> connId !in m && connId !in takers && status == BT_STATUS_SUCCESS
      ensures Sent(m, pendingIndications, if took then takers + {connId} else takers, pending)
      ensures calls == if connId in m || connId in takers then [] else [N.Sending(connId, message, status)]
    {
      if connId in pendingIndications { return false, []; }
      calls := [N.Sending(connId, message, status)];
      if status != BT_STATUS_SUCCESS { return false, calls; }
      pendingIndications := pendingIndications[connId := pending];
      took := true;
    }

    /** Sends on every connection of the bucket that is not waiting; `hal` tells where the HAL takes it. */
    method SendToAll(bucket: seq<Connection>, pending: PendingIndication, message: N.Message, hal: nat -> int)
      returns (sendCount: nat, calls: seq<N.Sending>)
      modifies this`pendingIndications
      ensures var takers := N.Takers(old(Indications()), Ids(bucket), hal);
              && Sent(old(pendingIndications), pendingIndications, takers, pending)
              && (sendCount == 0 <==> takers == {})
      ensures calls == N.Sendings(old(Indications()), Ids(bucket), message, hal)
    {
      ghost var s, ids, m := Indications(), Ids(bucket), pendingIndications;
      ghost var takers: set<ConnId> := {};
      sendCount, calls := 0, [];
      for i := 0 to |bucket|
        invariant takers == N.Takers(s, ids[..i], hal) && Sent(m, pendingIndications, takers, pending)
        invariant sendCount == 0 <==> takers == {}
        invariant calls == N.Sendings(s, ids[..i], message, hal)
      {
        var connId := bucket[i].connId;
        var took, more := SendOn(connId, pending, message, hal(i), m, takers);
        N.TakersNext(s, ids, message, hal, i);
        if took {
          sendCount := sendCount + 1;
          takers := takers + {connId};
          assert connId in takers;
        }
        calls := calls + more;
      }
      assert ids[..|bucket|] == ids;
    }

    /** Sends a new indication, shared by the connections it goes out on. */
    method Broadcast(bucket: seq<Connection>, callback: Option<Callback>, message: N.Message, hal: nat -> int)
      returns (ok: bool, calls: seq<N.Sending>)
      requires IndicationsValid()
      modifies this`pendingIndications, this`callbacks
      ensures IndicationsValid() && calls == N.Sendings(old(Indications()), Ids(bucket), message, hal)
      ensures (Indications(), ok) == N.Notify(old(Indications()), Some(Ids(bucket)), true, callback, hal)
      ensures forall c :: c in pendingIndications ==>
                || fresh(pendingIndications[c])
                || (c in old(pendingIndications) && pendingIndications[c] == old(pendingIndications)[c])
    {
      var pending := new PendingIndication(callback, |callbacks|);
      ghost var s, takers := Indications(), N.Takers(Indications(), Ids(bucket), hal);
      var sendCount;
      sendCount, calls := SendToAll(bucket, pending, message, hal);
      callbacks := callbacks + [callback];
      N.TakersWere(s, Ids(bucket), hal);
      assert Stands(pending);
      forall c | c in pendingIndications ensures Stands(pendingIndications[c]) {
        if c !in takers { assert old(Stands(pendingIndications[c])); }
      }
      SerialsAfter(old(pendingIndications), pendingIndications, takers, pending);
      ok := sendCount != 0;
    }

    lemma BucketIds(addr: L.Address)
      requires LinksValid() && addr in connAddrMap
      ensures Ids(connAddrMap[addr]) == L.IdsOf(Links(), Links().buckets[addr])
    {
      var bucket := connAddrMap[addr];
      assert AllListed(objs, bucket);
      forall i | 0 <= i < |bucket| ensures Ids(bucket)[i] == L.IdsOf(Links(), Refs(bucket))[i] {
        assert Listed(objs, bucket[i]) && Mirrors(objs[bucket[i].ref], conns[bucket[i].ref]);
      }
    }

    method SendNotification(addr: L.Address, charId: D.Id, confirm: bool, value: seq<Byte>,
                            callback: Option<Callback>, hal: nat -> int)
      returns (ok: bool, calls: seq<N.Sending>)
      requires LinksValid() && IndicationsValid()
      modifies this`pendingIndications, this`callbacks
      ensures IndicationsValid()
      ensures var ids, message := L.ConnectionsOf(Links(), addr), MessageFor(idToHandle, charId, confirm, value);
              && (Indications(), ok) == N.Notify(old(Indications()), ids, message.Some?, callback, hal)
              && calls == N.AllSendings(old(Indications()), ids, message, hal)
      ensures forall x :: x in calls ==>
                && charId in idToHandle && x.message.handle == idToHandle[charId]
                && x.message.confirm == confirm && x.message.value == value
      ensures forall c :: c in pendingIndications ==>
                || fresh(pendingIndications[c])
                || (c in old(pendingIndications) && pendingIndications[c] == old(pendingIndications)[c])
    {
      var valid := BdAddress.FromString(addr);
      if !valid { return false, []; }
      if addr !in connAddrMap { return false, []; }
      if charId !in idToHandle { return false, []; }
      BucketIds(addr);
      var message := N.Message(idToHandle[charId], confirm, value);
      N.SendingsExactly(Indications(), Ids(connAddrMap[addr]), message, hal);
      ok, calls := Broadcast(connAddrMap[addr], callback, message, hal);
    }

    /** No connection is left waiting on the object. */
    method IsUnique(pending: PendingIndication) returns (unique: bool)
      requires forall c :: c in pendingIndications && pendingIndications[c].serial == pending.serial ==>
                 pendingIndications[c] == pending
      ensures unique <==> !N.Awaited(Serials(pendingIndications), pending.serial)
    {
      unique := forall c | c in pendingIndications :: pendingIndications[c] != pending;
      AwaitedMeans(pendingIndications, pending);
    }

    /** Takes the connection off its indication, noting a success. */
    method TakeOff(connId: ConnId, pending: PendingIndication, status: int)
      requires IndicationsValid() && connId in pendingIndications && pending == pendingIndications[connId]
      modifies this`pendingIndications, this`succeeded, pending`hasSuccess
      ensures IndicationsValid() && Stands(pending)
      ensures pendingIndications == old(pendingIndications) - {connId}
      ensures succeeded == if status == BT_STATUS_SUCCESS then old(succeeded) + {pending.serial} else old(succeeded)
      ensures forall c :: c in pendingIndications && pendingIndications[c].serial == pending.serial ==>
                pendingIndications[c] == pending
    {
      assert Stands(pending);
      pendingIndications := pendingIndications - {connId};
      if status == BT_STATUS_SUCCESS {
        pending.hasSuccess := true;
        succeeded := succeeded + {pending.serial};
      }
    }

    method IndicationSentCallback(connId: ConnId, status: int) returns (invoked: Option<(Callback, int)>)
      requires IndicationsValid()
      modifies this`pendingIndications, this`succeeded, Shared(pendingIndications)`hasSuccess
      ensures IndicationsValid() && Indications() == N.Confirm(old(Indications()), connId, status).0
      ensures invoked == N.Invoked(old(Indications()), connId, status)
      ensures forall c :: c in pendingIndications ==>
                c in old(pendingIndications) && pendingIndications[c] == old(pendingIndications)[c]
    {
      if connId !in pendingIndications { return None; }
      var pending := pendingIndications[connId];
      assert pending in Shared(pendingIndications);
      TakeOff(connId, pending, status);
      assert Serials(pendingIndications) == Serials(old(pendingIndications)) - {connId};
      var unique := IsUnique(pending);
      invoked := None;
      if unique && pending.callback.Some? {
        invoked := Some((pending.callback.value, if pending.hasSuccess then N.GATT_ERROR_NONE else status));
      }
    }
  }
}
