/**
 Connections of the GATT server and the ATT requests pending on them (service/gatt_server.cpp): one
 index by connection id, one by device address, and a table of unanswered requests per connection.
 Connection objects are known by the order in which they were made, so that one which has left an index but
 is still in the other keeps its identity and its requests.
 */
module GattConnections {
  import opened Common
  import opened BdAddress

  type Address = string
  type RequestId = int
  type Handle = int
  type Ref = nat

  /** Capacity of an attribute value in the HAL's response structure. */
  const MAX_ATTR_LEN := 600
  const SIZE_T := 0x1_0000_0000_0000_0000
  /** Stands for "no particular attribute" in an Execute Write Request. */
  const NO_HANDLE := -1

  datatype Conn = Conn(id: ConnId, addr: Address, requests: map<RequestId, Handle>)

  /** All connection objects made so far, and the two indexes. */
  datatype Links = Links(objs: seq<Conn>, byId: map<ConnId, Ref>, buckets: map<Address, seq<Ref>>)

  const NO_LINKS := Links([], map[], map[])

  function Bucket(s: Links, addr: Address): seq<Ref> { if addr in s.buckets then s.buckets[addr] else [] }

  predicate NoDuplicates(rs: seq<Ref>) { forall i, j :: 0 <= i < j < |rs| ==> rs[i] != rs[j] }

  /** The objects of one address, each once. */
  ghost predicate GoodBucket(objs: seq<Conn>, addr: Address, rs: seq<Ref>) {
    NoDuplicates(rs) && forall i :: 0 <= i < |rs| ==> rs[i] < |objs| && objs[rs[i]].addr == addr
  }

  /** A connection known by id exists, has that id and is in the bucket of its address. */
  ghost predicate Known(s: Links, id: ConnId)
    requires id in s.byId
  {
    var r := s.byId[id];
    r < |s.objs| && s.objs[r].id == id && r in Bucket(s, s.objs[r].addr)
  }

  ghost predicate Sound(s: Links) {
    && (forall id :: id in s.byId ==> Known(s, id))
    && (forall a :: a in s.buckets ==> GoodBucket(s.objs, a, s.buckets[a]))
  }

  lemma InBucket(s: Links, addr: Address, r: Ref)
    requires Sound(s) && r in Bucket(s, addr)
    ensures r < |s.objs| && s.objs[r].addr == addr
  {
    assert GoodBucket(s.objs, addr, s.buckets[addr]);
  }

  // ---------------------------------------------------------------------------------------------
  // Specification

  /** The bucket without its first object for the connection id. */
  function Without(objs: seq<Conn>, rs: seq<Ref>, id: ConnId): (r: seq<Ref>)
    ensures forall x :: x in r ==> x in rs
  {
    if rs == [] then []
    else if rs[0] < |objs| && objs[rs[0]].id == id then rs[1..]
    else [rs[0]] + Without(objs, rs[1..], id)
  }

  function Connect(s: Links, id: ConnId, addr: Address): Links {
    if id in s.byId then s
    else
      Links(s.objs + [Conn(id, addr, map[])], s.byId[id := |s.objs|],
            s.buckets[addr := Bucket(s, addr) + [|s.objs|]])
  }

  function Disconnect(s: Links, id: ConnId, addr: Address): Links {
    s.(byId := s.byId - {id},
       buckets := if addr in s.buckets then s.buckets[addr := Without(s.objs, s.buckets[addr], id)] else s.buckets)
  }

  function SetRequests(s: Links, r: Ref, requests: map<RequestId, Handle>): Links
    requires r < |s.objs|
  {
    s.(objs := s.objs[r := s.objs[r].(requests := requests)])
  }

  /** GetConnection: known, of that device, and the request id is not in use. */
  predicate Receives(s: Links, id: ConnId, addr: Address, req: RequestId) {
    && id in s.byId && s.byId[id] < |s.objs|
    && s.objs[s.byId[id]].addr == addr && req !in s.objs[s.byId[id]].requests
  }

  function Record(s: Links, id: ConnId, req: RequestId, handle: Handle): Links
    requires id in s.byId && s.byId[id] < |s.objs|
  {
    SetRequests(s, s.byId[id], s.objs[s.byId[id]].requests[req := handle])
  }

  function Read(s: Links, handles: set<Handle>, id: ConnId, addr: Address, req: RequestId, handle: Handle): Links {
    if Receives(s, id, addr, req) && handle in handles then Record(s, id, req, handle) else s
  }

  /** Only a write that wants a response is recorded. */
  function Write(s: Links, handles: set<Handle>, id: ConnId, addr: Address, req: RequestId, handle: Handle,
                 length: int, needRsp: bool): Links
  {
    if length >= 0 && Receives(s, id, addr, req) && handle in handles && needRsp then Record(s, id, req, handle) else s
  }

  function ExecWrite(s: Links, id: ConnId, addr: Address, req: RequestId): Links {
    if Receives(s, id, addr, req) then Record(s, id, req, NO_HANDLE) else s
  }

  predicate Pending(s: Links, r: Ref, req: RequestId) { r < |s.objs| && req in s.objs[r].requests }

  /** The last object in the list on which the request is pending. */
  function LastWith(s: Links, rs: seq<Ref>, req: RequestId): (r: Option<Ref>)
    ensures r.Some? ==> r.value in rs && Pending(s, r.value, req)
    ensures r.None? ==> forall x :: x in rs ==> !Pending(s, x, req)
  {
    if rs == [] then None
    else if Pending(s, rs[|rs|-1], req) then Some(rs[|rs|-1])
    else LastWith(s, rs[..|rs|-1], req)
  }

  function IdsOf(s: Links, rs: seq<Ref>): seq<ConnId> {
    seq(|rs|, i requires 0 <= i < |rs| => if rs[i] < |s.objs| then s.objs[rs[i]].id else 0)
  }

  /** The connections a notification for the device is tried on; none for an unknown device. */
  function ConnectionsOf(s: Links, addr: Address): Option<seq<ConnId>> {
    if ValidAddress(addr) && addr in s.buckets then Some(IdsOf(s, s.buckets[addr])) else None
  }

  /** What is handed to send_response: for an Execute Write Request no value. */
  datatype Reply = Reply(conn: ConnId, req: RequestId, error: int, handle: Handle, offset: int, value: seq<Byte>)

  /** The size check is made on unsigned numbers. */
  predicate TooLarge(offset: int, value: seq<Byte>) { (|value| + offset) % SIZE_T > MAX_ATTR_LEN }

  function ReplyFor(s: Links, r: Ref, req: RequestId, error: int, offset: int, value: seq<Byte>): Reply
    requires Pending(s, r, req)
  {
    var handle := s.objs[r].requests[req];
    if handle == NO_HANDLE then Reply(s.objs[r].id, req, error, handle, 0, [])
    else Reply(s.objs[r].id, req, error, handle, offset, value)
  }

  /** The object a response is for, if it passes the checks. */
  function Target(s: Links, addr: Address, req: RequestId, offset: int, value: seq<Byte>): (r: Option<Ref>)
    ensures r.Some? ==> r.value in Bucket(s, addr) && Pending(s, r.value, req)
  {
    if !ValidAddress(addr) || TooLarge(offset, value) then None else LastWith(s, Bucket(s, addr), req)
  }

  function RespondTo(s: Links, target: Option<Ref>, req: RequestId, error: int, offset: int, value: seq<Byte>, hal: int)
    : (Links, bool, Option<Reply>)
    requires target.Some? ==> Pending(s, target.value, req)
  {
    match target
    case None => (s, false, None)
    case Some(r) =>
      var reply := ReplyFor(s, r, req, error, offset, value);
      if hal != BT_STATUS_SUCCESS then (s, false, Some(reply))
      else (SetRequests(s, r, s.objs[r].requests - {req}), true, Some(reply))
  }

  function Respond(s: Links, addr: Address, req: RequestId, error: int, offset: int, value: seq<Byte>, hal: int)
    : (Links, bool, Option<Reply>)
  {
    RespondTo(s, Target(s, addr, req, offset, value), req, error, offset, value, hal)
  }

  /** For offsets of 32 bits the check lets through exactly the values whose end lies within the buffer.
      Hence a value longer than the buffer passes if and only if a negative offset makes up for it. */
  lemma SizeCheck(offset: int, value: seq<Byte>)
    requires -0x8000_0000 <= offset < 0x8000_0000 && |value| < 0x1_0000_0000
    ensures !TooLarge(offset, value) <==> 0 <= |value| + offset <= 600
    ensures !TooLarge(offset, value) && |value| > 600 <==>
              offset < 0 && 600 < |value| && 0 <= |value| + offset <= 600
  {
    var sum := |value| + offset;
    if sum < 0 {
      assert sum % SIZE_T == sum + SIZE_T;
    } else {
      assert sum % SIZE_T == sum;
    }
  }

  // ---------------------------------------------------------------------------------------------
  // The indexes stay sound

  lemma {:induction false} WithoutSound(objs: seq<Conn>, addr: Address, rs: seq<Ref>, id: ConnId)
    requires GoodBucket(objs, addr, rs)
    ensures GoodBucket(objs, addr, Without(objs, rs, id))
  {
    if rs != [] && objs[rs[0]].id != id {
      var rest := Without(objs, rs[1..], id);
      WithoutSound(objs, addr, rs[1..], id);
      assert rs[0] !in rs[1..];
      assert rs[0] !in rest;
    }
  }

  /** Only an object for that id is taken out. */
  lemma {:induction false} WithoutKeeps(objs: seq<Conn>, rs: seq<Ref>, id: ConnId, r: Ref)
    requires r in rs && r < |objs| && objs[r].id != id
    ensures r in Without(objs, rs, id)
  {
    if rs[0] != r {
      assert r in rs[1..];
      WithoutKeeps(objs, rs[1..], id, r);
    }
  }

  lemma ConnectSound(s: Links, id: ConnId, addr: Address)
    requires Sound(s)
    ensures Sound(Connect(s, id, addr))
  {
    if id !in s.byId {
      var s' := Connect(s, id, addr);
      forall i | i in s'.byId ensures Known(s', i) {
        if i == id { assert Bucket(s', addr)[|Bucket(s, addr)|] == |s.objs|; } else { assert Known(s, i); }
      }
      forall a | a in s'.buckets ensures GoodBucket(s'.objs, a, s'.buckets[a]) {
        assert a in s.buckets ==> GoodBucket(s.objs, a, s.buckets[a]);
      }
    }
  }

  lemma DisconnectSound(s: Links, id: ConnId, addr: Address)
    requires Sound(s)
    ensures Sound(Disconnect(s, id, addr))
  {
    var s' := Disconnect(s, id, addr);
    forall i | i in s'.byId ensures Known(s', i) {
      assert Known(s, i);
      if s.objs[s.byId[i]].addr == addr { WithoutKeeps(s.objs, Bucket(s, addr), id, s.byId[i]); }
    }
    forall a | a in s'.buckets ensures GoodBucket(s'.objs, a, s'.buckets[a]) {
      assert GoodBucket(s.objs, a, s.buckets[a]);
      if a == addr { WithoutSound(s.objs, a, s.buckets[a], id); }
    }
  }

  /** Changing one request table leaves the indexes alone. */
  lemma TableSound(s: Links, r: Ref, requests: map<RequestId, Handle>)
    requires Sound(s) && r < |s.objs|
    ensures Sound(SetRequests(s, r, requests))
  {
    var s' := SetRequests(s, r, requests);
    forall i | i in s'.byId ensures Known(s', i) { assert Known(s, i); }
    forall a | a in s'.buckets ensures GoodBucket(s'.objs, a, s'.buckets[a]) {
      assert GoodBucket(s.objs, a, s.buckets[a]);
    }
  }

  // ---------------------------------------------------------------------------------------------
  // The two indexes agree

  /** The object is the one its id leads to. */
  predicate Live(s: Links, r: Ref) { r < |s.objs| && s.objs[r].id in s.byId && s.byId[s.objs[r].id] == r }

  ghost predicate AllLive(s: Links, rs: seq<Ref>) { forall i :: 0 <= i < |rs| ==> Live(s, rs[i]) }

  /** Nothing is in a bucket that is not connected. */
  ghost predicate Agree(s: Links) {
    Sound(s) && forall a :: a in s.buckets ==> AllLive(s, s.buckets[a])
  }

  /** When the indexes agree, the bucket of an address holds exactly the connections with that address. */
  lemma AgreeExactly(s: Links, addr: Address, r: Ref)
    requires Agree(s)
    ensures r in Bucket(s, addr) <==> Live(s, r) && s.objs[r].addr == addr
  {
    if r in Bucket(s, addr) {
      InBucket(s, addr, r);
      assert AllLive(s, s.buckets[addr]);
    } else if Live(s, r) {
      assert Known(s, s.objs[r].id);
    }
  }

  lemma {:induction false} WithoutFirst(objs: seq<Conn>, rs: seq<Ref>, id: ConnId, r: Ref)
    requires NoDuplicates(rs) && r in rs && r < |objs| && objs[r].id == id
    requires forall i :: 0 <= i < |rs| && rs[i] != r ==> rs[i] >= |objs| || objs[rs[i]].id != id
    ensures r !in Without(objs, rs, id)
  {
    if rs[0] == r {
      assert r !in rs[1..];
    } else {
      assert r in rs[1..];
      WithoutFirst(objs, rs[1..], id, r);
    }
  }

  lemma StaysLive(s: Links, id: ConnId, addr: Address, r: Ref)
    requires id !in s.byId && (Live(s, r) || r == |s.objs|)
    ensures Live(Connect(s, id, addr), r)
  {
    var objs' := Connect(s, id, addr).objs;
    assert r < |s.objs| ==> objs'[r] == s.objs[r];
    assert r == |s.objs| ==> objs'[r] == Conn(id, addr, map[]);
  }

  lemma BucketStaysLive(s: Links, id: ConnId, addr: Address, a: Address)
    requires id !in s.byId && AllLive(s, Bucket(s, a))
    ensures AllLive(Connect(s, id, addr), Bucket(Connect(s, id, addr), a))
  {
    var rs, rs' := Bucket(s, a), Bucket(Connect(s, id, addr), a);
    assert rs' == if a == addr then rs + [|s.objs|] else rs;
    forall i | 0 <= i < |rs'| ensures Live(Connect(s, id, addr), rs'[i]) {
      assert i < |rs| ==> rs'[i] == rs[i];
      StaysLive(s, id, addr, rs'[i]);
    }
  }

  lemma ConnectAgrees(s: Links, id: ConnId, addr: Address)
    requires Agree(s)
    ensures Agree(Connect(s, id, addr))
  {
    ConnectSound(s, id, addr);
    if id !in s.byId {
      var s' := Connect(s, id, addr);
      forall a | a in s'.buckets ensures AllLive(s', s'.buckets[a]) {
        assert AllLive(s, Bucket(s, a));
        BucketStaysLive(s, id, addr, a);
        assert s'.buckets[a] == Bucket(s', a);
      }
    }
  }

  lemma DisconnectKeepsAgreement(s: Links, id: ConnId, addr: Address)
    requires Agree(s) && (id in s.byId ==> s.byId[id] < |s.objs| && s.objs[s.byId[id]].addr == addr)
    ensures Agree(Disconnect(s, id, addr))
  {
    var s' := Disconnect(s, id, addr);
    DisconnectSound(s, id, addr);
    forall a | a in s'.buckets ensures AllLive(s', s'.buckets[a]) {
      forall i | 0 <= i < |s'.buckets[a]| ensures Live(s', s'.buckets[a][i]) {
        var r := s'.buckets[a][i];
        assert r in s.buckets[a];
        AgreeExactly(s, a, r);
        if s.objs[r].id == id { LeavesBucket(s, id, addr); }
      }
    }
  }

  /** Disconnected under its own address, a connection leaves its bucket. */
  lemma LeavesBucket(s: Links, id: ConnId, addr: Address)
    requires Agree(s) && id in s.byId && s.byId[id] < |s.objs| && s.objs[s.byId[id]].addr == addr
    ensures s.byId[id] !in Bucket(Disconnect(s, id, addr), addr)
  {
    var rs := Bucket(s, addr);
    assert Known(s, id) && GoodBucket(s.objs, addr, rs) && AllLive(s, rs);
    WithoutFirst(s.objs, rs, id, s.byId[id]);
  }

  /** A disconnect keeps the indexes in agreement if and only if it names the address the connection was
      made with, or an unknown connection. */
  lemma DisconnectAgrees(s: Links, id: ConnId, addr: Address)
    requires Agree(s)
    ensures Agree(Disconnect(s, id, addr)) <==> Orderly(s, OnDisconnect(id, addr))
  {
    if id in s.byId {
      assert Known(s, id);
      var r := s.byId[id];
      if s.objs[r].addr == addr {
        DisconnectKeepsAgreement(s, id, addr);
      } else if Agree(Disconnect(s, id, addr)) {
        AgreeExactly(Disconnect(s, id, addr), s.objs[r].addr, r);
        assert false;
      }
    } else {
      DisconnectKeepsAgreement(s, id, addr);
    }
  }

  lemma TableAgrees(s: Links, r: Ref, requests: map<RequestId, Handle>)
    requires Agree(s) && r < |s.objs|
    ensures Agree(SetRequests(s, r, requests))
  {
    TableSound(s, r, requests);
    var s' := SetRequests(s, r, requests);
    forall a | a in s'.buckets ensures AllLive(s', s'.buckets[a]) { assert AllLive(s, s.buckets[a]); }
  }

  // ---------------------------------------------------------------------------------------------
  // Runs and accounting

  datatype Event =
    | OnConnect(id: ConnId, addr: Address)
    | OnDisconnect(id: ConnId, addr: Address)
    | OnRead(handles: set<Handle>, id: ConnId, addr: Address, req: RequestId, handle: Handle)
    | OnWrite(handles: set<Handle>, id: ConnId, addr: Address, req: RequestId, handle: Handle, length: int,
              needRsp: bool)
    | OnExecWrite(id: ConnId, addr: Address, req: RequestId)
    | CallRespond(addr: Address, req: RequestId, error: int, offset: int, value: seq<Byte>, hal: int)

  function Step(s: Links, e: Event): Links {
    match e
    case OnConnect(id, addr) => Connect(s, id, addr)
    case OnDisconnect(id, addr) => Disconnect(s, id, addr)
    case OnRead(hs, id, addr, req, h) => Read(s, hs, id, addr, req, h)
    case OnWrite(hs, id, addr, req, h, length, needRsp) => Write(s, hs, id, addr, req, h, length, needRsp)
    case OnExecWrite(id, addr, req) => ExecWrite(s, id, addr, req)
    case CallRespond(addr, req, error, offset, value, hal) => Respond(s, addr, req, error, offset, value, hal).0
  }

  lemma RecordSound(s: Links, id: ConnId, req: RequestId, handle: Handle)
    requires Sound(s) && id in s.byId && s.byId[id] < |s.objs|
    ensures Sound(Record(s, id, req, handle))
  {
    TableSound(s, s.byId[id], s.objs[s.byId[id]].requests[req := handle]);
  }

  lemma StepSound(s: Links, e: Event)
    requires Sound(s)
    ensures Sound(Step(s, e))
  {
    match e
    case OnConnect(id, addr) => ConnectSound(s, id, addr);
    case OnDisconnect(id, addr) => DisconnectSound(s, id, addr);
    case OnRead(_, id, addr, req, h) =>
      if Receives(s, id, addr, req) { RecordSound(s, id, req, h); }
    case OnWrite(_, id, addr, req, h, _, _) =>
      if Receives(s, id, addr, req) { RecordSound(s, id, req, h); }
    case OnExecWrite(id, addr, req) =>
      if Receives(s, id, addr, req) { RecordSound(s, id, req, NO_HANDLE); }
    case CallRespond(addr, req, _, offset, value, _) =>
      var r := Target(s, addr, req, offset, value);
      if r.Some? { TableSound(s, r.value, s.objs[r.value].requests - {req}); }
  }

  /** The stack disconnects a connection under the address it was made with. */
  predicate Orderly(s: Links, e: Event) {
    e.OnDisconnect? && e.id in s.byId ==> s.byId[e.id] < |s.objs| && s.objs[s.byId[e.id]].addr == e.addr
  }

  lemma RecordAgrees(s: Links, id: ConnId, req: RequestId, handle: Handle)
    requires Agree(s) && id in s.byId && s.byId[id] < |s.objs|
    ensures Agree(Record(s, id, req, handle))
  {
    TableAgrees(s, s.byId[id], s.objs[s.byId[id]].requests[req := handle]);
  }

  lemma RespondAgrees(s: Links, e: Event)
    requires Agree(s) && e.CallRespond?
    ensures Agree(Step(s, e))
  {
    var r := Target(s, e.addr, e.req, e.offset, e.value);
    if r.Some? { TableAgrees(s, r.value, s.objs[r.value].requests - {e.req}); }
  }

  lemma StepAgrees(s: Links, e: Event)
    requires Agree(s) && Orderly(s, e)
    ensures Agree(Step(s, e))
  {
    match e
    case OnConnect(id, addr) => ConnectAgrees(s, id, addr);
    case OnDisconnect(id, addr) => DisconnectAgrees(s, id, addr);
    case OnRead(_, id, addr, req, h) =>
      if Receives(s, id, addr, req) { RecordAgrees(s, id, req, h); }
    case OnWrite(_, id, addr, req, h, _, _) =>
      if Receives(s, id, addr, req) { RecordAgrees(s, id, req, h); }
    case OnExecWrite(id, addr, req) =>
      if Receives(s, id, addr, req) { RecordAgrees(s, id, req, NO_HANDLE); }
    case CallRespond(_, _, _, _, _, _) => RespondAgrees(s, e);
  }

  /** A request of one connection object. */
  datatype Tag = Tag(ref: Ref, req: RequestId, handle: Handle)

  /** The request can still be answered. */
  predicate Open(s: Links, t: Tag) {
    && Pending(s, t.ref, t.req) && s.objs[t.ref].requests[t.req] == t.handle
    && t.ref in Bucket(s, s.objs[t.ref].addr)
  }

  /** Which request, if any, the event records. */
  function Recorded(s: Links, e: Event): Option<Tag> {
    match e
    case OnRead(hs, id, addr, req, h) =>
      if Receives(s, id, addr, req) && h in hs then Some(Tag(s.byId[id], req, h)) else None
    case OnWrite(hs, id, addr, req, h, length, needRsp) =>
      if length >= 0 && Receives(s, id, addr, req) && h in hs && needRsp then Some(Tag(s.byId[id], req, h)) else None
    case OnExecWrite(id, addr, req) =>
      if Receives(s, id, addr, req) then Some(Tag(s.byId[id], req, NO_HANDLE)) else None
    case _ => None
  }

  /** Which request, if any, the event answers. */
  function Answered(s: Links, e: Event): Option<Tag> {
    if !e.CallRespond? || e.hal != BT_STATUS_SUCCESS then None
    else match Target(s, e.addr, e.req, e.offset, e.value)
      case None => None
      case Some(r) => Some(Tag(r, e.req, s.objs[r].requests[e.req]))
  }

  /** Whether the event drops the request with its connection object. */
  predicate Drops(s: Links, e: Event, t: Tag) {
    && e.OnDisconnect? && Open(s, t)
    && t.ref !in Bucket(Disconnect(s, e.id, e.addr), s.objs[t.ref].addr)
  }

  function One(b: bool): nat { if b then 1 else 0 }

  lemma TableBalances(s: Links, r: Ref, requests: map<RequestId, Handle>, t: Tag)
    requires r < |s.objs|
    ensures t.ref != r ==> (Open(SetRequests(s, r, requests), t) <==> Open(s, t))
    ensures t.ref == r ==> (Open(SetRequests(s, r, requests), t) <==>
                              t.req in requests && requests[t.req] == t.handle && r in Bucket(s, s.objs[r].addr))
  {
    if t.ref < |s.objs| {
      assert Bucket(SetRequests(s, r, requests), s.objs[t.ref].addr) == Bucket(s, s.objs[t.ref].addr);
    }
  }

  lemma ConnectBalances(s: Links, id: ConnId, addr: Address, t: Tag)
    requires Sound(s)
    ensures Open(Connect(s, id, addr), t) <==> Open(s, t)
  {
    if id !in s.byId {
      var s' := Connect(s, id, addr);
      if t.ref < |s.objs| && s.objs[t.ref].addr == addr {
        assert t.ref in Bucket(s', addr) <==> t.ref in Bucket(s, addr);
      }
    }
  }

  lemma DisconnectBalances(s: Links, id: ConnId, addr: Address, t: Tag)
    ensures Open(Disconnect(s, id, addr), t) ==> Open(s, t)
    ensures Open(s, t) && !Open(Disconnect(s, id, addr), t) <==> Drops(s, OnDisconnect(id, addr), t)
  {
    if t.ref < |s.objs| && s.objs[t.ref].addr == addr {
      assert Bucket(Disconnect(s, id, addr), addr) == Without(s.objs, Bucket(s, addr), id);
    }
  }

  lemma RecordBalances(s: Links, id: ConnId, req: RequestId, handle: Handle, t: Tag)
    requires Sound(s) && id in s.byId && s.byId[id] < |s.objs| && req !in s.objs[s.byId[id]].requests
    ensures Open(Record(s, id, req, handle), t) <==> Open(s, t) || t == Tag(s.byId[id], req, handle)
    ensures !Open(s, Tag(s.byId[id], req, handle))
  {
    assert Known(s, id);
    TableBalances(s, s.byId[id], s.objs[s.byId[id]].requests[req := handle], t);
  }

  lemma AnswerBalances(s: Links, addr: Address, r: Ref, req: RequestId, t: Tag)
    requires Sound(s) && r in Bucket(s, addr) && Pending(s, r, req)
    ensures var answered := Tag(r, req, s.objs[r].requests[req]);
            && Open(s, answered)
            && (Open(SetRequests(s, r, s.objs[r].requests - {req}), t) <==> Open(s, t) && t != answered)
  {
    InBucket(s, addr, r);
    TableBalances(s, r, s.objs[r].requests - {req}, t);
  }

  /** One step changes the open requests exactly by what it records, answers and drops. */
  lemma StepBalances(s: Links, e: Event, t: Tag)
    requires Sound(s)
    ensures One(Open(Step(s, e), t)) + One(Answered(s, e) == Some(t)) + One(Drops(s, e, t))
            == One(Open(s, t)) + One(Recorded(s, e) == Some(t))
  {
    match e
    case OnConnect(id, addr) => ConnectBalances(s, id, addr, t);
    case OnDisconnect(id, addr) => DisconnectBalances(s, id, addr, t);
    case OnRead(_, id, addr, req, h) =>
      if Receives(s, id, addr, req) { RecordBalances(s, id, req, h, t); }
    case OnWrite(_, id, addr, req, h, _, _) =>
      if Receives(s, id, addr, req) { RecordBalances(s, id, req, h, t); }
    case OnExecWrite(id, addr, req) =>
      if Receives(s, id, addr, req) { RecordBalances(s, id, req, NO_HANDLE, t); }
    case CallRespond(addr, req, _, offset, value, _) =>
      var r := Target(s, addr, req, offset, value);
      if r.Some? { AnswerBalances(s, addr, r.value, req, t); }
  }

  function Run(s: Links, es: seq<Event>): Links {
    if es == [] then s else Step(Run(s, es[..|es|-1]), es[|es|-1])
  }

  /** A run may also be unrolled from its first event. */
  lemma {:induction false} RunCons(s: Links, e: Event, es: seq<Event>)
    ensures Run(s, [e] + es) == Run(Step(s, e), es)
  {
    var all := [e] + es;
    if es == [] {
      assert all[..0] == [];
    } else {
      assert all[..|all|-1] == [e] + es[..|es|-1];
      RunCons(s, e, es[..|es|-1]);
    }
  }

  lemma {:induction false} RunSound(es: seq<Event>)
    ensures Sound(Run(NO_LINKS, es))
  {
    if es != [] {
      RunSound(es[..|es|-1]);
      StepSound(Run(NO_LINKS, es[..|es|-1]), es[|es|-1]);
    }
  }

  /** How often a run records, answers and drops a request. */
  function Recordings(s: Links, es: seq<Event>, t: Tag): nat {
    if es == [] then 0
    else Recordings(s, es[..|es|-1], t) + One(Recorded(Run(s, es[..|es|-1]), es[|es|-1]) == Some(t))
  }

  function Answers(s: Links, es: seq<Event>, t: Tag): nat {
    if es == [] then 0
    else Answers(s, es[..|es|-1], t) + One(Answered(Run(s, es[..|es|-1]), es[|es|-1]) == Some(t))
  }

  function Losses(s: Links, es: seq<Event>, t: Tag): nat {
    if es == [] then 0
    else Losses(s, es[..|es|-1], t) + One(Drops(Run(s, es[..|es|-1]), es[|es|-1], t))
  }

  /** Recorded = answered + open + dropped, for every connection object, request id and handle and after
      every run, orderly or not. In particular nothing is answered more often than it was recorded, and only
      for the handle it arrived for; a write without response, never recorded, is never answered. */
  lemma {:induction false} Accounting(es: seq<Event>, t: Tag)
    ensures Recordings(NO_LINKS, es, t)
            == Answers(NO_LINKS, es, t) + Losses(NO_LINKS, es, t) + One(Open(Run(NO_LINKS, es), t))
  {
    if es != [] {
      var init := es[..|es|-1];
      Accounting(init, t);
      RunSound(init);
      StepBalances(Run(NO_LINKS, init), es[|es|-1], t);
    }
  }

  ghost predicate AllOrderly(es: seq<Event>) {
    es == [] || (AllOrderly(es[..|es|-1]) && Orderly(Run(NO_LINKS, es[..|es|-1]), es[|es|-1]))
  }

  lemma {:induction false} RunAgrees(es: seq<Event>)
    requires AllOrderly(es)
    ensures Agree(Run(NO_LINKS, es))
  {
    if es != [] {
      RunAgrees(es[..|es|-1]);
      StepAgrees(Run(NO_LINKS, es[..|es|-1]), es[|es|-1]);
    }
  }

  /** When a response goes out: exactly when the address is well-formed, the value fits, the HAL takes it and
      the request is pending on a connection object of that device, of which the latest counts. What is handed
      to the HAL names that connection, the request, the error and the handle the request arrived for, and
      carries offset and value unless it was an execute write. That request alone is closed. */
  lemma RespondExactly(s: Links, addr: Address, req: RequestId, error: int, offset: int, value: seq<Byte>, hal: int)
    requires Sound(s)
    ensures var (s', ok, reply) := Respond(s, addr, req, error, offset, value, hal);
            && (reply.Some? <==> ValidAddress(addr) && !TooLarge(offset, value)
                                 && exists r :: r in Bucket(s, addr) && Pending(s, r, req))
            && (ok <==> reply.Some? && hal == BT_STATUS_SUCCESS)
            && (!ok ==> s' == s)
            && (reply.Some? ==>
                  exists t :: && Open(s, t) && t.req == req && s.objs[t.ref].addr == addr
                              && Latest(s, Bucket(s, addr), t.ref, req)
                              && reply.value.conn == s.objs[t.ref].id && reply.value.req == req
                              && reply.value.error == error && reply.value.handle == t.handle
                              && (t.handle != NO_HANDLE ==> reply.value.offset == offset && reply.value.value == value)
                              && (t.handle == NO_HANDLE ==> reply.value.offset == 0 && reply.value.value == [])
                              && (ok ==> forall u :: Open(s', u) <==> Open(s, u) && u != t))
  {
    var r := Target(s, addr, req, offset, value);
    if r.Some? {
      var t := Tag(r.value, req, s.objs[r.value].requests[req]);
      var s' := SetRequests(s, r.value, s.objs[r.value].requests - {req});
      InBucket(s, addr, r.value);
      var last := LastAt(s, Bucket(s, addr), req);
      assert Open(s, t);
      forall u ensures Open(s', u) <==> Open(s, u) && u != t { AnswerBalances(s, addr, r.value, req, u); }
    }
  }

  /** On no later object of the list is the request pending. */
  predicate Latest(s: Links, rs: seq<Ref>, r: Ref, req: RequestId) {
    exists i :: 0 <= i < |rs| && rs[i] == r && forall j :: i < j < |rs| ==> !Pending(s, rs[j], req)
  }

  lemma {:induction false} LastAt(s: Links, rs: seq<Ref>, req: RequestId) returns (i: nat)
    requires LastWith(s, rs, req).Some?
    ensures i < |rs| && rs[i] == LastWith(s, rs, req).value
    ensures forall j :: i < j < |rs| ==> !Pending(s, rs[j], req)
  {
    i := |rs| - 1;
    if !Pending(s, rs[i], req) { i := LastAt(s, rs[..i], req); }
  }

  /** Which requests are recorded: those on a known connection, from its own device, under an id not in use,
      for a published handle if for any, and for writes only if they have a length and want a response. */
  lemma RecordedExactly(s: Links, e: Event, t: Tag)
    requires Sound(s)
    ensures Recorded(s, e) == Some(t) <==>
              && (e.OnRead? || e.OnWrite? || e.OnExecWrite?)
              && e.id in s.byId && t.ref == s.byId[e.id] && s.objs[t.ref].addr == e.addr
              && t.req == e.req && e.req !in s.objs[t.ref].requests
              && (if e.OnExecWrite? then t.handle == -1 else t.handle == e.handle && e.handle in e.handles)
              && (e.OnWrite? ==> e.length >= 0 && e.needRsp)
  {
    if (e.OnRead? || e.OnWrite? || e.OnExecWrite?) && e.id in s.byId { assert Known(s, e.id); }
  }

  /** A connect makes a new connection of that device without requests, unless the id is in use; a disconnect
      forgets the id; nothing else changes which connections are known. */
  lemma KnownExactly(s: Links, id: ConnId, addr: Address, c: ConnId)
    requires Sound(s)
    ensures c in Connect(s, id, addr).byId <==> c in s.byId || c == id
    ensures var s' := Connect(s, id, addr);
            id !in s.byId ==> s'.objs == s.objs + [Conn(id, addr, map[])] && s'.byId[id] == |s.objs|
    ensures c in s.byId ==> Connect(s, id, addr).byId[c] == s.byId[c]
    ensures c in Disconnect(s, id, addr).byId <==> c in s.byId && c != id
    ensures c in s.byId && c != id ==> Disconnect(s, id, addr).byId[c] == s.byId[c]
    ensures Disconnect(s, id, addr).objs == s.objs
  {
  }
}
