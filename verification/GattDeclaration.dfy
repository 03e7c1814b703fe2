/**
 Declaring and publishing a GATT service (service/gatt_server.cpp): a service is declared attribute by
 attribute, handed to the HAL one request at a time, started, and only then entered into the two maps
 between identifiers and handles. HAL return values and callback contents are inputs; a failed CHECK is
 an output.
 */
module GattDeclaration {
  import opened Common

  type Uuid = int

  datatype ServiceId = ServiceId(uuid: Uuid, inst: nat, primary: bool)

  /** Identifiers of local attributes; the device address of the source's identifiers is empty. */
  datatype Id =
    | Service(svc: ServiceId)
    | Char(svc: ServiceId, cu: Uuid, ci: nat)
    | Desc(svc: ServiceId, cu: Uuid, ci: nat, du: Uuid, di: nat)

  datatype Entry = Entry(id: Id, properties: int, permissions: int)

  datatype Decl = Decl(numHandles: nat, serviceId: ServiceId, serviceHandle: int, attributes: seq<Entry>)

  datatype Db = Db(
    pendingId: Option<Id>, decl: Option<Decl>, endCallback: Option<Callback>, pendingMap: map<Id, int>,
    idToHandle: map<Id, int>, handleToId: map<int, Id>)

  const EMPTY := Db(None, None, None, map[], map[], map[])

  datatype Out =
    | AddService(id: ServiceId, numHandles: nat, status: int)
    | AddChar(service: int, uuid: Uuid, properties: int, permissions: int, status: int)
    | AddDesc(service: int, uuid: Uuid, permissions: int, status: int)
    | StartService(service: int, status: int)
    | DeleteService(service: int)
    | Done(callback: Callback, status: int, id: ServiceId)
    | CheckFailed

  // ---------------------------------------------------------------------------------------------
  // Instance numbers

  /** The published services with a UUID, primary or not. */
  function Services(m: map<Id, int>, uuid: Uuid): set<Id> {
    set id | id in m.Keys && id.Service? && id.svc.uuid == uuid
  }

  function CharCount(es: seq<Entry>, uuid: Uuid): nat {
    if es == [] then 0
    else CharCount(es[..|es|-1], uuid) + (if es[|es|-1].id.Char? && es[|es|-1].id.cu == uuid then 1 else 0)
  }

  /** The characteristic that a descriptor appended to the declaration belongs to. */
  function Owner(es: seq<Entry>): (r: Option<Id>)
    ensures r.Some? ==> r.value.Char?
  {
    if |es| <= 1 then None
    else
      var last := es[|es|-1].id;
      if last.Char? then Some(last) else if last.Desc? then Owner(es[..|es|-1]) else None
  }

  /** How many descriptors with that UUID it already has. */
  function DescCount(es: seq<Entry>, uuid: Uuid): nat {
    if |es| <= 1 || !es[|es|-1].id.Desc? then 0
    else DescCount(es[..|es|-1], uuid) + (if es[|es|-1].id.du == uuid then 1 else 0)
  }

  // ---------------------------------------------------------------------------------------------
  // Specification of the operations

  function Begin(s: Db, uuid: Uuid, primary: bool): (Db, Option<Id>, seq<Out>) {
    if s.decl.Some? then (s, None, [])
    else if s.pendingId.Some? || s.endCallback.Some? then (s, None, [CheckFailed])
    else
      var svc := ServiceId(uuid, |Services(s.idToHandle, uuid)|, primary);
      (s.(decl := Some(Decl(1, svc, -1, [Entry(Service(svc), 0, 0)]))), Some(Service(svc)), [])
  }

  function Append(d: Decl, e: Entry, handles: nat): Decl {
    d.(numHandles := d.numHandles + handles, attributes := d.attributes + [e])
  }

  function AddCharacteristic(s: Db, uuid: Uuid, properties: int, permissions: int): (Db, Option<Id>) {
    if s.decl.None? || s.endCallback.Some? then (s, None)
    else
      var d := s.decl.value;
      var id := Char(d.serviceId, uuid, CharCount(d.attributes, uuid));
      (s.(decl := Some(Append(d, Entry(id, properties, permissions), 2))), Some(id))
  }

  function AddDescriptor(s: Db, uuid: Uuid, permissions: int): (Db, Option<Id>, seq<Out>) {
    if s.decl.None? || s.endCallback.Some? then (s, None, [])
    else
      var d := s.decl.value;
      if d.attributes == [] then (s, None, [CheckFailed])
      else match Owner(d.attributes)
        case None => (s, None, [])
        case Some(c) =>
          var id := Desc(c.svc, c.cu, c.ci, uuid, DescCount(d.attributes, uuid));
          (s.(decl := Some(Append(d, Entry(id, 0, permissions), 1))), Some(id), [])
  }

  function CleanUp(s: Db): Db { s.(pendingId := None, decl := None, endCallback := None, pendingMap := map[]) }

  function End(s: Db, callback: Option<Callback>, hal: int): (Db, bool, seq<Out>) {
    if callback.None? || s.decl.None? || s.endCallback.Some? then (s, false, [])
    else
      var d := s.decl.value;
      if s.pendingId.Some? || d.numHandles == 0 || d.attributes == [] || d.attributes[0].id != Service(d.serviceId)
      then (s, false, [CheckFailed])
      else
        var out := [AddService(d.serviceId, d.numHandles, hal)];
        if hal != BT_STATUS_SUCCESS then (CleanUp(s), false, out)
        else
          (s.(decl := Some(d.(attributes := d.attributes[1..])), pendingId := Some(d.attributes[0].id),
              endCallback := callback),
           true, out)
  }

  predicate Injective(m: map<Id, int>) { forall a, b :: a in m && b in m && m[a] == m[b] ==> a == b }

  /** The map from handles back to identifiers. */
  ghost function Inverse(m: map<Id, int>): (r: map<int, Id>)
    ensures r.Keys == m.Values
    ensures forall h :: h in r ==> r[h] in m && m[r[h]] == h
  {
    map h | h in m.Values :: (var id :| id in m && m[id] == h; id)
  }

  /** The reverse map after entering the handles of `m` one by one in some order: where several identifiers
      share a handle, one of them has it. */
  ghost predicate Overwrites(r: map<int, Id>, m: map<Id, int>, r': map<int, Id>) {
    && r'.Keys == r.Keys + m.Values
    && forall h :: h in r' ==> if h in m.Values then r'[h] in m && m[r'[h]] == h else r'[h] == r[h]
  }

  /** If none do, the order is irrelevant. */
  lemma OverwritesOnce(r: map<int, Id>, m: map<Id, int>, r': map<int, Id>)
    requires Injective(m)
    ensures Overwrites(r, m, r') <==> r' == r + Inverse(m)
  {
    var both := r + Inverse(m);
    assert both.Keys == r.Keys + m.Values;
    if Overwrites(r, m, r') {
      forall h | h in r' ensures r'[h] == both[h] {
        if h in m.Values { assert m[r'[h]] == m[Inverse(m)[h]]; }
      }
    }
  }

  lemma OverwritesMore(r: map<int, Id>, m: map<Id, int>, r': map<int, Id>, id: Id, h: int)
    requires Overwrites(r, m, r') && id !in m
    ensures Overwrites(r, m[id := h], r'[h := id])
  {
    var m' := m[id := h];
    forall x ensures x in m'.Values <==> x in m.Values || x == h {
      if x in m.Values {
        var i :| i in m && m[i] == x;
        assert m'[i] == x;
      }
      if x == h { assert m'[id] == x; }
    }
  }

  /** NotifyEndCallbackAndClearData. Inserting keeps entries that are already there; the reverse map is
      overwritten. */
  ghost function Finish(s: Db, status: int, id: ServiceId): (Db, seq<Out>) {
    match s.endCallback
    case None => (s, [CheckFailed])
    case Some(cb) =>
      (if status == BT_STATUS_SUCCESS then
         CleanUp(s.(idToHandle := s.pendingMap + s.idToHandle, handleToId := s.handleToId + Inverse(s.pendingMap)))
       else CleanUp(s),
       [Done(cb, status, id)])
  }

  /** The same in whatever order the handles are entered. */
  ghost predicate Finishes(s: Db, status: int, id: ServiceId, s': Db, out: seq<Out>) {
    match s.endCallback
    case None => s' == s && out == [CheckFailed]
    case Some(cb) =>
      && out == [Done(cb, status, id)]
      && (if status == BT_STATUS_SUCCESS then
            && s' == CleanUp(s.(idToHandle := s.pendingMap + s.idToHandle, handleToId := s'.handleToId))
            && Overwrites(s.handleToId, s.pendingMap, s'.handleToId)
          else s' == CleanUp(s))
  }

  lemma FinishesOnce(s: Db, status: int, id: ServiceId, s': Db, out: seq<Out>)
    requires status == BT_STATUS_SUCCESS ==> Injective(s.pendingMap)
    ensures Finishes(s, status, id, s', out) <==> (s', out) == Finish(s, status, id)
  {
    if status == BT_STATUS_SUCCESS { OverwritesOnce(s.handleToId, s.pendingMap, s'.handleToId); }
  }

  function RequestFor(service: int, e: Entry, hal: int): Out {
    match e.id
    case Service(_) => CheckFailed
    case Char(_, cu, _) => AddChar(service, cu, e.properties, e.permissions, hal)
    case Desc(_, _, _, du, _) => AddDesc(service, du, e.permissions, hal)
  }

  /** HandleNextEntry. */
  ghost function HandleNext(s: Db, hal: int): (Db, seq<Out>) {
    if s.decl.None? then (s, [CheckFailed])
    else
      var d := s.decl.value;
      if d.attributes == [] then
        if hal == BT_STATUS_SUCCESS then (s, [StartService(d.serviceHandle, hal)])
        else
          var (s', out) := Finish(s, hal, d.serviceId);
          (s', [StartService(d.serviceHandle, hal)] + out)
      else
        var e := d.attributes[0];
        var s1 := s.(decl := Some(d.(attributes := d.attributes[1..])));
        if e.id.Service? then (s1, [CheckFailed])
        else if hal == BT_STATUS_SUCCESS then (s1.(pendingId := Some(e.id)), [RequestFor(d.serviceHandle, e, hal)])
        else
          var (s', out) := Finish(s1, hal, d.serviceId);
          (s', [RequestFor(d.serviceHandle, e, hal)] + out)
  }

  ghost function ServiceAdded(s: Db, status: int, id: ServiceId, handle: int, hal: int): (Db, seq<Out>) {
    if s.pendingId != Some(Service(id)) || s.decl.None? || s.decl.value.serviceId != id then (s, [CheckFailed])
    else if status != BT_STATUS_SUCCESS then Finish(s, status, id)
    else
      var s1 := s.(pendingMap := s.pendingMap[Service(id) := handle]);
      if s.decl.value.serviceHandle != -1 then (s1, [CheckFailed])
      else HandleNext(s1.(decl := Some(s.decl.value.(serviceHandle := handle))), hal)
  }

  predicate AwaitsChar(s: Db, uuid: Uuid) {
    s.pendingId.Some? && s.pendingId.value.Char? && s.pendingId.value.cu == uuid
  }

  predicate AwaitsDesc(s: Db, uuid: Uuid) {
    s.pendingId.Some? && s.pendingId.value.Desc? && s.pendingId.value.du == uuid
  }

  /** The callbacks for characteristics and descriptors differ only in what they check. */
  ghost function AttributeAdded(s: Db, awaited: bool, status: int, service: int, handle: int, hal: int)
    : (Db, seq<Out>)
  {
    if s.decl.None? || s.decl.value.serviceHandle != service || s.pendingId.None? || !awaited then (s, [CheckFailed])
    else if status != BT_STATUS_SUCCESS then Finish(s, status, s.decl.value.serviceId)
    else HandleNext(s.(pendingMap := s.pendingMap[s.pendingId.value := handle]), hal)
  }

  ghost function ServiceStarted(s: Db, status: int, service: int): (Db, seq<Out>) {
    if s.pendingId.None? || s.decl.None? || s.decl.value.serviceHandle != service then (s, [CheckFailed])
    else
      var (s', out) := Finish(s, status, s.decl.value.serviceId);
      (s', (if status != BT_STATUS_SUCCESS then [DeleteService(service)] else []) + out)
  }

  /** The same in whatever order the handles are entered. */
  ghost predicate StartAnswered(s: Db, status: int, service: int, s': Db, out: seq<Out>) {
    if s.pendingId.None? || s.decl.None? || s.decl.value.serviceHandle != service then s' == s && out == [CheckFailed]
    else if status == BT_STATUS_SUCCESS then Finishes(s, status, s.decl.value.serviceId, s', out)
    else out != [] && out[0] == DeleteService(service) && Finishes(s, status, s.decl.value.serviceId, s', out[1..])
  }

  lemma StartAnsweredOnce(s: Db, status: int, service: int, s': Db, out: seq<Out>)
    requires Injective(s.pendingMap)
    ensures StartAnswered(s, status, service, s', out) <==> (s', out) == ServiceStarted(s, status, service)
  {
    if s.pendingId.Some? && s.decl.Some? && s.decl.value.serviceHandle == service {
      var id := s.decl.value.serviceId;
      if status == BT_STATUS_SUCCESS {
        FinishesOnce(s, status, id, s', out);
        assert [] + Finish(s, status, id).1 == Finish(s, status, id).1;
      } else if out != [] {
        FinishesOnce(s, status, id, s', out[1..]);
        assert out == [out[0]] + out[1..];
      }
    }
  }

  // ---------------------------------------------------------------------------------------------
  // Declarations

  /** Handles a declaration needs: one for the service, two per characteristic, one per descriptor. */
  function HandleNeed(es: seq<Entry>): nat {
    if es == [] then 0
    else HandleNeed(es[..|es|-1]) + (if es[|es|-1].id.Char? then 2 else 1)
  }

  /** Every entry after the service is a characteristic numbered by the earlier ones of its UUID, or a
      descriptor of the nearest characteristic before it, numbered likewise. */
  predicate Declared(es: seq<Entry>, svc: ServiceId) {
    && es != []
    && (if |es| == 1 then es[0].id == Service(svc)
        else
          var init, id := es[..|es|-1], es[|es|-1].id;
          && Declared(init, svc)
          && match id
             case Service(_) => false
             case Char(s, cu, ci) => s == svc && ci == CharCount(init, cu)
             case Desc(s, cu, ci, du, di) => Owner(init) == Some(Char(s, cu, ci)) && di == DescCount(init, du))
  }

  lemma {:induction false} DeclaredPrefix(es: seq<Entry>, svc: ServiceId, n: nat)
    requires Declared(es, svc) && 1 <= n <= |es|
    ensures Declared(es[..n], svc)
  {
    if n == |es| {
      assert es[..n] == es;
    } else {
      assert es[..|es|-1][..n] == es[..n];
      DeclaredPrefix(es[..|es|-1], svc, n);
    }
  }

  /** Number of characteristics with the UUID below position i, seen from a longer list. */
  lemma {:induction false} CharCountBelow(es: seq<Entry>, uuid: Uuid, i: nat)
    requires i < |es| && es[i].id.Char? && es[i].id.cu == uuid
    ensures CharCount(es[..i], uuid) < CharCount(es, uuid)
  {
    var init := es[..|es|-1];
    if i < |init| {
      assert init[..i] == es[..i];
      CharCountBelow(init, uuid, i);
    } else {
      assert init == es[..i];
    }
  }

  /** Where the owner stands: everything after it is a descriptor. */
  ghost function OwnerAt(es: seq<Entry>): (p: nat)
    requires Owner(es).Some?
    ensures 1 <= p < |es| && es[p].id == Owner(es).value
    ensures forall k :: p < k < |es| ==> es[k].id.Desc?
  {
    if es[|es|-1].id.Char? then |es| - 1 else OwnerAt(es[..|es|-1])
  }

  lemma {:induction false} DescCountBelow(es: seq<Entry>, uuid: Uuid, i: nat)
    requires 1 <= i < |es| && es[i].id.Desc? && es[i].id.du == uuid
    requires forall k :: i <= k < |es| ==> es[k].id.Desc?
    ensures DescCount(es[..i], uuid) < DescCount(es, uuid)
  {
    var init := es[..|es|-1];
    if i < |init| {
      assert init[..i] == es[..i];
      DescCountBelow(init, uuid, i);
    } else {
      assert init == es[..i];
    }
  }

  lemma CharsDistinct(es: seq<Entry>, svc: ServiceId, i: nat, j: nat)
    requires Declared(es, svc) && i < j < |es| && es[i].id.Char? && es[j].id.Char?
    ensures es[i].id != es[j].id
  {
    DeclaredPrefix(es, svc, j + 1);
    DeclaredPrefix(es, svc, i + 1);
    var a, b := es[..i + 1], es[..j + 1];
    assert a[..|a|-1] == es[..i] && b[..|b|-1] == es[..j];
    if es[i].id.cu == es[j].id.cu {
      CharCountBelow(es[..j], es[i].id.cu, i);
      assert es[..j][..i] == es[..i];
    }
  }

  lemma DescOwner(es: seq<Entry>, svc: ServiceId, j: nat)
    requires Declared(es, svc) && j < |es| && es[j].id.Desc?
    ensures var id := es[j].id;
            Owner(es[..j]) == Some(Char(id.svc, id.cu, id.ci)) && id.di == DescCount(es[..j], id.du)
  {
    DeclaredPrefix(es, svc, j + 1);
    assert es[..j + 1][..j] == es[..j];
  }

  lemma DescsDistinct(es: seq<Entry>, svc: ServiceId, i: nat, j: nat)
    requires Declared(es, svc) && i < j < |es| && es[i].id.Desc? && es[j].id.Desc?
    ensures es[i].id != es[j].id
  {
    DescOwner(es, svc, i);
    DescOwner(es, svc, j);
    var p, q := OwnerAt(es[..i]), OwnerAt(es[..j]);
    assert es[..i][p] == es[p] && es[..j][q] == es[q];
    if es[i].id == es[j].id {
      if p < q { CharsDistinct(es, svc, p, q); }
      if q < p { CharsDistinct(es, svc, q, p); }
      assert forall k :: q < k < j ==> es[k] == es[..j][k];
      assert es[..j][..i] == es[..i];
      DescCountBelow(es[..j], es[i].id.du, i);
    }
  }

  lemma {:induction false} DeclaredKinds(es: seq<Entry>, svc: ServiceId, i: nat)
    requires Declared(es, svc) && i < |es|
    ensures es[i].id.Service? <==> i == 0
    ensures es[i].id.svc == svc
  {
    if i < |es| - 1 {
      DeclaredKinds(es[..|es|-1], svc, i);
    } else if |es| > 1 {
      var init := es[..|es|-1];
      if es[i].id.Desc? {
        var p := OwnerAt(init);
        DeclaredKinds(init, svc, p);
      }
    }
  }

  /** All identifiers of a declaration are different and belong to its service. */
  lemma DeclaredDistinct(es: seq<Entry>, svc: ServiceId, i: nat, j: nat)
    requires Declared(es, svc) && i < j < |es|
    ensures es[i].id != es[j].id
  {
    DeclaredKinds(es, svc, i);
    DeclaredKinds(es, svc, j);
    if es[i].id.Char? && es[j].id.Char? { CharsDistinct(es, svc, i, j); }
    if es[i].id.Desc? && es[j].id.Desc? { DescsDistinct(es, svc, i, j); }
  }

  lemma DeclareMore(es: seq<Entry>, e: Entry)
    ensures HandleNeed(es + [e]) == HandleNeed(es) + (if e.id.Char? then 2 else 1)
    ensures (es + [e])[..|es|] == es
  {
    assert (es + [e])[..|es|] == es;
  }
}
