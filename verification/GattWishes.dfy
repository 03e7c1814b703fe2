/**
 What an application asked for when it declared a service, taken from its calls alone, and that the HAL is
 asked for exactly that (service/gatt_server.cpp).
 */
module GattWishes {
  import opened Common
  import opened GattDeclaration
  import opened GattPublication

  /** One accepted AddCharacteristic or AddDescriptor. */
  datatype Wish = WishChar(uuid: Uuid, properties: int, permissions: int) | WishDesc(uuid: Uuid, permissions: int)

  /** The service begun last and what was added to it. */
  datatype Wishes = Wishes(uuid: Uuid, primary: bool, list: seq<Wish>)

  /** A call counts when it returns an identifier. */
  function Heard(x: Wishes, e: Event, returned: Option<Id>): Wishes {
    if returned.None? then x
    else match e
      case CallBegin(uuid, primary) => Wishes(uuid, primary, [])
      case CallAddCharacteristic(uuid, pr, pe) => x.(list := x.list + [WishChar(uuid, pr, pe)])
      case CallAddDescriptor(uuid, pe) => x.(list := x.list + [WishDesc(uuid, pe)])
      case _ => x
  }

  /** The entry is what was wished for. */
  predicate Meets(e: Entry, x: Wish) {
    match x
    case WishChar(uuid, pr, pe) => e.id.Char? && e.id.cu == uuid && e.properties == pr && e.permissions == pe
    case WishDesc(uuid, pe) => e.id.Desc? && e.id.du == uuid && e.permissions == pe
  }

  /** The entries are the service and then, in order, what was wished for. */
  ghost predicate Lists(es: seq<Entry>, svc: ServiceId, x: Wishes) {
    && svc.uuid == x.uuid && svc.primary == x.primary && |es| == 1 + |x.list|
    && forall i :: 0 <= i < |x.list| ==> Meets(es[i + 1], x.list[i])
  }

  /** The server has declared, or is publishing, what was wished for. */
  ghost predicate Honours(w: World, x: Wishes) {
    w.db.decl.Some? ==>
      Lists(if w.db.endCallback.None? then w.db.decl.value.attributes else w.all, w.db.decl.value.serviceId, x)
  }

  lemma DeclaringHonours(w: World, x: Wishes, e: Event)
    requires Inv(w) && Honours(w, x) && (e.CallBegin? || e.CallAddCharacteristic? || e.CallAddDescriptor?)
    ensures Honours(Next(w, e), Heard(x, e, Returned(w.db, e)))
  {
    NextDb(w, e);
  }

  lemma EndHonours(w: World, x: Wishes, e: Event)
    requires Inv(w) && Honours(w, x) && e.CallEnd?
    ensures Honours(Next(w, e), x)
  {
    NextDb(w, e);
  }

  /** The publication that goes on is the one that was under way. */
  predicate GoesOn(s: Db, s': Db) {
    s'.decl.Some? ==> s'.endCallback.Some? && s.decl.Some? && s'.decl.value.serviceId == s.decl.value.serviceId
  }

  lemma NextGoesOn(s: Db, hal: int)
    requires s.decl.Some? && s.endCallback.Some?
    ensures GoesOn(s, HandleNext(s, hal).0)
  {
  }

  lemma AnswerGoesOn(w: World, e: Event)
    requires Inv(w) && Allowed(w, e) && IsAnswer(e)
    ensures GoesOn(w.db, Step(w.db, e).0) && w.db.decl.Some? && w.db.endCallback.Some?
  {
    AnswerFits(w, e);
    if e.OnStarted? { StartFits(w, e); }
    else if e.status == BT_STATUS_SUCCESS { NextGoesOn(Store(w.db, e.handle), e.hal); }
  }

  lemma AnswerHonours(w: World, x: Wishes, e: Event)
    requires Inv(w) && Allowed(w, e) && Honours(w, x) && IsAnswer(e)
    ensures Honours(Next(w, e), x)
  {
    NextDb(w, e);
    AnswerGoesOn(w, e);
  }

  lemma NextHonours(w: World, x: Wishes, e: Event)
    requires Inv(w) && Allowed(w, e) && Honours(w, x)
    ensures Honours(Next(w, e), Heard(x, e, Returned(w.db, e)))
  {
    if IsAnswer(e) { AnswerHonours(w, x, e); }
    else if e.CallEnd? { EndHonours(w, x, e); }
    else { DeclaringHonours(w, x, e); }
  }

  /** The wishes heard in a run. */
  ghost function AllHeard(x: Wishes, w: World, es: seq<Event>): Wishes
    requires Behaves(w, es)
    decreases |es|
  {
    if es == [] then x else AllHeard(Heard(x, es[0], Returned(w.db, es[0])), Next(w, es[0]), es[1..])
  }

  /** In every run the server declares and publishes what was wished for. */
  lemma {:induction false} RunHonours(w: World, x: Wishes, es: seq<Event>)
    requires Inv(w) && Honours(w, x) && Behaves(w, es)
    ensures Inv(Run(w, es)) && Honours(Run(w, es), AllHeard(x, w, es))
    decreases |es|
  {
    if es != [] {
      NextKeeps(w, es[0]);
      NextHonours(w, x, es[0]);
      RunHonours(Next(w, es[0]), Heard(x, es[0], Returned(w.db, es[0])), es[1..]);
    }
  }

  /** The handles a service needs: one, two for each characteristic, one for each descriptor. */
  function Need(xs: seq<Wish>): nat {
    if xs == [] then 1 else Need(xs[..|xs|-1]) + (if xs[|xs|-1].WishChar? then 2 else 1)
  }

  lemma {:induction false} NeedIs(es: seq<Entry>, xs: seq<Wish>, svc: ServiceId)
    requires Declared(es, svc) && |es| == 1 + |xs| && forall i :: 0 <= i < |xs| ==> Meets(es[i + 1], xs[i])
    ensures HandleNeed(es) == Need(xs)
  {
    if xs == [] {
      assert es[..0] == [];
    } else {
      NeedIs(es[..|es|-1], xs[..|xs|-1], svc);
      assert Meets(es[|xs|], xs[|xs|-1]);
    }
  }

  /** Handing over asks the HAL for the service that was begun, with the handles for what was wished. */
  lemma EndAsks(w: World, x: Wishes, e: Event)
    requires Inv(w) && Honours(w, x) && e.CallEnd? && e.callback.Some? && w.db.decl.Some? && w.db.endCallback.None?
    ensures exists inst: nat :: Step(w.db, e).1 == [AddService(ServiceId(x.uuid, inst, x.primary), Need(x.list), e.hal)]
    ensures Accepts(w.db, e) <==> e.hal == BT_STATUS_SUCCESS
  {
    var d := w.db.decl.value;
    NeedIs(d.attributes, x.list, d.serviceId);
    FirstIsService(d.attributes, d.serviceId);
    assert Step(w.db, e).1 == [AddService(ServiceId(x.uuid, d.serviceId.inst, x.primary), Need(x.list), e.hal)];
  }

  /** Each grant is followed by the request for the next wish, with the properties and permissions wished
      for and under the handle of the service; the last by the start of the service. */
  lemma GrantAsks(w: World, x: Wishes, e: Event)
    requires Inv(w) && Allowed(w, e) && Honours(w, x) && Grants(e)
    ensures var hs, k := w.answers + [e.handle], |w.answers|;
            && k <= |x.list| && Step(w.db, e).1 != []
            && Step(w.db, e).1[0] ==
               if k == |x.list| then StartService(hs[0], e.hal)
               else match x.list[k]
                 case WishChar(uuid, pr, pe) => AddChar(hs[0], uuid, pr, pe, e.hal)
                 case WishDesc(uuid, pe) => AddDesc(hs[0], uuid, pe, e.hal)
  {
    AnswerFits(w, e);
    var k, d := |w.answers|, w.db.decl.value;
    FirstIsService(w.all, d.serviceId);
    DeclaredKinds(w.all, d.serviceId, k);
    if k < |x.list| {
      assert Meets(w.all[k + 1], x.list[k]);
      assert w.all[k+1..][0] == w.all[k + 1];
    }
  }

  /** What a finished publication reports: the service that was begun, and the status of the answer that ended
      it or of the request the HAL would not take. */
  lemma ReportsWhy(w: World, x: Wishes, e: Event, cb: Callback, status: int, id: ServiceId)
    requires Inv(w) && Allowed(w, e) && Honours(w, x) && Done(cb, status, id) in Step(w.db, e).1
    ensures id.uuid == x.uuid && id.primary == x.primary && IsAnswer(e)
    ensures status == if e.status != BT_STATUS_SUCCESS || e.OnStarted? then e.status else e.hal
  {
    EndedBy(w, e, cb, status, id);
    AnswerFits(w, e);
    if e.OnStarted? { EndedByStart(w, e, cb, status, id); }
    else if e.status == BT_STATUS_SUCCESS { EndedByNext(Store(w.db, e.handle), e.hal, cb, status, id); }
  }

  // ---------------------------------------------------------------------------------------------
  // Identifiers handed out

  /** How many characteristics with the UUID were wished for. */
  function CharsWished(xs: seq<Wish>, uuid: Uuid): nat {
    if xs == [] then 0
    else CharsWished(xs[..|xs|-1], uuid) + (if xs[|xs|-1].WishChar? && xs[|xs|-1].uuid == uuid then 1 else 0)
  }

  /** How many descriptors with the UUID since the latest characteristic. */
  function DescsWished(xs: seq<Wish>, uuid: Uuid): nat {
    if xs == [] || xs[|xs|-1].WishChar? then 0
    else DescsWished(xs[..|xs|-1], uuid) + (if xs[|xs|-1].uuid == uuid then 1 else 0)
  }

  /** The UUID of the latest characteristic. */
  function LatestChar(xs: seq<Wish>): Option<Uuid> {
    if xs == [] then None
    else if xs[|xs|-1].WishChar? then Some(xs[|xs|-1].uuid)
    else LatestChar(xs[..|xs|-1])
  }

  lemma {:induction false} CountsAgree(es: seq<Entry>, xs: seq<Wish>, svc: ServiceId, uuid: Uuid)
    requires Declared(es, svc) && |es| == 1 + |xs| && forall i :: 0 <= i < |xs| ==> Meets(es[i + 1], xs[i])
    ensures CharCount(es, uuid) == CharsWished(xs, uuid) && DescCount(es, uuid) == DescsWished(xs, uuid)
    ensures Owner(es).Some? <==> xs != []
    ensures Owner(es).Some? ==> LatestChar(xs) == Some(Owner(es).value.cu)
  {
    if xs == [] {
      assert es[..0] == [];
    } else {
      CountsAgree(es[..|es|-1], xs[..|xs|-1], svc, uuid);
      assert Meets(es[|xs|], xs[|xs|-1]);
    }
  }

  /** Which declaring calls return an identifier, in any state a run can reach, and which one: instances are
      numbered by what came before with the same UUID, a descriptor belongs to the latest characteristic. */
  lemma IdsReturned(w: World, x: Wishes, e: Event)
    requires Inv(w) && Honours(w, x)
    ensures var id, open := Returned(w.db, e), w.db.decl.Some? && w.db.endCallback.None?;
            match e
            case CallBegin(uuid, primary) =>
              && (id.Some? <==> w.db.decl.None?)
              && var published := set i | i in w.db.idToHandle.Keys && i.Service? && i.svc.uuid == uuid;
                 id.Some? ==> id.value == Service(ServiceId(uuid, |published|, primary))
            case CallAddCharacteristic(uuid, _, _) =>
              && (id.Some? <==> open)
              && (id.Some? ==> id.value == Char(w.db.decl.value.serviceId, uuid, CharsWished(x.list, uuid)))
            case CallAddDescriptor(uuid, _) =>
              && (id.Some? <==> open && x.list != [])
              && (id.Some? ==> id.value.Desc? && id.value.du == uuid && id.value.di == DescsWished(x.list, uuid)
                               && LatestChar(x.list) == Some(id.value.cu))
            case _ => id.None?
  {
    if w.db.decl.Some? && w.db.endCallback.None? && (e.CallAddCharacteristic? || e.CallAddDescriptor?) {
      CountsAgree(w.db.decl.value.attributes, x.list, w.db.decl.value.serviceId, e.uuid);
    }
    if e.CallBegin? {
      assert Services(w.db.idToHandle, e.uuid)
          == set i | i in w.db.idToHandle.Keys && i.Service? && i.svc.uuid == e.uuid;
    }
  }
}
