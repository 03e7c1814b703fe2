/**
 The whole GATT server: publication, connections with their requests, and indications in one run. The
 three parts share the maps of handles and the address index, so every interleaving of their events counts.
 */
module GattSystem {
  import opened Common
  import BdAddress
  import D = GattDeclaration
  import P = GattPublication
  import L = GattConnections
  import N = GattIndications
  import opened GattServer

  datatype Event =
    | Publish(p: P.Event)
    | Link(l: L.Event)
    | Notify(addr: L.Address, charId: D.Id, confirm: bool, value: seq<Byte>, callback: Option<Callback>,
             hal: nat -> int)
    | Confirmed(id: ConnId, status: int)

  /** The server with the records of its three parts. */
  datatype System = System(w: P.World, links: L.Links, n: N.World)

  const INITIAL := System(P.INITIAL, L.NO_LINKS, N.INITIAL)

  /** Requests are checked against the handles published at the time. */
  function Known(e: L.Event, handles: set<L.Handle>): L.Event {
    if e.OnRead? || e.OnWrite? then e.(handles := handles) else e
  }

  ghost function Next(s: System, e: Event): System {
    match e
    case Publish(p) => s.(w := P.Next(s.w, p))
    case Link(l) => s.(links := L.Step(s.links, Known(l, s.w.db.handleToId.Keys)))
    case Notify(addr, charId, _, _, callback, hal) =>
      s.(n := N.Next(s.n, N.CallNotify(L.ConnectionsOf(s.links, addr), charId in s.w.db.idToHandle, callback, hal)))
    case Confirmed(id, status) => s.(n := N.Next(s.n, N.OnConfirm(id, status)))
  }

  /** What a call returns or does to the outside. */
  datatype Output =
    | Published(id: Option<D.Id>, ok: bool, outs: seq<D.Out>)
    | Linked(ok: bool, reply: Option<L.Reply>)
    | Notified(ok: bool, calls: seq<N.Sending>)
    | Invoked(call: Option<(Callback, int)>)

  ghost function PublishOutput(db: D.Db, p: P.Event): Output {
    Published(P.Returned(db, p), P.Accepts(db, p), P.Step(db, p).1)
  }

  function LinkOutput(s: L.Links, l: L.Event): Output {
    match l
    case CallRespond(addr, req, error, offset, value, hal) =>
      var (_, ok, reply) := L.Respond(s, addr, req, error, offset, value, hal); Linked(ok, reply)
    case _ => Linked(false, None)
  }

  function NotifyOutput(n: N.Indications, ids: Option<seq<ConnId>>, message: Option<N.Message>, hal: nat -> int)
    : Output
  {
    Notified(N.Notify(n, ids, message.Some?, None, hal).1, N.AllSendings(n, ids, message, hal))
  }

  ghost function OutputOf(s: System, e: Event): Output {
    match e
    case Publish(p) => PublishOutput(s.w.db, p)
    case Link(l) => LinkOutput(s.links, l)
    case Notify(addr, charId, confirm, value, _, hal) =>
      NotifyOutput(s.n.s, L.ConnectionsOf(s.links, addr), MessageFor(s.w.db.idToHandle, charId, confirm, value), hal)
    case Confirmed(id, status) => Invoked(N.Invoked(s.n.s, id, status))
  }

  /** The HAL's contract. */
  predicate Allowed(s: System, e: Event) { e.Publish? ==> P.Allowed(s.w, e.p) }

  ghost predicate Inv(s: System) { P.Inv(s.w) && L.Sound(s.links) && N.Inv(s.n) }

  lemma NextKeeps(s: System, e: Event)
    requires Inv(s) && Allowed(s, e)
    ensures Inv(Next(s, e))
  {
    match e
    case Publish(p) => P.NextKeeps(s.w, p);
    case Link(l) => L.StepSound(s.links, Known(l, s.w.db.handleToId.Keys));
    case Notify(addr, charId, _, _, callback, hal) =>
      N.NotifyKeeps(s.n, N.CallNotify(L.ConnectionsOf(s.links, addr), charId in s.w.db.idToHandle, callback, hal));
    case Confirmed(id, status) => N.ConfirmKeeps(s.n, N.OnConfirm(id, status));
  }

  ghost predicate Behaves(s: System, es: seq<Event>)
    decreases |es|
  {
    es == [] || (Allowed(s, es[0]) && Behaves(Next(s, es[0]), es[1..]))
  }

  ghost function Run(s: System, es: seq<Event>): System
    requires Behaves(s, es)
    decreases |es|
  {
    if es == [] then s else Run(Next(s, es[0]), es[1..])
  }

  /** The outputs of a run. */
  ghost function Trace(s: System, es: seq<Event>): seq<Output>
    requires Behaves(s, es)
    decreases |es|
  {
    if es == [] then [] else [OutputOf(s, es[0])] + Trace(Next(s, es[0]), es[1..])
  }

  lemma {:induction false} RunKeeps(s: System, es: seq<Event>)
    requires Inv(s) && Behaves(s, es)
    ensures Inv(Run(s, es))
    decreases |es|
  {
    if es != [] {
      NextKeeps(s, es[0]);
      RunKeeps(Next(s, es[0]), es[1..]);
    }
  }

  /** In a run that keeps to the HAL's contract no CHECK fails. */
  lemma {:induction false} TraceSafe(s: System, es: seq<Event>)
    requires Inv(s) && Behaves(s, es)
    ensures forall o :: o in Trace(s, es) && o.Published? ==> D.CheckFailed !in o.outs
    decreases |es|
  {
    if es != [] {
      if es[0].Publish? { P.NoCheckFails(s.w, es[0].p); }
      NextKeeps(s, es[0]);
      TraceSafe(Next(s, es[0]), es[1..]);
    }
  }

  /** The stack disconnects every connection under the address it was made with. */
  ghost predicate Orderly(s: System, es: seq<Event>)
    requires Behaves(s, es)
    decreases |es|
  {
    es == [] || ((es[0].Link? ==> L.Orderly(s.links, es[0].l)) && Orderly(Next(s, es[0]), es[1..]))
  }

  lemma {:induction false} RunAgrees(s: System, es: seq<Event>)
    requires L.Agree(s.links) && Behaves(s, es) && Orderly(s, es)
    ensures L.Agree(Run(s, es).links)
    decreases |es|
  {
    if es != [] {
      if es[0].Link? { L.StepAgrees(s.links, Known(es[0].l, s.w.db.handleToId.Keys)); }
      RunAgrees(Next(s, es[0]), es[1..]);
    }
  }

  lemma InitialInv()
    ensures Inv(INITIAL)
  {
    P.InitialInv();
  }

  /** Every pending request is for a published attribute or, for an execute write, for none. */
  ghost predicate HandleKnown(l: L.Links, handles: set<L.Handle>, r: L.Ref, req: L.RequestId) {
    L.Pending(l, r, req) ==> l.objs[r].requests[req] == L.NO_HANDLE || l.objs[r].requests[req] in handles
  }

  ghost predicate HandlesKnown(l: L.Links, handles: set<L.Handle>) {
    forall r, req :: HandleKnown(l, handles, r, req)
  }

  lemma LinksHandlesKnown(l: L.Links, e: L.Event, handles: set<L.Handle>, r: L.Ref, req: L.RequestId)
    requires HandlesKnown(l, handles)
    ensures HandleKnown(L.Step(l, Known(e, handles)), handles, r, req)
  {
    assert HandleKnown(l, handles, r, req);
  }

  lemma HandlesStayKnown(s: System, e: Event)
    requires Inv(s) && Allowed(s, e) && HandlesKnown(s.links, s.w.db.handleToId.Keys)
    ensures HandlesKnown(Next(s, e).links, Next(s, e).w.db.handleToId.Keys)
  {
    var s' := Next(s, e);
    if e.Publish? { HandlesOnlyGrow(s.w, e.p); }
    forall r, req ensures HandleKnown(s'.links, s'.w.db.handleToId.Keys, r, req) {
      assert HandleKnown(s.links, s.w.db.handleToId.Keys, r, req);
      if e.Link? { LinksHandlesKnown(s.links, e.l, s.w.db.handleToId.Keys, r, req); }
    }
  }

  /** Across the parts: in no run is a request pending for a handle that is not published. */
  lemma {:induction false} RunHandlesKnown(s: System, es: seq<Event>)
    requires Inv(s) && HandlesKnown(s.links, s.w.db.handleToId.Keys) && Behaves(s, es)
    ensures HandlesKnown(Run(s, es).links, Run(s, es).w.db.handleToId.Keys)
    decreases |es|
  {
    if es != [] {
      HandlesStayKnown(s, es[0]);
      NextKeeps(s, es[0]);
      RunHandlesKnown(Next(s, es[0]), es[1..]);
    }
  }

  /** What goes out: every call of the HAL carries the handle published for the characteristic and the value
      and the confirm flag the application passed, to a connection of that device; nothing is sent for a
      characteristic that is not published. */
  lemma SendsWhatWasAsked(s: System, e: Event, x: N.Sending)
    requires Inv(s) && e.Notify? && x in OutputOf(s, e).calls
    ensures e.charId in s.w.db.idToHandle && x.message.handle == s.w.db.idToHandle[e.charId]
    ensures x.message.confirm == e.confirm && x.message.value == e.value
    ensures exists r: L.Ref :: && r in L.Bucket(s.links, e.addr) && r < |s.links.objs|
                               && s.links.objs[r].id == x.conn && s.links.objs[r].addr == e.addr
  {
    var ids := L.ConnectionsOf(s.links, e.addr).value;
    N.SendingsExactly(s.n.s, ids, N.Message(s.w.db.idToHandle[e.charId], e.confirm, e.value), e.hal);
    var i :| 0 <= i < |ids| && ids[i] == x.conn;
    L.InBucket(s.links, e.addr, L.Bucket(s.links, e.addr)[i]);
  }

  // ---------------------------------------------------------------------------------------------
  // Indications outlive connections

  predicate Confirms(e: Event, c: ConnId) { e.Confirmed? && e.id == c }

  /** Nothing is even tried on a connection that waits. */
  lemma NotTried(s: N.Indications, ids: Option<seq<ConnId>>, message: Option<N.Message>, hal: nat -> int, c: ConnId)
    requires c in s.waiting
    ensures forall x :: x in N.AllSendings(s, ids, message, hal) ==> x.conn != c
    ensures ids.Some? ==> c !in N.Takers(s, ids.value, hal)
  {
    if ids.Some? {
      N.TakersWere(s, ids.value, hal);
      if message.Some? { N.SendingsExactly(s, ids.value, message.value, hal); }
    }
  }

  predicate Spares(o: Output, c: ConnId) { o.Notified? ==> forall x :: x in o.calls ==> x.conn != c }

  /** One event that is not its confirmation leaves the connection id waiting, and goes out elsewhere. */
  lemma StepWaits(s: System, e: Event, c: ConnId)
    requires Inv(s) && c in s.n.s.waiting && !Confirms(e, c)
    ensures c in Next(s, e).n.s.waiting && Next(s, e).n.s.waiting[c] == s.n.s.waiting[c]
    ensures Spares(OutputOf(s, e), c)
    ensures |s.n.lives| <= |Next(s, e).n.lives|
    ensures forall k :: |s.n.lives| <= k < |Next(s, e).n.lives| ==> c !in Next(s, e).n.lives[k].sent
  {
    if e.Notify? {
      NotTried(s.n.s, L.ConnectionsOf(s.links, e.addr),
               MessageFor(s.w.db.idToHandle, e.charId, e.confirm, e.value), e.hal, c);
    }
  }

  /** The record of an indication is never lost, and where it was sent does not change. */
  lemma SentStays(s: System, e: Event, k: nat)
    requires k < |s.n.lives|
    ensures k < |Next(s, e).n.lives| && Next(s, e).n.lives[k].sent == s.n.lives[k].sent
  {
  }

  /** While an id waits for a confirmation, and whatever else happens, its indication is not reported and no
      other notification is tried on it. That includes the end of the connection: a disconnect leaves the
      indication waiting, and a later connection with the same id is shut out until a confirmation comes. */
  lemma {:induction false} WaitsForConfirmation(s: System, es: seq<Event>, c: ConnId)
    requires Inv(s) && Behaves(s, es) && c in s.n.s.waiting
    requires forall i :: 0 <= i < |es| ==> !Confirms(es[i], c)
    ensures var s' := Run(s, es);
            && c in s'.n.s.waiting && s'.n.s.waiting[c] == s.n.s.waiting[c] < |s'.n.lives|
            && s'.n.lives[s.n.s.waiting[c]].reports == []
            && |s.n.lives| <= |s'.n.lives|
            && (forall k :: |s.n.lives| <= k < |s'.n.lives| ==> c !in s'.n.lives[k].sent)
            && (forall o :: o in Trace(s, es) ==> Spares(o, c))
    decreases |es|
  {
    var n := s.n.s.waiting[c];
    if es == [] {
      assert N.LifeOk(s.n.s, n, s.n.lives[n]);
    } else {
      StepWaits(s, es[0], c);
      NextKeeps(s, es[0]);
      var s1 := Next(s, es[0]);
      WaitsForConfirmation(s1, es[1..], c);
      forall k | |s.n.lives| <= k < |s1.n.lives| ensures c !in Run(s1, es[1..]).n.lives[k].sent {
        RunSentStays(s1, es[1..], k);
      }
    }
  }

  lemma {:induction false} RunSentStays(s: System, es: seq<Event>, k: nat)
    requires Behaves(s, es) && k < |s.n.lives|
    ensures k < |Run(s, es).n.lives| && Run(s, es).n.lives[k].sent == s.n.lives[k].sent
    decreases |es|
  {
    if es != [] {
      SentStays(s, es[0], k);
      RunSentStays(Next(s, es[0]), es[1..], k);
    }
  }

  /** The id used again: a new connection of the device is found but not sent on. */
  lemma ReusedIdShut(s: System, c: ConnId, was: L.Address, addr: L.Address, e: Event)
    requires Inv(s) && c in s.n.s.waiting && BdAddress.ValidAddress(addr) && e.Notify? && e.addr == addr
    ensures var s2 := Next(Next(s, Link(L.OnDisconnect(c, was))), Link(L.OnConnect(c, addr)));
            && c in s2.links.byId && L.ConnectionsOf(s2.links, addr).Some?
            && c in L.ConnectionsOf(s2.links, addr).value
            && Spares(OutputOf(s2, e), c)
  {
    var l1 := L.Disconnect(s.links, c, was);
    var l2 := L.Connect(l1, c, addr);
    var bucket := l2.buckets[addr];
    assert bucket[|bucket|-1] == |l1.objs| && l2.objs[|l1.objs|].id == c;
    assert L.IdsOf(l2, bucket)[|bucket|-1] == c;
    NotTried(s.n.s, L.ConnectionsOf(l2, addr), MessageFor(s.w.db.idToHandle, e.charId, e.confirm, e.value), e.hal, c);
  }

  // ---------------------------------------------------------------------------------------------
  // Requests and callbacks over whole runs

  /** The connection events of a run, as the server takes them. */
  ghost function LinkEvents(s: System, es: seq<Event>): seq<L.Event>
    requires Behaves(s, es)
    decreases |es|
  {
    if es == [] then []
    else
      (if es[0].Link? then [Known(es[0].l, s.w.db.handleToId.Keys)] else []) + LinkEvents(Next(s, es[0]), es[1..])
  }

  lemma {:induction false} LinksFollow(s: System, es: seq<Event>)
    requires Behaves(s, es)
    ensures Run(s, es).links == L.Run(s.links, LinkEvents(s, es))
    decreases |es|
  {
    if es != [] {
      var rest := LinkEvents(Next(s, es[0]), es[1..]);
      LinksFollow(Next(s, es[0]), es[1..]);
      if es[0].Link? {
        L.RunCons(s.links, Known(es[0].l, s.w.db.handleToId.Keys), rest);
      } else {
        assert LinkEvents(s, es) == rest;
      }
    }
  }

  /** Recorded = answered + dropped + open in every run of the whole server, however publication and
      notifications come in between. */
  lemma RequestsAccounted(es: seq<Event>, t: L.Tag)
    requires Behaves(INITIAL, es)
    ensures var ls := LinkEvents(INITIAL, es);
            L.Recordings(L.NO_LINKS, ls, t)
            == L.Answers(L.NO_LINKS, ls, t) + L.Losses(L.NO_LINKS, ls, t) + L.One(L.Open(Run(INITIAL, es).links, t))
  {
    LinksFollow(INITIAL, es);
    L.Accounting(LinkEvents(INITIAL, es), t);
  }

  ghost function CallIn(o: Output): multiset<(Callback, int)> {
    if o.Invoked? then N.Called(o.call) else multiset{}
  }

  /** The callbacks invoked in a run, with the results they were told. */
  ghost function Calls(trace: seq<Output>): multiset<(Callback, int)>
    decreases |trace|
  {
    if trace == [] then multiset{} else CallIn(trace[0]) + Calls(trace[1..])
  }

  lemma CallsCons(o: Output, rest: seq<Output>, told: multiset<(Callback, int)>)
    ensures told + Calls([o] + rest) == told + CallIn(o) + Calls(rest)
  {
    assert ([o] + rest)[1..] == rest;
  }

  /** The calls that the reports recorded so far stand for. */
  ghost function Told(s: System): multiset<(Callback, int)> {
    N.Told(s.n.lives)
  }

  lemma StepTells(s: System, e: Event)
    requires Inv(s) && Allowed(s, e)
    ensures Inv(Next(s, e))
    ensures Told(Next(s, e)) == Told(s) + CallIn(OutputOf(s, e))
  {
    NextKeeps(s, e);
    match e
    case Notify(addr, charId, _, _, callback, hal) =>
      N.NotifyTells(s.n, N.CallNotify(L.ConnectionsOf(s.links, addr), charId in s.w.db.idToHandle, callback, hal));
    case Confirmed(id, status) => N.ConfirmTells(s.n, id, status);
    case _ =>
  }

  /** The callbacks invoked in a run are exactly those of the notifications reported in it, each with the
      result reported. As a notification is reported at most once, so is its callback invoked. */
  lemma {:induction false} CallsAreReports(s: System, es: seq<Event>)
    requires Inv(s) && Behaves(s, es)
    ensures Inv(Run(s, es)) && Told(Run(s, es)) == Told(s) + Calls(Trace(s, es))
    decreases |es|
  {
    if es != [] {
      StepTells(s, es[0]);
      CallsAreReports(Next(s, es[0]), es[1..]);
      CallsCons(OutputOf(s, es[0]), Trace(Next(s, es[0]), es[1..]), Told(s));
    }
  }

  lemma OnlyStartPublishes(s: D.Db, p: P.Event)
    requires !p.OnStarted?
    ensures P.Step(s, p).0.handleToId == s.handleToId
  {
  }

  /** Published handles keep their identifiers: no event unpublishes or renames one. */
  lemma HandlesOnlyGrow(w: P.World, p: P.Event)
    requires P.Inv(w) && P.Allowed(w, p)
    ensures forall h :: h in w.db.handleToId ==>
              h in P.Next(w, p).db.handleToId && P.Next(w, p).db.handleToId[h] == w.db.handleToId[h]
  {
    P.NextDb(w, p);
    if p.OnStarted? {
      P.StartFits(w, p);
      P.ZipInjective(w.all, w.db.decl.value.serviceId, w.answers);
    } else {
      OnlyStartPublishes(w.db, p);
    }
  }

  /** In every run of the whole server every notification is reported at most once, exactly when all its
      connections have confirmed, and rightly. */
  lemma RunReported(s: System, es: seq<Event>, n: nat)
    requires Inv(s) && Behaves(s, es) && n < |Run(s, es).n.lives|
    ensures N.WellReported(Run(s, es).n.lives[n])
  {
    RunKeeps(s, es);
    N.LifeReported(Run(s, es).n, n);
  }

  // ---------------------------------------------------------------------------------------------
  // The object follows the run

  ghost predicate Matches(o: Server, s: System)
    reads o, o.objs, Shared(o.pendingIndications)`hasSuccess
  {
    && o.Database() == s.w.db
    && o.LinksValid() && o.Links() == s.links
    && o.IndicationsValid() && o.Indications() == s.n.s
  }

  /** Where the order in which handles are entered does not matter. */
  ghost predicate Ready(db: D.Db, p: P.Event) { p.OnStarted? ==> D.Injective(db.pendingMap) }

  /** In a run that keeps to the HAL's contract it never matters. */
  lemma AlwaysReady(w: P.World, p: P.Event)
    requires P.Inv(w) && P.Allowed(w, p)
    ensures Ready(w.db, p)
  {
    if w.db.decl.Some? && w.db.endCallback.Some? {
      P.ZipInjective(w.all, w.db.decl.value.serviceId, w.answers);
    }
  }

  /** One declaring call. */
  method PerformCall(o: Server, e: P.Event) returns (out: Output)
    requires !P.IsAnswer(e)
    modifies o`pendingId, o`pendingDecl, o`pendingEndCallback, o`pendingHandleMap, o`idToHandle, o`handleToId
    ensures o.Database() == P.Step(old(o.Database()), e).0 && out == PublishOutput(old(o.Database()), e)
  {
    var id, ok, outs := None, false, [];
    match e {
      case CallBegin(uuid, primary) => id, outs := o.BeginServiceDeclaration(uuid, primary);
      case CallAddCharacteristic(uuid, pr, pe) => id := o.AddCharacteristic(uuid, pr, pe);
      case CallAddDescriptor(uuid, pe) => id, outs := o.AddDescriptor(uuid, pe);
      case CallEnd(cb, hal) => ok, outs := o.EndServiceDeclaration(cb, hal);
    }
    out := Published(id, ok, outs);
  }

  /** One answer of the HAL. */
  method PerformAnswer(o: Server, e: P.Event) returns (out: Output)
    requires P.IsAnswer(e) && Ready(o.Database(), e)
    modifies o`pendingId, o`pendingDecl, o`pendingEndCallback, o`pendingHandleMap, o`idToHandle, o`handleToId
    ensures o.Database() == P.Step(old(o.Database()), e).0 && out == PublishOutput(old(o.Database()), e)
  {
    var outs;
    match e {
      case OnService(status, svc, handle, hal) => outs := o.ServiceAddedCallback(o.serverId, status, svc, handle, hal);
      case OnChar(status, uuid, service, handle, hal) =>
        outs := o.CharacteristicAddedCallback(o.serverId, status, uuid, service, handle, hal);
      case OnDesc(status, uuid, service, handle, hal) =>
        outs := o.DescriptorAddedCallback(o.serverId, status, uuid, service, handle, hal);
      case OnStarted(status, service) =>
        outs := o.ServiceStartedCallback(o.serverId, status, service);
        D.StartAnsweredOnce(old(o.Database()), status, service, o.Database(), outs);
    }
    out := Published(None, false, outs);
  }

  /** One connection event or request; the handles an event knows are the published ones. */
  method PerformLink(o: Server, e: L.Event) returns (out: Output)
    requires o.LinksValid() && e == Known(e, o.handleToId.Keys)
    modifies o`connIdMap, o`connAddrMap, o`conns, o`objs, o.objs`requests
    ensures o.LinksValid() && o.Links() == L.Step(old(o.Links()), e) && out == LinkOutput(old(o.Links()), e)
    ensures old(o.objs) <= o.objs && forall i :: |old(o.objs)| <= i < |o.objs| ==> fresh(o.objs[i])
  {
    out := Linked(false, None);
    match e {
      case OnConnect(id, addr) => o.ConnectionCallback(id, o.serverId, true, addr);
      case OnDisconnect(id, addr) => o.ConnectionCallback(id, o.serverId, false, addr);
      case OnRead(_, id, addr, req, handle) => o.RequestReadCallback(id, req, addr, handle);
      case OnWrite(_, id, addr, req, handle, length, needRsp) =>
        o.RequestWriteCallback(id, req, addr, handle, length, needRsp);
      case OnExecWrite(id, addr, req) => o.RequestExecWriteCallback(id, req, addr);
      case CallRespond(addr, req, error, offset, value, hal) =>
        var ok, reply := o.SendResponse(addr, req, error, offset, value, hal);
        out := Linked(ok, reply);
    }
  }

  /** How the three parts of the system move. */
  lemma NextParts(s: System, e: Event)
    ensures e.Publish? ==> var s' := Next(s, e); s'.w.db == P.Step(s.w.db, e.p).0 && s'.links == s.links && s'.n == s.n
    ensures e.Link? ==>
              var s' := Next(s, e);
              s'.w == s.w && s'.links == L.Step(s.links, Known(e.l, s.w.db.handleToId.Keys)) && s'.n == s.n
    ensures e.Notify? ==>
              var s' := Next(s, e);
              && s'.w == s.w && s'.links == s.links
              && s'.n.s == N.Notify(s.n.s, L.ConnectionsOf(s.links, e.addr), e.charId in s.w.db.idToHandle,
                                    e.callback, e.hal).0
    ensures e.Confirmed? ==>
              var s' := Next(s, e); s'.w == s.w && s'.links == s.links && s'.n.s == N.Confirm(s.n.s, e.id, e.status).0
  {
    if e.Publish? { P.NextDb(s.w, e.p); }
  }

  method PublishStep(o: Server, p: P.Event, ghost s: System, ghost s': System) returns (out: Output)
    requires Matches(o, s) && Ready(s.w.db, p)
    requires s'.w.db == P.Step(s.w.db, p).0 && s'.links == s.links && s'.n == s.n
    modifies o`pendingId, o`pendingDecl, o`pendingEndCallback, o`pendingHandleMap, o`idToHandle, o`handleToId
    ensures Matches(o, s') && out == PublishOutput(s.w.db, p)
  {
    if P.IsAnswer(p) { out := PerformAnswer(o, p); } else { out := PerformCall(o, p); }
  }

  method LinkStep(o: Server, l: L.Event, ghost s: System, ghost s': System) returns (out: Output)
    requires Matches(o, s) && l == Known(l, o.handleToId.Keys)
    requires s'.w == s.w && s'.links == L.Step(s.links, l) && s'.n == s.n
    modifies o`connIdMap, o`connAddrMap, o`conns, o`objs, o.objs`requests
    ensures Matches(o, s') && out == LinkOutput(s.links, l)
    ensures old(o.objs) <= o.objs && forall i :: |old(o.objs)| <= i < |o.objs| ==> fresh(o.objs[i])
  {
    ghost var links := o.Links();
    out := PerformLink(o, l);
    assert o.Database() == s.w.db && o.IndicationsValid() && o.Indications() == s.n.s;
    assert links == s.links;
  }

  /** Which handles are known matters for requests only. */
  lemma SameOutput(s: L.Links, l: L.Event, handles: set<L.Handle>)
    ensures LinkOutput(s, Known(l, handles)) == LinkOutput(s, l)
  {
    assert l.CallRespond? ==> Known(l, handles) == l;
  }

  method NotifyStep(o: Server, e: Event, ghost s: System) returns (out: Output)
    requires Matches(o, s) && e.Notify?
    modifies o`pendingIndications, o`callbacks
    ensures Matches(o, Next(s, e)) && out == OutputOf(s, e)
    ensures forall c :: c in o.pendingIndications ==>
              fresh(o.pendingIndications[c])
              || (c in old(o.pendingIndications) && o.pendingIndications[c] == old(o.pendingIndications)[c])
  {
    NextParts(s, e);
    var ok, calls := o.SendNotification(e.addr, e.charId, e.confirm, e.value, e.callback, e.hal);
    out := Notified(ok, calls);
  }

  method ConfirmStep(o: Server, id: ConnId, status: int, ghost s: System) returns (out: Output)
    requires Matches(o, s)
    modifies o`pendingIndications, o`succeeded, Shared(o.pendingIndications)`hasSuccess
    ensures Matches(o, Next(s, Confirmed(id, status))) && out == OutputOf(s, Confirmed(id, status))
    ensures forall c :: c in o.pendingIndications ==>
              c in old(o.pendingIndications) && o.pendingIndications[c] == old(o.pendingIndications)[c]
  {
    NextParts(s, Confirmed(id, status));
    var call := o.IndicationSentCallback(id, status);
    out := Invoked(call);
  }

  /** One event of any kind. */
  method Perform(o: Server, e: Event, ghost s: System) returns (out: Output)
    requires Matches(o, s) && (e.Publish? ==> Ready(s.w.db, e.p))
    modifies o, o.objs`requests, Shared(o.pendingIndications)`hasSuccess
    ensures Matches(o, Next(s, e)) && out == OutputOf(s, e)
    ensures old(o.objs) <= o.objs && forall i :: |old(o.objs)| <= i < |o.objs| ==> fresh(o.objs[i])
    ensures forall c :: c in o.pendingIndications ==>
              fresh(o.pendingIndications[c])
              || (c in old(o.pendingIndications) && o.pendingIndications[c] == old(o.pendingIndications)[c])
  {
    NextParts(s, e);
    match e {
      case Publish(p) => out := PublishStep(o, p, s, Next(s, e));
      case Link(l) =>
        SameOutput(s.links, l, o.handleToId.Keys);
        out := LinkStep(o, Known(l, o.handleToId.Keys), s, Next(s, e));
      case Notify(_, _, _, _, _, _) => out := NotifyStep(o, e, s);
      case Confirmed(id, status) => out := ConfirmStep(o, id, status, s);
    }
  }

  /** A whole run of the server, whatever the order of its events: the object ends up as specified and has
      returned and called out what is specified; its maps are mutual inverses, its indexes sound, its
      indications in order, and no CHECK has failed. */
  method Execute(o: Server, es: seq<Event>, ghost s: System) returns (trace: seq<Output>)
    requires Inv(s) && Behaves(s, es) && Matches(o, s)
    modifies o, o.objs`requests, Shared(o.pendingIndications)`hasSuccess
    ensures Matches(o, Run(s, es)) && Inv(Run(s, es))
    ensures trace == Trace(s, es)
    ensures forall t :: t in trace && t.Published? ==> D.CheckFailed !in t.outs
    decreases |es|
  {
    if es == [] { return []; }
    if es[0].Publish? { AlwaysReady(s.w, es[0].p); }
    TraceSafe(s, es);
    var first := Perform(o, es[0], s);
    NextKeeps(s, es[0]);
    var rest := Execute(o, es[1..], Next(s, es[0]));
    trace := [first] + rest;
  }

  /** The same from the start. */
  method Session(serverId: int, es: seq<Event>) returns (o: Server, trace: seq<Output>)
    requires Behaves(INITIAL, es)
    ensures Matches(o, Run(INITIAL, es)) && Inv(Run(INITIAL, es)) && trace == Trace(INITIAL, es)
    ensures forall t :: t in trace && t.Published? ==> D.CheckFailed !in t.outs
    ensures HandlesKnown(o.Links(), o.handleToId.Keys)
    ensures Calls(trace) == Told(Run(INITIAL, es))
  {
    o := new Server(serverId);
    InitialInv();
    RunHandlesKnown(INITIAL, es);
    CallsAreReports(INITIAL, es);
    trace := Execute(o, es, INITIAL);
  }
}
