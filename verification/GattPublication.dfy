/**
 Runs of service declaration and publication against a HAL that answers every accepted request once,
 echoes what it was asked for and hands out fresh handles.
 */
module GattPublication {
  import opened Common
  import opened GattDeclaration

  datatype Event =
    | CallBegin(uuid: Uuid, primary: bool)
    | CallAddCharacteristic(uuid: Uuid, properties: int, permissions: int)
    | CallAddDescriptor(uuid: Uuid, permissions: int)
    | CallEnd(callback: Option<Callback>, hal: int)
    | OnService(status: int, id: ServiceId, handle: int, hal: int)
    | OnChar(status: int, uuid: Uuid, service: int, handle: int, hal: int)
    | OnDesc(status: int, uuid: Uuid, service: int, handle: int, hal: int)
    | OnStarted(status: int, service: int)

  ghost function Step(s: Db, e: Event): (Db, seq<Out>) {
    match e
    case CallBegin(uuid, primary) => var (s', _, out) := Begin(s, uuid, primary); (s', out)
    case CallAddCharacteristic(uuid, pr, pe) => (AddCharacteristic(s, uuid, pr, pe).0, [])
    case CallAddDescriptor(uuid, pe) => var (s', _, out) := AddDescriptor(s, uuid, pe); (s', out)
    case CallEnd(cb, hal) => var (s', _, out) := End(s, cb, hal); (s', out)
    case OnService(status, id, handle, hal) => ServiceAdded(s, status, id, handle, hal)
    case OnChar(status, uuid, service, handle, hal) =>
      AttributeAdded(s, AwaitsChar(s, uuid), status, service, handle, hal)
    case OnDesc(status, uuid, service, handle, hal) =>
      AttributeAdded(s, AwaitsDesc(s, uuid), status, service, handle, hal)
    case OnStarted(status, service) => ServiceStarted(s, status, service)
  }

  /** The identifier a declaring call returns. */
  function Returned(s: Db, e: Event): Option<Id> {
    match e
    case CallBegin(uuid, primary) => Begin(s, uuid, primary).1
    case CallAddCharacteristic(uuid, pr, pe) => AddCharacteristic(s, uuid, pr, pe).1
    case CallAddDescriptor(uuid, pe) => AddDescriptor(s, uuid, pe).1
    case _ => None
  }

  // ---------------------------------------------------------------------------------------------
  // The record of a run

  datatype Request =
    | ServiceRequest(id: ServiceId) | CharRequest(service: int, uuid: Uuid) | DescRequest(service: int, uuid: Uuid)
    | StartRequest(service: int)

  datatype Mark = Asked(out: Out) | Granted(handle: int)

  /** The server with its HAL requests not yet answered, the declaration being published, the handles
      granted for it so far, the story of that publication, and the callbacks accepted and completed. */
  datatype World = World(
    db: Db, open: multiset<Request>, all: seq<Entry>, answers: seq<int>, story: seq<Mark>,
    accepted: seq<Callback>, completed: seq<Callback>, failed: bool)

  function Ask(w: World, r: Request, o: Out): World {
    w.(open := w.open + multiset{r}, story := w.story + [Asked(o)])
  }

  function Note(w: World, o: Out): World {
    match o
    case AddService(id, n, status) =>
      if status != BT_STATUS_SUCCESS then w else Ask(w.(story := []), ServiceRequest(id), o)
    case AddChar(service, uuid, _, _, status) =>
      if status != BT_STATUS_SUCCESS then w else Ask(w, CharRequest(service, uuid), o)
    case AddDesc(service, uuid, _, status) =>
      if status != BT_STATUS_SUCCESS then w else Ask(w, DescRequest(service, uuid), o)
    case StartService(service, status) =>
      if status != BT_STATUS_SUCCESS then w else Ask(w, StartRequest(service), o)
    case DeleteService(_) => w
    case Done(cb, _, _) => w.(completed := w.completed + [cb])
    case CheckFailed => w.(failed := true)
  }

  predicate IsAnswer(e: Event) { e.OnService? || e.OnChar? || e.OnDesc? || e.OnStarted? }

  function RequestOf(e: Event): Request
    requires IsAnswer(e)
  {
    match e
    case OnService(_, id, _, _) => ServiceRequest(id)
    case OnChar(_, uuid, service, _, _) => CharRequest(service, uuid)
    case OnDesc(_, uuid, service, _, _) => DescRequest(service, uuid)
    case OnStarted(_, service) => StartRequest(service)
  }

  /** The answer grants a handle. */
  predicate Grants(e: Event) { IsAnswer(e) && !e.OnStarted? && e.status == BT_STATUS_SUCCESS }

  predicate Allowed(w: World, e: Event) {
    IsAnswer(e) ==>
      && RequestOf(e) in w.open
      && (Grants(e) ==> e.handle !in w.db.handleToId && e.handle !in w.answers)
  }

  function Answer(w: World, e: Event): World {
    if !IsAnswer(e) then w
    else
      var w1 := w.(open := w.open - multiset{RequestOf(e)});
      if Grants(e) then w1.(answers := w.answers + [e.handle], story := w.story + [Granted(e.handle)]) else w1
  }

  /** An accepted EndServiceDeclaration starts a new publication. */
  predicate Accepts(s: Db, e: Event) { e.CallEnd? && End(s, e.callback, e.hal).1 }

  ghost function Next(w: World, e: Event): World {
    var (db, out) := Step(w.db, e);
    var w1 := if Accepts(w.db, e)
              then w.(all := w.db.decl.value.attributes, answers := [], accepted := w.accepted + [e.callback.value])
              else Answer(w, e);
    Fold(Note, w1.(db := db), out)
  }

  // ---------------------------------------------------------------------------------------------
  // What every run keeps

  /** Instance numbers of the published services with a UUID. */
  function Instances(m: map<Id, int>, uuid: Uuid): set<nat> { set id | id in Services(m, uuid) :: id.svc.inst }

  predicate Twins(a: Id, b: Id) {
    a.Service? && b.Service? && a.svc.uuid == b.svc.uuid && a.svc.inst == b.svc.inst
  }

  /** For each UUID the instances are exactly 0 .. n-1, each of one service. */
  ghost predicate Dense(m: map<Id, int>) {
    && (forall uuid, k: nat :: k in Instances(m, uuid) <==> k < |Services(m, uuid)|)
    && (forall a, b :: a in m && b in m && Twins(a, b) ==> a == b)
  }

  predicate MutualInverse(m: map<Id, int>, r: map<int, Id>) {
    && (forall id :: id in m ==> m[id] in r && r[m[id]] == id)
    && (forall h :: h in r ==> r[h] in m && m[r[h]] == h)
  }

  /** The published database: both maps agree, every attribute has its service, instances are dense. */
  ghost predicate Published(s: Db) {
    && MutualInverse(s.idToHandle, s.handleToId)
    && (forall id :: id in s.idToHandle ==> Service(id.svc) in s.idToHandle)
    && Dense(s.idToHandle)
  }

  predicate FreshService(s: Db, svc: ServiceId) { svc.inst == |Services(s.idToHandle, svc.uuid)| }

  /** What the declaration asks of the HAL after k grants; the last request starts the service. */
  function Plan(all: seq<Entry>, hs: seq<int>, svc: ServiceId, k: nat): Out
    requires k <= |all| && k <= |hs|
  {
    if k == 0 then AddService(svc, HandleNeed(all), BT_STATUS_SUCCESS)
    else if k == |all| then StartService(hs[0], BT_STATUS_SUCCESS)
    else RequestFor(hs[0], all[k], BT_STATUS_SUCCESS)
  }

  function PlanRequest(all: seq<Entry>, hs: seq<int>, svc: ServiceId, k: nat): Request
    requires k <= |all| && k <= |hs|
  {
    if k == 0 then ServiceRequest(svc)
    else if k == |all| then StartRequest(hs[0])
    else match all[k].id
      case Service(_) => ServiceRequest(svc)
      case Char(_, cu, _) => CharRequest(hs[0], cu)
      case Desc(_, _, _, du, _) => DescRequest(hs[0], du)
  }

  /** Request, grant, request, grant, ... in declared order, up to the request after k grants. */
  function Tale(all: seq<Entry>, hs: seq<int>, svc: ServiceId, k: nat): seq<Mark>
    requires k <= |all| && k <= |hs|
  {
    if k == 0 then [Asked(Plan(all, hs, svc, 0))]
    else Tale(all, hs, svc, k - 1) + [Granted(hs[k-1]), Asked(Plan(all, hs, svc, k))]
  }

  function Zip(es: seq<Entry>, hs: seq<int>): map<Id, int>
    requires |hs| <= |es|
  {
    if hs == [] then map[] else Zip(es, hs[..|hs|-1])[es[|hs|-1].id := hs[|hs|-1]]
  }

  predicate Distinct(hs: seq<int>) { forall i, j :: 0 <= i < j < |hs| ==> hs[i] != hs[j] }

  ghost predicate Publishing(w: World) {
    && w.db.decl.Some? && w.db.endCallback.Some?
    && var d, k := w.db.decl.value, |w.answers|;
       && k <= |w.all| && Underway(w, d)
       && d.serviceHandle == (if k == 0 then -1 else w.answers[0])
       && d.attributes == (if k < |w.all| then w.all[k+1..] else [])
       && w.db.pendingId == Some(w.all[if k < |w.all| then k else k - 1].id)
       && w.story == Tale(w.all, w.answers, d.serviceId, k)
       && w.open == multiset{PlanRequest(w.all, w.answers, d.serviceId, k)}
  }

  /** The declaration is a good one, its service is new, and the handles granted so far are noted. */
  ghost predicate Underway(w: World, d: Decl) {
    && FreshService(w.db, d.serviceId) && Declared(w.all, d.serviceId) && d.numHandles == HandleNeed(w.all)
    && Distinct(w.answers) && (forall h :: h in w.answers ==> h !in w.db.handleToId)
    && |w.answers| <= |w.all| && w.db.pendingMap == Zip(w.all, w.answers)
  }

  ghost predicate Declaring(w: World) {
    && w.db.decl.Some? && w.db.endCallback.None? && w.db.pendingId.None? && w.db.pendingMap == map[]
    && w.open == multiset{}
    && var d := w.db.decl.value;
       && FreshService(w.db, d.serviceId) && Declared(d.attributes, d.serviceId)
       && d.numHandles == HandleNeed(d.attributes) && d.serviceHandle == -1
  }

  predicate Idle(w: World) {
    && w.db.decl.None? && w.db.endCallback.None? && w.db.pendingId.None? && w.db.pendingMap == map[]
    && w.open == multiset{}
  }

  ghost predicate Inv(w: World) {
    && !w.failed && Published(w.db)
    && w.completed + AsSeq(w.db.endCallback) == w.accepted
    && (if w.db.decl.None? then Idle(w) else if w.db.endCallback.None? then Declaring(w) else Publishing(w))
  }

  // ---------------------------------------------------------------------------------------------
  // Declaring

  lemma BeginKeeps(w: World, e: Event)
    requires Inv(w) && e.CallBegin?
    ensures Inv(Next(w, e))
  {
  }

  lemma AddCharKeeps(w: World, e: Event)
    requires Inv(w) && e.CallAddCharacteristic?
    ensures Inv(Next(w, e))
  {
    if w.db.decl.Some? && w.db.endCallback.None? {
      var d := w.db.decl.value;
      var id := Char(d.serviceId, e.uuid, CharCount(d.attributes, e.uuid));
      DeclareMore(d.attributes, Entry(id, e.properties, e.permissions));
    }
  }

  lemma AddDescKeeps(w: World, e: Event)
    requires Inv(w) && e.CallAddDescriptor?
    ensures Inv(Next(w, e))
  {
    if w.db.decl.Some? && w.db.endCallback.None? && Owner(w.db.decl.value.attributes).Some? {
      var d := w.db.decl.value;
      var c := Owner(d.attributes).value;
      var id := Desc(c.svc, c.cu, c.ci, e.uuid, DescCount(d.attributes, e.uuid));
      DeclareMore(d.attributes, Entry(id, 0, e.permissions));
    }
  }

  lemma EndRefusedKeeps(w: World, e: Event)
    requires Inv(w) && Declaring(w) && e.CallEnd? && e.callback.Some? && e.hal != BT_STATUS_SUCCESS
    ensures Inv(Next(w, e))
  {
    var d := w.db.decl.value;
    FirstIsService(d.attributes, d.serviceId);
    FoldOne(Note, w.(db := CleanUp(w.db)), AddService(d.serviceId, d.numHandles, e.hal));
  }

  lemma EndAcceptedKeeps(w: World, e: Event)
    requires Inv(w) && Declaring(w) && e.CallEnd? && e.callback.Some? && e.hal == BT_STATUS_SUCCESS
    ensures Inv(Next(w, e))
  {
    var d := w.db.decl.value;
    FirstIsService(d.attributes, d.serviceId);
    var o := AddService(d.serviceId, d.numHandles, e.hal);
    var w1 := w.(all := d.attributes, answers := [], accepted := w.accepted + [e.callback.value],
                 db := Step(w.db, e).0);
    FoldOne(Note, w1, o);
    assert w.completed + [] == w.completed && [] + [Asked(o)] == [Asked(o)];
    assert multiset{} + multiset{ServiceRequest(d.serviceId)} == multiset{ServiceRequest(d.serviceId)};
  }

  lemma EndKeeps(w: World, e: Event)
    requires Inv(w) && e.CallEnd?
    ensures Inv(Next(w, e))
  {
    if w.db.decl.Some? && w.db.endCallback.None? && e.callback.Some? {
      if e.hal == BT_STATUS_SUCCESS { EndAcceptedKeeps(w, e); } else { EndRefusedKeeps(w, e); }
    }
  }

  lemma {:induction false} FirstIsService(es: seq<Entry>, svc: ServiceId)
    requires Declared(es, svc)
    ensures es[0].id == Service(svc) && HandleNeed(es) > 0
  {
    if |es| > 1 { FirstIsService(es[..|es|-1], svc); }
  }

  // ---------------------------------------------------------------------------------------------
  // Publishing, one answer at a time

  /** Takes in a granted handle. */
  ghost function Store(s: Db, handle: int): Db
    requires s.decl.Some? && s.pendingId.Some?
  {
    var s1 := s.(pendingMap := s.pendingMap[s.pendingId.value := handle]);
    if s.pendingId.value.Service? then s1.(decl := Some(s.decl.value.(serviceHandle := handle))) else s1
  }

  /** Under the HAL's contract every answer is the awaited one, and no CHECK stands in its way. */
  lemma AnswerFits(w: World, e: Event)
    requires Inv(w) && Allowed(w, e) && IsAnswer(e)
    ensures Publishing(w)
    ensures var d, k := w.db.decl.value, |w.answers|;
            && w.db.pendingId.Some?
            && RequestOf(e) == PlanRequest(w.all, w.answers, d.serviceId, k)
            && (e.OnStarted? <==> k == |w.all|)
            && (k < |w.all| ==>
                  Step(w.db, e) == if e.status != BT_STATUS_SUCCESS then Finish(w.db, e.status, d.serviceId)
                                   else HandleNext(Store(w.db, e.handle), e.hal))
            && (k == |w.all| ==> d.serviceHandle == e.service)
  {
    var d, k := w.db.decl.value, |w.answers|;
    FirstIsService(w.all, d.serviceId);
    if k < |w.all| { DeclaredKinds(w.all, d.serviceId, k); }
  }

  /** Between a grant and the next request. */
  ghost predicate Between(w: World) {
    && w.db.decl.Some? && w.db.endCallback.Some? && !w.failed && Published(w.db)
    && w.completed + AsSeq(w.db.endCallback) == w.accepted
    && w.open == multiset{}
    && var d, k := w.db.decl.value, |w.answers|;
       && 1 <= k <= |w.all| && Underway(w, d)
       && d.serviceHandle == w.answers[0]
       && d.attributes == w.all[k..]
       && w.db.pendingId == Some(w.all[k-1].id)
       && w.story == Tale(w.all, w.answers, d.serviceId, k - 1) + [Granted(w.answers[k-1])]
  }

  lemma {:induction false} TaleSame(all: seq<Entry>, hs: seq<int>, h: int, svc: ServiceId, k: nat)
    requires k <= |all| && k <= |hs|
    ensures Tale(all, hs + [h], svc, k) == Tale(all, hs, svc, k)
  {
    if k > 0 { TaleSame(all, hs, h, svc, k - 1); }
  }

  lemma ZipMore(es: seq<Entry>, hs: seq<int>, h: int)
    requires |hs| < |es|
    ensures Zip(es, hs + [h]) == Zip(es, hs)[es[|hs|].id := h]
  {
    assert (hs + [h])[..|hs|] == hs;
  }

  /** The grant noted. */
  lemma GrantUnderway(w: World, v: World, d: Decl, d': Decl, h: int)
    requires Underway(w, d) && |w.answers| < |w.all| && h !in w.answers && h !in w.db.handleToId
    requires v.all == w.all && v.answers == w.answers + [h]
    requires v.db.pendingMap == w.db.pendingMap[w.all[|w.answers|].id := h]
    requires v.db.handleToId == w.db.handleToId && v.db.idToHandle == w.db.idToHandle
    requires d'.serviceId == d.serviceId && d'.numHandles == d.numHandles
    ensures Underway(v, d')
  {
    ZipMore(w.all, w.answers, h);
  }

  lemma GrantKeeps(w: World, e: Event)
    requires Inv(w) && Allowed(w, e) && IsAnswer(e) && Grants(e)
    ensures Publishing(w) && w.db.pendingId.Some? && Between(Answer(w, e).(db := Store(w.db, e.handle)))
  {
    AnswerFits(w, e);
    var d, k := w.db.decl.value, |w.answers|;
    var v := Answer(w, e).(db := Store(w.db, e.handle));
    GrantUnderway(w, v, d, v.db.decl.value, e.handle);
    TaleSame(w.all, w.answers, e.handle, d.serviceId, k);
    DeclaredKinds(w.all, d.serviceId, k);
  }

  /** A publication reported and nothing pending left: idle again. */
  lemma DoneKeeps(w: World, db: Db, cb: Callback, status: int, svc: ServiceId)
    requires !w.failed && w.open == multiset{} && w.completed + [cb] == w.accepted
    requires Published(db) && db == CleanUp(db)
    ensures Inv(Note(w.(db := db), Done(cb, status, svc)))
  {
    assert w.accepted + [] == w.accepted;
  }

  /** Failure at any point: the callback is told, everything pending is cleared, the maps stay. */
  lemma FailKeeps(w: World, status: int, svc: ServiceId)
    requires !w.failed && Published(w.db) && w.db.endCallback.Some? && w.open == multiset{}
    requires w.completed + AsSeq(w.db.endCallback) == w.accepted && status != BT_STATUS_SUCCESS
    ensures var (db, out) := Finish(w.db, status, svc);
            && out == [Done(w.db.endCallback.value, status, svc)]
            && Inv(Note(w.(db := db), out[0]))
            && db.idToHandle == w.db.idToHandle && db.handleToId == w.db.handleToId
  {
    DoneKeeps(w, CleanUp(w.db), w.db.endCallback.value, status, svc);
  }

  /** Outputs that leave no trace in the record: refused requests and deletions. */
  predicate Traceless(o: Out) {
    || o.DeleteService?
    || ((o.AddService? || o.AddChar? || o.AddDesc? || o.StartService?) && o.status != BT_STATUS_SUCCESS)
  }

  /** Failure right after such an output. */
  lemma FailAfter(w: World, o: Out, status: int, svc: ServiceId)
    requires !w.failed && Published(w.db) && w.db.endCallback.Some? && w.open == multiset{} && Traceless(o)
    requires w.completed + AsSeq(w.db.endCallback) == w.accepted && status != BT_STATUS_SUCCESS
    ensures var (db, out) := Finish(w.db, status, svc); Inv(Fold(Note, w.(db := db), [o] + out))
  {
    FailKeeps(w, status, svc);
    var (db, out) := Finish(w.db, status, svc);
    var v := w.(db := db);
    assert [o] + out == [o, out[0]];
    FoldTwo(Note, v, o, out[0]);
    assert Note(v, o) == v;
  }

  lemma TaleMore(all: seq<Entry>, hs: seq<int>, svc: ServiceId, story: seq<Mark>)
    requires 1 <= |hs| <= |all|
    requires story == Tale(all, hs, svc, |hs| - 1) + [Granted(hs[|hs|-1])]
    ensures Tale(all, hs, svc, |hs|) == story + [Asked(Plan(all, hs, svc, |hs|))]
  {
    var t, g, a := Tale(all, hs, svc, |hs| - 1), Granted(hs[|hs|-1]), Asked(Plan(all, hs, svc, |hs|));
    assert t + [g, a] == t + [g] + [a];
  }

  lemma NextRequestKeeps(w: World)
    requires Between(w)
    ensures var (db, out) := HandleNext(w.db, BT_STATUS_SUCCESS);
            |out| == 1 && Inv(Note(w.(db := db), out[0]))
  {
    var d, k := w.db.decl.value, |w.answers|;
    TaleMore(w.all, w.answers, d.serviceId, w.story);
    if k < |w.all| {
      DeclaredKinds(w.all, d.serviceId, k);
      assert w.all[k..][0] == w.all[k] && w.all[k..][1..] == w.all[k+1..];
    }
    var next := multiset{PlanRequest(w.all, w.answers, d.serviceId, k)};
    assert multiset{} + next == next;
  }

  lemma AttributeKeeps(w: World, e: Event)
    requires Inv(w) && Allowed(w, e) && IsAnswer(e) && !e.OnStarted?
    ensures Inv(Next(w, e))
  {
    AnswerFits(w, e);
    var svc := w.db.decl.value.serviceId;
    var w1 := Answer(w, e);
    var (db, out) := Step(w.db, e);
    if e.status != BT_STATUS_SUCCESS {
      FailKeeps(w1, e.status, svc);
      FoldOne(Note, w1.(db := db), out[0]);
    } else {
      GrantKeeps(w, e);
      ResumeKeeps(w1.(db := Store(w.db, e.handle)), e.hal);
    }
  }

  lemma ResumeKeeps(w: World, hal: int)
    requires Between(w)
    ensures var (db, out) := HandleNext(w.db, hal); Inv(Fold(Note, w.(db := db), out))
  {
    var (db, out) := HandleNext(w.db, hal);
    var d := w.db.decl.value;
    if d.attributes != [] {
      DeclaredKinds(w.all, d.serviceId, |w.answers|);
      assert w.all[|w.answers|..][0] == w.all[|w.answers|];
    }
    if hal == BT_STATUS_SUCCESS {
      NextRequestKeeps(w);
      FoldOne(Note, w.(db := db), out[0]);
    } else {
      var s1 := if d.attributes == [] then w.db else w.db.(decl := Some(d.(attributes := d.attributes[1..])));
      FailAfter(w.(db := s1), out[0], hal, d.serviceId);
    }
  }

  // ---------------------------------------------------------------------------------------------
  // Commit

  lemma {:induction false} ZipKeys(es: seq<Entry>, svc: ServiceId, hs: seq<int>)
    requires Declared(es, svc) && |hs| <= |es|
    ensures forall i :: 0 <= i < |hs| ==> es[i].id in Zip(es, hs) && Zip(es, hs)[es[i].id] == hs[i]
    ensures forall id :: id in Zip(es, hs) ==> exists i :: 0 <= i < |hs| && es[i].id == id
  {
    if hs != [] {
      var k := |hs| - 1;
      ZipKeys(es, svc, hs[..k]);
      forall i | 0 <= i < k ensures es[i].id != es[k].id { DeclaredDistinct(es, svc, i, k); }
    }
  }

  lemma InstanceBound(m: map<Id, int>, id: Id)
    requires Dense(m) && id in m && id.Service?
    ensures id.svc.inst < |Services(m, id.svc.uuid)|
  {
    assert id in Services(m, id.svc.uuid);
    assert id.svc.inst in Instances(m, id.svc.uuid);
  }

  /** No attribute of a service with a fresh instance number is published. */
  lemma NotPublished(s: Db, svc: ServiceId, id: Id)
    requires Published(s) && FreshService(s, svc) && id in s.idToHandle
    ensures id.svc != svc
  {
    InstanceBound(s.idToHandle, Service(id.svc));
  }

  /** The identifiers and handles a publication adds. */
  ghost predicate Adds(z: map<Id, int>, es: seq<Entry>, svc: ServiceId, hs: seq<int>) {
    && Declared(es, svc) && |hs| == |es| && z == Zip(es, hs) && Distinct(hs)
  }

  lemma ZipInjective(es: seq<Entry>, svc: ServiceId, hs: seq<int>)
    requires Declared(es, svc) && |hs| <= |es| && Distinct(hs)
    ensures Injective(Zip(es, hs))
    ensures forall id :: id in Zip(es, hs) ==> Zip(es, hs)[id] in hs
  {
    var z := Zip(es, hs);
    ZipKeys(es, svc, hs);
    forall a, b | a in z && b in z && z[a] == z[b] ensures a == b {
      var i :| 0 <= i < |hs| && es[i].id == a;
      var j :| 0 <= j < |hs| && es[j].id == b;
      assert i == j;
    }
  }

  lemma AddsFacts(z: map<Id, int>, es: seq<Entry>, svc: ServiceId, hs: seq<int>)
    requires Adds(z, es, svc, hs)
    ensures Injective(z) && Service(svc) in z
    ensures forall id :: id in z ==> id.svc == svc && (id.Service? ==> id == Service(svc)) && z[id] in hs
  {
    ZipKeys(es, svc, hs);
    ZipInjective(es, svc, hs);
    FirstIsService(es, svc);
    forall id | id in z ensures id.svc == svc && (id.Service? ==> id == Service(svc)) {
      var i :| 0 <= i < |hs| && es[i].id == id;
      DeclaredKinds(es, svc, i);
    }
  }

  lemma CommitInverse(s: Db, z: map<Id, int>)
    requires MutualInverse(s.idToHandle, s.handleToId) && Injective(z)
    requires forall id :: id in z ==> id !in s.idToHandle && z[id] !in s.handleToId
    ensures MutualInverse(z + s.idToHandle, s.handleToId + Inverse(z))
  {
    var m, r := z + s.idToHandle, s.handleToId + Inverse(z);
    forall id | id in m ensures m[id] in r && r[m[id]] == id {
      if id in z {
        assert z[id] in z.Values;
      } else {
        assert s.idToHandle[id] !in Inverse(z);
      }
    }
    forall h | h in r ensures r[h] in m && m[r[h]] == h {
      if h in Inverse(z) { assert Inverse(z)[h] !in s.idToHandle; }
    }
  }

  /** Two identifiers with one handle: whichever is entered last, the other has lost its way back. Under fresh
      handles a commit keeps the maps mutual inverses if and only if no handle was granted twice. */
  lemma CommitExactly(s: Db, z: map<Id, int>, r: map<int, Id>)
    requires MutualInverse(s.idToHandle, s.handleToId) && Overwrites(s.handleToId, z, r)
    requires forall id :: id in z ==> id !in s.idToHandle && z[id] !in s.handleToId
    ensures MutualInverse(z + s.idToHandle, r) <==> Injective(z)
  {
    if Injective(z) {
      CommitInverse(s, z);
      OverwritesOnce(s.handleToId, z, r);
    } else {
      var a, b :| a in z && b in z && z[a] == z[b] && a != b;
      assert (z + s.idToHandle)[a] == (z + s.idToHandle)[b];
    }
  }

  lemma ServicesAfter(m: map<Id, int>, z: map<Id, int>, svc: ServiceId, uuid: Uuid)
    requires Service(svc) in z && Service(svc) !in m
    requires forall id :: id in z && id.Service? ==> id == Service(svc)
    ensures Services(z + m, uuid) == Services(m, uuid) + (if uuid == svc.uuid then {Service(svc)} else {})
    ensures |Services(z + m, uuid)| == |Services(m, uuid)| + (if uuid == svc.uuid then 1 else 0)
  {
    var a, b := Services(z + m, uuid), Services(m, uuid);
    assert forall id :: id in a <==> id in b || (uuid == svc.uuid && id == Service(svc));
    assert a == b + (if uuid == svc.uuid then {Service(svc)} else {});
  }

  lemma InstancesAfter(m: map<Id, int>, z: map<Id, int>, svc: ServiceId, uuid: Uuid, k: nat)
    requires Service(svc) in z && Service(svc) !in m
    requires forall id :: id in z && id.Service? ==> id == Service(svc)
    ensures k in Instances(z + m, uuid) <==> k in Instances(m, uuid) || (uuid == svc.uuid && k == svc.inst)
  {
    ServicesAfter(m, z, svc, uuid);
    var a, b := Services(z + m, uuid), Services(m, uuid);
    if uuid == svc.uuid && k == svc.inst { assert Service(svc) in a; }
    if id :| id in b && id.svc.inst == k { assert id in a; }
  }

  lemma CommitDense(m: map<Id, int>, z: map<Id, int>, svc: ServiceId)
    requires Dense(m) && svc.inst == |Services(m, svc.uuid)|
    requires Service(svc) in z && Service(svc) !in m
    requires forall id :: id in z && id.Service? ==> id == Service(svc)
    ensures Dense(z + m)
  {
    forall uuid, k: nat ensures k in Instances(z + m, uuid) <==> k < |Services(z + m, uuid)| {
      ServicesAfter(m, z, svc, uuid);
      InstancesAfter(m, z, svc, uuid, k);
    }
    forall a, b | a in z + m && b in z + m && Twins(a, b) ensures a == b {
      if a in m && b !in m { NewTwin(m, svc, a); }
      if b in m && a !in m { NewTwin(m, svc, b); }
    }
  }

  lemma NewTwin(m: map<Id, int>, svc: ServiceId, a: Id)
    requires Dense(m) && svc.inst == |Services(m, svc.uuid)| && a in m
    ensures !Twins(a, Service(svc))
  {
    if a.Service? { InstanceBound(m, a); }
  }

  lemma CommitPublished(s: Db, es: seq<Entry>, svc: ServiceId, hs: seq<int>)
    requires Published(s) && FreshService(s, svc) && Adds(s.pendingMap, es, svc, hs) && s.endCallback.Some?
    requires forall h :: h in hs ==> h !in s.handleToId
    ensures Published(Finish(s, BT_STATUS_SUCCESS, svc).0)
  {
    var z := s.pendingMap;
    AddsFacts(z, es, svc, hs);
    forall id | id in s.idToHandle ensures id.svc != svc { NotPublished(s, svc, id); }
    CommitInverse(s, z);
    CommitDense(s.idToHandle, z, svc);
  }

  lemma CommitKeeps(w: World)
    requires !w.failed && Published(w.db) && w.open == multiset{} && w.db.decl.Some? && w.db.endCallback.Some?
    requires w.completed + AsSeq(w.db.endCallback) == w.accepted
    requires Underway(w, w.db.decl.value) && |w.answers| == |w.all|
    ensures var svc := w.db.decl.value.serviceId;
            var (db, out) := Finish(w.db, BT_STATUS_SUCCESS, svc);
            out == [Done(w.db.endCallback.value, BT_STATUS_SUCCESS, svc)] && Inv(Note(w.(db := db), out[0]))
  {
    var svc := w.db.decl.value.serviceId;
    CommitPublished(w.db, w.all, svc, w.answers);
    DoneKeeps(w, Finish(w.db, BT_STATUS_SUCCESS, svc).0, w.db.endCallback.value, BT_STATUS_SUCCESS, svc);
  }

  lemma StartFits(w: World, e: Event)
    requires Inv(w) && Allowed(w, e) && e.OnStarted?
    ensures w.db.decl.Some? && w.db.endCallback.Some? && Underway(w, w.db.decl.value) && |w.answers| == |w.all|
    ensures Answer(w, e) == w.(open := multiset{})
    ensures var (db, out) := Finish(w.db, e.status, w.db.decl.value.serviceId);
            Step(w.db, e) ==
            (db, if e.status != BT_STATUS_SUCCESS then [DeleteService(e.service), out[0]] else [out[0]])
  {
    AnswerFits(w, e);
    var (db, out) := Finish(w.db, e.status, w.db.decl.value.serviceId);
    assert [DeleteService(e.service)] + out == [DeleteService(e.service), out[0]] && [] + out == [out[0]];
  }

  lemma StartFailedKeeps(w: World, e: Event)
    requires Inv(w) && Allowed(w, e) && e.OnStarted? && e.status != BT_STATUS_SUCCESS
    ensures Inv(Next(w, e))
  {
    StartFits(w, e);
    var w1, svc := w.(open := multiset{}), w.db.decl.value.serviceId;
    var o := DeleteService(e.service);
    FailAfter(w1, o, e.status, svc);
    assert [o] + Finish(w.db, e.status, svc).1 == Step(w.db, e).1;
  }

  lemma StartSucceededKeeps(w: World, e: Event)
    requires Inv(w) && Allowed(w, e) && e.OnStarted? && e.status == BT_STATUS_SUCCESS
    ensures Inv(Next(w, e))
  {
    StartFits(w, e);
    var w1, svc := w.(open := multiset{}), w.db.decl.value.serviceId;
    CommitKeeps(w1);
    var (db, out) := Finish(w.db, e.status, svc);
    FoldOne(Note, w1.(db := db), out[0]);
  }

  lemma NextKeeps(w: World, e: Event)
    requires Inv(w) && Allowed(w, e)
    ensures Inv(Next(w, e))
  {
    match e
    case CallBegin(_, _) => BeginKeeps(w, e);
    case CallAddCharacteristic(_, _, _) => AddCharKeeps(w, e);
    case CallAddDescriptor(_, _) => AddDescKeeps(w, e);
    case CallEnd(_, _) => EndKeeps(w, e);
    case OnStarted(_, _) =>
      if e.status == BT_STATUS_SUCCESS { StartSucceededKeeps(w, e); } else { StartFailedKeeps(w, e); }
    case _ => AttributeKeeps(w, e);
  }

  // ---------------------------------------------------------------------------------------------
  // Whole runs

  ghost predicate Behaves(w: World, es: seq<Event>)
    decreases |es|
  {
    es == [] || (Allowed(w, es[0]) && Behaves(Next(w, es[0]), es[1..]))
  }

  ghost function Run(w: World, es: seq<Event>): World
    requires Behaves(w, es)
    decreases |es|
  {
    if es == [] then w else Run(Next(w, es[0]), es[1..])
  }

  const INITIAL := World(EMPTY, multiset{}, [], [], [], [], [], false)

  lemma InitialInv()
    ensures Inv(INITIAL)
  {
    forall uuid, k: nat ensures k in Instances(map[], uuid) <==> k < |Services(map[], uuid)| {
      assert Services(map[], uuid) == {};
    }
  }

  lemma {:induction false} RunInv(w: World, es: seq<Event>)
    requires Inv(w) && Behaves(w, es)
    ensures Inv(Run(w, es))
    decreases |es|
  {
    if es != [] {
      NextKeeps(w, es[0]);
      RunInv(Next(w, es[0]), es[1..]);
    }
  }

  /** Every run: no CHECK fires; the two maps are mutual inverses; for each UUID the published instances
      are exactly 0 .. n-1; every accepted EndServiceDeclaration is reported once and in order, save one
      that may still be under way; and while it is, the HAL has been asked for the declared attributes in
      order, each after the grant for the one before. */
  lemma RunSafe(es: seq<Event>)
    requires Behaves(INITIAL, es)
    ensures var w := Run(INITIAL, es);
            && !w.failed
            && MutualInverse(w.db.idToHandle, w.db.handleToId) && Dense(w.db.idToHandle)
            && w.completed + AsSeq(w.db.endCallback) == w.accepted
            && (w.db.endCallback.Some? ==>
                  w.db.decl.Some? && |w.answers| <= |w.all|
                  && w.story == Tale(w.all, w.answers, w.db.decl.value.serviceId, |w.answers|))
  {
    InitialInv();
    RunInv(INITIAL, es);
  }

  /** A failed CHECK among the outputs shows in the record. */
  lemma {:induction false} FailureShows(w: World, out: seq<Out>)
    requires w.failed || CheckFailed in out
    ensures Fold(Note, w, out).failed
    decreases |out|
  {
    if out != [] { FailureShows(Note(w, out[0]), out[1..]); }
  }

  lemma NoCheckFails(w: World, e: Event)
    requires Inv(w) && Allowed(w, e)
    ensures CheckFailed !in Step(w.db, e).1
  {
    NextKeeps(w, e);
    if CheckFailed in Step(w.db, e).1 {
      var w1 := if Accepts(w.db, e)
                then w.(all := w.db.decl.value.attributes, answers := [], accepted := w.accepted + [e.callback.value])
                else Answer(w, e);
      FailureShows(w1.(db := Step(w.db, e).0), Step(w.db, e).1);
    }
  }

  lemma EndedByAttribute(w: World, e: Event, cb: Callback, status: int, id: ServiceId)
    requires Inv(w) && Allowed(w, e) && IsAnswer(e) && !e.OnStarted? && Done(cb, status, id) in Step(w.db, e).1
    ensures w.db.endCallback == Some(cb) && w.db.decl.Some? && id == w.db.decl.value.serviceId
    ensures status != BT_STATUS_SUCCESS
    ensures var s := Step(w.db, e).0;
            s.decl.None? && s.idToHandle == w.db.idToHandle && s.handleToId == w.db.handleToId
  {
    AnswerFits(w, e);
    if e.status == BT_STATUS_SUCCESS {
      GrantKeeps(w, e);
      EndedByNext(Store(w.db, e.handle), e.hal, cb, status, id);
    }
  }

  lemma EndedByNext(s: Db, hal: int, cb: Callback, status: int, id: ServiceId)
    requires s.decl.Some? && s.endCallback.Some? && Done(cb, status, id) in HandleNext(s, hal).1
    ensures status == hal != BT_STATUS_SUCCESS && s.endCallback == Some(cb) && id == s.decl.value.serviceId
    ensures var s' := HandleNext(s, hal).0;
            s'.decl.None? && s'.idToHandle == s.idToHandle && s'.handleToId == s.handleToId
  {
  }

  lemma EndedByStart(w: World, e: Event, cb: Callback, status: int, id: ServiceId)
    requires Inv(w) && Allowed(w, e) && e.OnStarted? && Done(cb, status, id) in Step(w.db, e).1
    ensures Publishing(w) && |w.answers| == |w.all|
    ensures w.db.endCallback == Some(cb) && id == w.db.decl.value.serviceId && status == e.status
    ensures Step(w.db, e).0 == Finish(w.db, status, id).0
  {
    AnswerFits(w, e);
  }

  /** Who ends a publication, and what it does to the maps. */
  lemma EndedBy(w: World, e: Event, cb: Callback, status: int, id: ServiceId)
    requires Inv(w) && Allowed(w, e) && Done(cb, status, id) in Step(w.db, e).1
    ensures IsAnswer(e) && Publishing(w) && w.db.endCallback == Some(cb) && id == w.db.decl.value.serviceId
    ensures status == BT_STATUS_SUCCESS ==>
              && e.OnStarted? && |w.answers| == |w.all|
              && Step(w.db, e).0 == Finish(w.db, BT_STATUS_SUCCESS, id).0
    ensures status != BT_STATUS_SUCCESS ==>
              Step(w.db, e).0.idToHandle == w.db.idToHandle && Step(w.db, e).0.handleToId == w.db.handleToId
    ensures Step(w.db, e).0.decl.None?
  {
    assert IsAnswer(e);
    if e.OnStarted? { EndedByStart(w, e, cb, status, id); } else { EndedByAttribute(w, e, cb, status, id); }
  }

  lemma {:induction false} NotesKeepDb(w: World, out: seq<Out>)
    ensures Fold(Note, w, out).db == w.db
    decreases |out|
  {
    if out != [] { NotesKeepDb(Note(w, out[0]), out[1..]); }
  }

  lemma {:induction false} NotesKeepAll(w: World, out: seq<Out>)
    ensures Fold(Note, w, out).all == w.all
    decreases |out|
  {
    if out != [] { NotesKeepAll(Note(w, out[0]), out[1..]); }
  }

  /** The record of a run follows the server, and takes the declaration from it when a publication begins. */
  lemma NextDb(w: World, e: Event)
    ensures Next(w, e).db == Step(w.db, e).0
    ensures Next(w, e).all == if Accepts(w.db, e) then w.db.decl.value.attributes else w.all
  {
    var (db, out) := Step(w.db, e);
    var w1 := if Accepts(w.db, e)
              then w.(all := w.db.decl.value.attributes, answers := [], accepted := w.accepted + [e.callback.value])
              else Answer(w, e);
    NotesKeepDb(w1.(db := db), out);
    NotesKeepAll(w1.(db := db), out);
  }

  /** What a commit adds. */
  lemma CommitAdds(s: Db, es: seq<Entry>, svc: ServiceId, hs: seq<int>, i: nat)
    requires Published(s) && FreshService(s, svc) && Adds(s.pendingMap, es, svc, hs) && s.endCallback.Some? && i < |es|
    ensures es[i].id !in s.idToHandle && es[i].id in s.pendingMap && s.pendingMap[es[i].id] == hs[i]
    ensures Finish(s, BT_STATUS_SUCCESS, svc).0.idToHandle == s.pendingMap + s.idToHandle
  {
    ZipKeys(es, svc, hs);
    DeclaredKinds(es, svc, i);
    if es[i].id in s.idToHandle { NotPublished(s, svc, es[i].id); }
  }

  /** Publication is all or nothing. When an event ends one, either the service was started and the maps
      gain exactly the declared identifiers with the handles granted for them, or the maps are unchanged;
      in both cases nothing pending is left. */
  lemma AllOrNothing(w: World, e: Event, cb: Callback, status: int, id: ServiceId)
    requires Inv(w) && Allowed(w, e) && Done(cb, status, id) in Step(w.db, e).1
    ensures w.db.endCallback == Some(cb) && Idle(Next(w, e))
    ensures var w' := Next(w, e);
            if status == BT_STATUS_SUCCESS then
              && e.OnStarted? && |w.answers| == |w.all|
              && (forall i :: i in w'.db.idToHandle <==>
                                i in w.db.idToHandle || exists k :: 0 <= k < |w.all| && w.all[k].id == i)
              && (forall k :: 0 <= k < |w.all| ==> w.all[k].id !in w.db.idToHandle
                                                   && w'.db.idToHandle[w.all[k].id] == w.answers[k])
              && (forall i :: i in w.db.idToHandle ==> w'.db.idToHandle[i] == w.db.idToHandle[i])
              && MutualInverse(w'.db.idToHandle, w'.db.handleToId)
            else w'.db.idToHandle == w.db.idToHandle && w'.db.handleToId == w.db.handleToId
  {
    EndedBy(w, e, cb, status, id);
    NextKeeps(w, e);
    NotesKeepDb(Answer(w, e).(db := Step(w.db, e).0), Step(w.db, e).1);
    if status == BT_STATUS_SUCCESS {
      ZipKeys(w.all, id, w.answers);
      forall k | 0 <= k < |w.all|
        ensures w.all[k].id !in w.db.idToHandle && w.all[k].id in w.db.pendingMap
        ensures w.db.pendingMap[w.all[k].id] == w.answers[k]
      {
        CommitAdds(w.db, w.all, id, w.answers, k);
      }
    }
  }

  function Chars(es: seq<Entry>): nat {
    if es == [] then 0 else Chars(es[..|es|-1]) + (if es[|es|-1].id.Char? then 1 else 0)
  }

  function Descs(es: seq<Entry>): nat {
    if es == [] then 0 else Descs(es[..|es|-1]) + (if es[|es|-1].id.Desc? then 1 else 0)
  }

  lemma {:induction false} HandleNeedCounts(es: seq<Entry>, svc: ServiceId)
    requires Declared(es, svc)
    ensures HandleNeed(es) == 1 + 2 * Chars(es) + Descs(es)
  {
    if |es| > 1 {
      HandleNeedCounts(es[..|es|-1], svc);
    } else {
      assert es[..0] == [];
    }
  }

  /** Identifiers obtained by counting are fresh: those of the current declaration differ from each other
      and from everything published, each descriptor names the characteristic it follows, and the number of
      handles asked for is 1 + 2 * characteristics + descriptors. */
  lemma DeclaredIdsFresh(w: World, i: nat)
    requires Inv(w) && w.db.decl.Some? && w.db.endCallback.None? && i < |w.db.decl.value.attributes|
    ensures var d := w.db.decl.value;
            && d.attributes[i].id !in w.db.idToHandle
            && (forall j :: 0 <= j < i ==> d.attributes[j].id != d.attributes[i].id)
            && d.numHandles == 1 + 2 * Chars(d.attributes) + Descs(d.attributes)
    ensures var es := w.db.decl.value.attributes;
            es[i].id.Desc? ==>
              exists p :: 1 <= p < i && es[p].id == Char(es[i].id.svc, es[i].id.cu, es[i].id.ci)
                          && forall k :: p < k < i ==> es[k].id.Desc?
  {
    var d := w.db.decl.value;
    var es := d.attributes;
    HandleNeedCounts(es, d.serviceId);
    DeclaredKinds(es, d.serviceId, i);
    if es[i].id in w.db.idToHandle { NotPublished(w.db, d.serviceId, es[i].id); }
    forall j | 0 <= j < i ensures es[j].id != es[i].id { DeclaredDistinct(es, d.serviceId, j, i); }
    if es[i].id.Desc? {
      DescOwner(es, d.serviceId, i);
      var p := OwnerAt(es[..i]);
      assert es[..i][p] == es[p];
      assert forall k :: p < k < i ==> es[k] == es[..i][k];
    }
  }

  /** At the HAL publication is not all or nothing. A publication that fails is deleted there if and only if
      it is the start of the service that failed; a service whose attributes were refused stays behind. */
  lemma DeletedExactly(w: World, e: Event, cb: Callback, status: int, id: ServiceId)
    requires Inv(w) && Allowed(w, e) && Done(cb, status, id) in Step(w.db, e).1 && status != BT_STATUS_SUCCESS
    ensures (exists h :: DeleteService(h) in Step(w.db, e).1) <==> e.OnStarted?
    ensures e.OnStarted? ==> w.answers != [] && DeleteService(w.answers[0]) in Step(w.db, e).1
  {
    EndedBy(w, e, cb, status, id);
    AnswerFits(w, e);
    if e.OnStarted? {
      StartFits(w, e);
      FirstIsService(w.all, id);
      assert Step(w.db, e).1[0] == DeleteService(e.service);
    } else if e.status == BT_STATUS_SUCCESS {
      NextDeletesNothing(Store(w.db, e.handle), e.hal);
    }
  }

  lemma NextDeletesNothing(s: Db, hal: int)
    ensures forall h :: DeleteService(h) !in HandleNext(s, hal).1
  {
  }

  /** And the next declaration with its UUID gets the instance number of the service that failed, left
      behind or not. */
  lemma InstanceReused(w: World, e: Event, cb: Callback, status: int, id: ServiceId, primary: bool)
    requires Inv(w) && Allowed(w, e) && Done(cb, status, id) in Step(w.db, e).1 && status != BT_STATUS_SUCCESS
    ensures Begin(Next(w, e).db, id.uuid, primary).1 == Some(Service(ServiceId(id.uuid, id.inst, primary)))
  {
    EndedBy(w, e, cb, status, id);
    AllOrNothing(w, e, cb, status, id);
  }
}
