/**
 The advertising half of LowEnergyClient (service/low_energy_client.cpp): starting multi-advertising is
 a chain of up to three asynchronous HAL requests driven by deferred-work flags.
 HAL return values and callback statuses are inputs; a failed CHECK (or the dereference of a missing
 callback) is an output.
 */
module Advertising {
  import opened Common
  import opened Tlv
  import opened AdvertiseData

  const BT_STATUS_FAIL := 1
  const BLE_STATUS_SUCCESS := 0
  const BLE_STATUS_FAILURE := 0x101

  /** `convert` is the conversion of advertising data to the form the HAL takes. */
  datatype Client = Client(
    convert: seq<Byte> -> Option<Hal>, id: int, advData: seq<Byte>, scanRsp: seq<Byte>,
    advNeedsUpdate: bool, rspNeedsUpdate: bool, settingData: bool, started: bool,
    startCallback: Option<Callback>, stopCallback: Option<Callback>)

  datatype Out =
    | Enable(status: int) | SetData(scanRsp: bool, hal: Hal, status: int) | Disable(status: int)
    | StartDone(callback: Callback, status: int) | StopDone(callback: Callback, status: int)
    | CheckFailed

  function Fresh(convert: seq<Byte> -> Option<Hal>, id: int): Client {
    Client(convert, id, [], [], false, false, false, false, None, None)
  }

  /** The conversion the client uses: ProcessAdvertiseData on the fields of the data. */
  function HalDataOf(d: seq<Byte>): Option<Hal> {
    match Parse(d)
    case None => None
    case Some(fs) => TakeAll(fs)
  }

  function BleStatus(status: int): (r: int)
    ensures r == BLE_STATUS_SUCCESS <==> status == BT_STATUS_SUCCESS
  {
    if status == BT_STATUS_FAIL then BLE_STATUS_FAILURE else status
  }

  // ---------------------------------------------------------------------------------------------
  // Specification

  function Start(c: Client, data: seq<Byte>, rsp: seq<Byte>, callback: Callback, hal: int)
    : (r: (Client, bool, seq<Out>))
    ensures r.0.id == c.id && r.0.convert == c.convert
  {
    if c.started || c.startCallback.Some? || !Permitted(data) || !Permitted(rsp) then (c, false, [])
    else if c.advNeedsUpdate || c.rspNeedsUpdate then (c, false, [CheckFailed])
    else
      var c1 := c.(advData := data, scanRsp := rsp);
      if hal != BT_STATUS_SUCCESS then (c1, false, [Enable(hal)])
      else (c1.(advNeedsUpdate := true, rspNeedsUpdate := rsp != [], startCallback := Some(callback)), true,
            [Enable(hal)])
  }

  function Stop(c: Client, callback: Callback, hal: int): (r: (Client, bool, seq<Out>))
    ensures r.0.id == c.id && r.0.convert == c.convert
  {
    if !c.started || c.stopCallback.Some? then (c, false, [])
    else if c.startCallback.Some? then (c, false, [CheckFailed])
    else if hal != BT_STATUS_SUCCESS then (c, false, [Disable(hal)])
    else (c.(stopCallback := Some(callback)), true, [Disable(hal)])
  }

  function FinishStart(c: Client, status: int): (r: (Client, seq<Out>))
    ensures r.0.id == c.id && r.0.convert == c.convert
  {
    var c1 := c.(advNeedsUpdate := false, rspNeedsUpdate := false);
    match c.startCallback
    case None => (c1, [CheckFailed])
    case Some(cb) => (c1.(startCallback := None), [StartDone(cb, status)])
  }

  /** SetAdvertiseData: the new state, the status returned and the HAL request made. */
  function Set(c: Client, scanRsp: bool, hal: int): (r: (Client, int, seq<Out>))
    ensures r.0.id == c.id && r.0.convert == c.convert
  {
    match c.convert(if scanRsp then c.scanRsp else c.advData)
    case None => (c, BT_STATUS_FAIL, [])
    case Some(h) =>
      if c.settingData then (c, BT_STATUS_FAIL, [])
      else if hal != BT_STATUS_SUCCESS then (c, hal, [SetData(scanRsp, h, hal)])
      else
        (c.(settingData := true,
            rspNeedsUpdate := c.rspNeedsUpdate && !scanRsp, advNeedsUpdate := c.advNeedsUpdate && scanRsp),
         hal, [SetData(scanRsp, h, hal)])
  }

  function Deferred(c: Client, hal: int): (r: (Client, seq<Out>))
    ensures r.0.id == c.id && r.0.convert == c.convert
  {
    if c.started || c.startCallback.None? || c.settingData then (c, [CheckFailed])
    else if c.advNeedsUpdate || c.rspNeedsUpdate then
      var (c1, status, out) := Set(c, !c.advNeedsUpdate, hal);
      if status == BT_STATUS_SUCCESS then (c1, out)
      else
        var (c2, fin) := FinishStart(c1, BleStatus(status));
        (c2, out + fin)
    else FinishStart(c.(started := true), BLE_STATUS_SUCCESS)
  }

  function EnableAnswered(c: Client, status: int, hal: int): (r: (Client, seq<Out>))
    ensures r.0.id == c.id && r.0.convert == c.convert
  {
    if c.startCallback.None? || c.stopCallback.Some? then (c, [CheckFailed])
    else if status != BT_STATUS_SUCCESS then FinishStart(c, BleStatus(status))
    else Deferred(c, hal)
  }

  function DataAnswered(c: Client, status: int, hal: int): (r: (Client, seq<Out>))
    ensures r.0.id == c.id && r.0.convert == c.convert
  {
    var c1 := c.(settingData := false);
    if status != BT_STATUS_SUCCESS then FinishStart(c1, BleStatus(status)) else Deferred(c1, hal)
  }

  function DisableAnswered(c: Client, status: int): (r: (Client, seq<Out>))
    ensures r.0.id == c.id && r.0.convert == c.convert
  {
    if c.startCallback.Some? || c.stopCallback.None? then (c, [CheckFailed])
    else
      (c.(started := c.started && status != BT_STATUS_SUCCESS, stopCallback := None),
       [StopDone(c.stopCallback.value, BleStatus(status))])
  }

  // ---------------------------------------------------------------------------------------------
  // The client object

  class LowEnergyClient {
    const clientId: int
    var advData: seq<Byte>
    var scanResponse: seq<Byte>
    var advDataNeedsUpdate: bool
    var scanRspNeedsUpdate: bool
    var isSettingAdvData: bool
    var advStarted: bool
    var startCallback: Option<Callback>
    var stopCallback: Option<Callback>

    ghost function View(): Client
      reads this
    {
      Client(HalDataOf, clientId, advData, scanResponse, advDataNeedsUpdate, scanRspNeedsUpdate, isSettingAdvData,
             advStarted, startCallback, stopCallback)
    }

    ghost predicate Valid()
      reads this
    {
      Parse(advData).Some? && Parse(scanResponse).Some?
    }

    constructor (id: int)
      ensures Valid() && View() == Fresh(HalDataOf, id)
    {
      clientId := id;
      advData, scanResponse := [], [];
      advDataNeedsUpdate, scanRspNeedsUpdate, isSettingAdvData, advStarted := false, false, false, false;
      startCallback, stopCallback := None, None;
    }

    method StartAdvertising(data: seq<Byte>, rsp: seq<Byte>, callback: Callback, hal: int)
      returns (ok: bool, out: seq<Out>)
      requires Valid()
      modifies this
      ensures Valid() && (View(), ok, out) == Start(old(View()), data, rsp, callback, hal)
    {
      ok, out := false, [];
      if advStarted { return; }
      if !advStarted && startCallback.Some? { return; }
      var dataOk := IsValid(data);
      if !dataOk { return; }
      var rspOk := IsValid(rsp);
      if !rspOk { return; }
      if advDataNeedsUpdate || scanRspNeedsUpdate { return false, [CheckFailed]; }
      advData, scanResponse := data, rsp;
      out := [Enable(hal)];
      if hal != BT_STATUS_SUCCESS { return; }
      advDataNeedsUpdate := true;
      if scanResponse != [] { scanRspNeedsUpdate := true; }
      startCallback := Some(callback);
      ok := true;
    }

    method StopAdvertising(callback: Callback, hal: int) returns (ok: bool, out: seq<Out>)
      requires Valid()
      modifies this
      ensures Valid() && (View(), ok, out) == Stop(old(View()), callback, hal)
    {
      ok, out := false, [];
      if !advStarted { return; }
      if advStarted && stopCallback.Some? { return; }
      if startCallback.Some? { return false, [CheckFailed]; }
      out := [Disable(hal)];
      if hal != BT_STATUS_SUCCESS { return; }
      stopCallback := Some(callback);
      ok := true;
    }

    method InvokeAndClearStart(status: int) returns (out: seq<Out>)
      requires Valid()
      modifies this
      ensures Valid() && (View(), out) == FinishStart(old(View()), status)
    {
      advDataNeedsUpdate, scanRspNeedsUpdate := false, false;
      if startCallback.None? { return [CheckFailed]; }
      out := [StartDone(startCallback.value, status)];
      startCallback := None;
    }

    method Convert(scanRsp: bool) returns (r: Option<Hal>)
      requires Valid()
      ensures r == HalDataOf(if scanRsp then scanResponse else advData)
    {
      r := ProcessAdvertiseData(if scanRsp then scanResponse else advData);
    }

    method SetAdvertiseData(setScanRsp: bool, hal: int) returns (status: int, out: seq<Out>)
      requires Valid()
      modifies this
      ensures Valid() && (View(), status, out) == Set(old(View()), setScanRsp, hal)
    {
      out := [];
      var halData := Convert(setScanRsp);
      if halData.None? { return BT_STATUS_FAIL, []; }
      if isSettingAdvData { return BT_STATUS_FAIL, []; }
      status := hal;
      out := [SetData(setScanRsp, halData.value, status)];
      if status != BT_STATUS_SUCCESS { return; }
      if setScanRsp {
        scanRspNeedsUpdate := false;
      } else {
        advDataNeedsUpdate := false;
      }
      isSettingAdvData := true;
    }

    method HandleDeferred(hal: int) returns (out: seq<Out>)
      requires Valid()
      modifies this
      ensures Valid() && (View(), out) == Deferred(old(View()), hal)
    {
      if advStarted || startCallback.None? || isSettingAdvData { return [CheckFailed]; }
      var status;
      if advDataNeedsUpdate {
        status, out := SetAdvertiseData(false, hal);
        if status != BT_STATUS_SUCCESS {
          var fin := InvokeAndClearStart(BleStatus(status));
          out := out + fin;
        }
        return;
      }
      if scanRspNeedsUpdate {
        status, out := SetAdvertiseData(true, hal);
        if status != BT_STATUS_SUCCESS {
          var fin := InvokeAndClearStart(BleStatus(status));
          out := out + fin;
        }
        return;
      }
      advStarted := true;
      out := InvokeAndClearStart(BLE_STATUS_SUCCESS);
    }

    method MultiAdvEnableCallback(id: int, status: int, hal: int) returns (out: seq<Out>)
      requires Valid()
      modifies this
      ensures Valid()
      ensures (View(), out) == if id != clientId then (old(View()), []) else EnableAnswered(old(View()), status, hal)
    {
      if id != clientId { return []; }
      if startCallback.None? || stopCallback.Some? { return [CheckFailed]; }
      if status != BT_STATUS_SUCCESS {
        out := InvokeAndClearStart(BleStatus(status));
      } else {
        out := HandleDeferred(hal);
      }
    }

    method MultiAdvDataCallback(id: int, status: int, hal: int) returns (out: seq<Out>)
      requires Valid()
      modifies this
      ensures Valid()
      ensures (View(), out) == if id != clientId then (old(View()), []) else DataAnswered(old(View()), status, hal)
    {
      if id != clientId { return []; }
      isSettingAdvData := false;
      if status != BT_STATUS_SUCCESS {
        out := InvokeAndClearStart(BleStatus(status));
      } else {
        out := HandleDeferred(hal);
      }
    }

    method MultiAdvDisableCallback(id: int, status: int) returns (out: seq<Out>)
      requires Valid()
      modifies this
      ensures Valid()
      ensures (View(), out) == if id != clientId then (old(View()), []) else DisableAnswered(old(View()), status)
    {
      if id != clientId { return []; }
      if startCallback.Some? || stopCallback.None? { return [CheckFailed]; }
      if status == BT_STATUS_SUCCESS { advStarted := false; }
      out := [StopDone(stopCallback.value, BleStatus(status))];
      stopCallback := None;
    }
  }

  // ---------------------------------------------------------------------------------------------
  // Runs against a HAL

  datatype Event =
    | CallStart(data: seq<Byte>, rsp: seq<Byte>, callback: Callback, hal: int)
    | CallStop(callback: Callback, hal: int)
    | OnEnable(id: int, status: int, hal: int)
    | OnData(id: int, status: int, hal: int)
    | OnDisable(id: int, status: int)

  /** The step of the client: new state, whether a call was accepted, outputs. */
  function Step(c: Client, e: Event): (r: (Client, bool, seq<Out>))
    ensures r.0.id == c.id && r.0.convert == c.convert
  {
    match e
    case CallStart(data, rsp, cb, hal) => Start(c, data, rsp, cb, hal)
    case CallStop(cb, hal) => Stop(c, cb, hal)
    case OnEnable(id, status, hal) =>
      if id != c.id then (c, false, []) else var (c', out) := EnableAnswered(c, status, hal); (c', false, out)
    case OnData(id, status, hal) =>
      if id != c.id then (c, false, []) else var (c', out) := DataAnswered(c, status, hal); (c', false, out)
    case OnDisable(id, status) =>
      if id != c.id then (c, false, []) else var (c', out) := DisableAnswered(c, status); (c', false, out)
  }

  datatype Request = EnableRequest | DataRequest | DisableRequest

  /** What has happened since the latest start request reached the HAL. */
  datatype Mark =
    | AskedEnable | AskedData(scanRsp: bool, hal: Hal) | Answered(request: Request, status: int)

  /** The client together with a record of its run: HAL requests not yet answered, what the latest accepted
      start was called with, the story of that start, and the callbacks accepted and completed. */
  datatype World = World(
    c: Client, open: multiset<Request>, data: seq<Byte>, rsp: seq<Byte>, story: seq<Mark>,
    starts: seq<Callback>, startsDone: seq<Callback>, stops: seq<Callback>, stopsDone: seq<Callback>, failed: bool)

  function Note(w: World, o: Out): World {
    match o
    case Enable(status) =>
      if status != BT_STATUS_SUCCESS then w
      else w.(open := w.open + multiset{EnableRequest}, story := [AskedEnable])
    case SetData(rsp, h, status) =>
      if status != BT_STATUS_SUCCESS then w
      else w.(open := w.open + multiset{DataRequest}, story := w.story + [AskedData(rsp, h)])
    case Disable(status) =>
      if status != BT_STATUS_SUCCESS then w else w.(open := w.open + multiset{DisableRequest})
    case StartDone(cb, _) => w.(startsDone := w.startsDone + [cb])
    case StopDone(cb, _) => w.(stopsDone := w.stopsDone + [cb])
    case CheckFailed => w.(failed := true)
  }

  function RequestOf(e: Event): Option<Request> {
    match e
    case OnEnable(_, _, _) => Some(EnableRequest)
    case OnData(_, _, _) => Some(DataRequest)
    case OnDisable(_, _) => Some(DisableRequest)
    case _ => None
  }

  predicate Mine(c: Client, e: Event) { RequestOf(e).Some? && e.id == c.id }

  /** The HAL answers a request of this client only while that request is open. */
  predicate Allowed(w: World, e: Event) { Mine(w.c, e) ==> RequestOf(e).value in w.open }

  function Answer(w: World, e: Event): World {
    if Mine(w.c, e) then
      w.(open := w.open - multiset{RequestOf(e).value}, story := w.story + [Answered(RequestOf(e).value, e.status)])
    else w
  }

  function Next(w: World, e: Event): World
  {
    var (c, accepted, out) := Step(w.c, e);
    var w1 := Fold(Note, Answer(w, e), out);
    var w2 := w1.(c := c);
    if !accepted then w2
    else if e.CallStart? then w2.(starts := w2.starts + [e.callback], data := e.data, rsp := e.rsp)
    else w2.(stops := w2.stops + [e.callback])
  }

  // ---------------------------------------------------------------------------------------------
  // What every run keeps

  /** How many data requests an undisturbed start makes. */
  function Rounds(rsp: seq<Byte>): nat { if rsp == [] then 1 else 2 }

  /** How many of them the pending start has made so far. */
  function Asked(w: World): nat {
    if w.c.advNeedsUpdate then 0 else if w.c.rspNeedsUpdate then 1 else Rounds(w.rsp)
  }

  /** The data behind the first n data requests can be handed to the HAL. */
  predicate Presentable(w: World, n: nat) {
    && (n >= 1 ==> w.c.convert(w.data).Some?)
    && (n >= 2 ==> w.c.convert(w.rsp).Some?)
  }

  /** The story of a start from its enable request up to its n-th data request, all answered well:
      first the advertising data it was called with, then its scan response. */
  function Story(w: World, n: nat): seq<Mark>
    requires Presentable(w, n)
  {
    [AskedEnable]
    + (if n >= 1
       then [Answered(EnableRequest, BT_STATUS_SUCCESS), AskedData(false, w.c.convert(w.data).value)] else [])
    + (if n >= 2
       then [Answered(DataRequest, BT_STATUS_SUCCESS), AskedData(true, w.c.convert(w.rsp).value)] else [])
  }

  /** The client holds what the start was called with. */
  predicate Holds(w: World) { w.c.advData == w.data && w.c.scanRsp == w.rsp }

  /** A start is pending: exactly one HAL request is open, and the flags say how far it has got. */
  predicate Starting(w: World) {
    && !w.c.started && w.c.stopCallback.None? && Holds(w)
    && w.c.settingData == !w.c.advNeedsUpdate
    && (w.c.rspNeedsUpdate ==> w.rsp != [])
    && (w.c.advNeedsUpdate && w.rsp != [] ==> w.c.rspNeedsUpdate)
    && w.open == multiset{if w.c.advNeedsUpdate then EnableRequest else DataRequest}
    && Presentable(w, Asked(w)) && w.story == Story(w, Asked(w))
  }

  predicate Inv(w: World) {
    && !w.failed
    && w.startsDone + AsSeq(w.c.startCallback) == w.starts
    && w.stopsDone + AsSeq(w.c.stopCallback) == w.stops
    && (if w.c.startCallback.Some? then Starting(w)
        else
          && !w.c.advNeedsUpdate && !w.c.rspNeedsUpdate && !w.c.settingData
          && (if w.c.stopCallback.Some? then w.c.started && w.open == multiset{DisableRequest}
              else w.open == multiset{}))
  }

  lemma StartKeeps(w: World, e: Event)
    requires Inv(w) && e.CallStart?
    ensures Inv(Next(w, e))
  {
    var (c, ok, out) := Step(w.c, e);
    assert w.startsDone + [] == w.startsDone;
    if out != [] {
      assert out == [Enable(e.hal)];
      FoldOne(Note, w, Enable(e.hal));
    }
    if ok {
      assert Story(Next(w, e), 0) == [AskedEnable];
    }
  }

  lemma StopKeeps(w: World, e: Event)
    requires Inv(w) && e.CallStop?
    ensures Inv(Next(w, e))
  {
    assert w.stopsDone + [] == w.stopsDone;
    var out := Step(w.c, e).2;
    if out != [] {
      assert out == [Disable(e.hal)];
      FoldOne(Note, w, Disable(e.hal));
    }
  }

  /** A start is pending and the request just answered is no longer open. */
  predicate Idle(w: World) {
    && !w.failed && w.c.startCallback.Some? && w.c.stopCallback.None?
    && !w.c.settingData && w.open == multiset{}
    && w.startsDone + AsSeq(w.c.startCallback) == w.starts && w.stopsDone + [] == w.stops
  }

  /** The answer was good. */
  predicate Between(w: World) {
    && Idle(w) && !w.c.started && Holds(w)
    && Presentable(w, Asked(w))
    && (w.c.advNeedsUpdate && w.rsp != [] ==> w.c.rspNeedsUpdate)
    && (w.c.rspNeedsUpdate ==> w.rsp != [])
    && w.story == Story(w, Asked(w)) + [Answered(if Asked(w) == 0 then EnableRequest else DataRequest, 0)]
  }

  lemma FinishKeeps(w: World, started: bool, status: int)
    requires Idle(w)
    ensures var (c, out) := FinishStart(w.c.(started := started), status);
            out == [StartDone(w.c.startCallback.value, status)] && Inv(Note(w, out[0]).(c := c))
  {
    assert w.starts + [] == w.starts;
  }

  lemma AskKeeps(w: World, h: Hal)
    requires Between(w) && (w.c.advNeedsUpdate || w.c.rspNeedsUpdate)
    requires Set(w.c, !w.c.advNeedsUpdate, 0).2 == [SetData(!w.c.advNeedsUpdate, h, 0)]
    ensures var c := Set(w.c, !w.c.advNeedsUpdate, 0).0;
            Inv(Note(w, SetData(!w.c.advNeedsUpdate, h, 0)).(c := c))
  {
    var n, v := Asked(w), w.(c := Set(w.c, !w.c.advNeedsUpdate, 0).0);
    assert Asked(v) == n + 1 && Presentable(v, n + 1);
    assert Story(v, n + 1) == w.story + [AskedData(!w.c.advNeedsUpdate, h)];
  }

  /** HandleDeferredAdvertiseData after a good answer. */
  lemma DeferredKeeps(w: World, hal: int)
    requires Between(w)
    ensures var (c, out) := Deferred(w.c, hal); Inv(Fold(Note, w, out).(c := c))
  {
    var (c, out) := Deferred(w.c, hal);
    if w.c.advNeedsUpdate || w.c.rspNeedsUpdate {
      var (c1, status, asked) := Set(w.c, !w.c.advNeedsUpdate, hal);
      if status == BT_STATUS_SUCCESS {
        FoldOne(Note, w, out[0]);
        AskKeeps(w, out[0].hal);
      } else {
        FinishKeeps(w, false, BleStatus(status));
        if asked == [] { FoldOne(Note, w, out[0]); } else { FoldTwo(Note, w, out[0], out[1]); }
      }
    } else {
      FinishKeeps(w, true, BLE_STATUS_SUCCESS);
      FoldOne(Note, w, out[0]);
    }
  }

  /** The world once the answer is taken but before it is acted upon. */
  function Taken(w: World, e: Event): World { Answer(w, e).(c := w.c.(settingData := false)) }

  lemma TakenIdle(w: World, e: Event)
    requires Inv(w) && Allowed(w, e) && Mine(w.c, e) && !e.OnDisable?
    ensures Starting(w) && Idle(Taken(w, e)) && (e.OnEnable? <==> w.c.advNeedsUpdate)
    ensures e.status == BT_STATUS_SUCCESS ==> Between(Taken(w, e))
  {
    var t := Taken(w, e);
    assert t.open == multiset{};
    assert Asked(t) == Asked(w);
    assert Presentable(t, Asked(t)) && Story(t, Asked(t)) == Story(w, Asked(w));
  }

  lemma AnswerKeeps(w: World, e: Event)
    requires Inv(w) && Allowed(w, e) && Mine(w.c, e) && !e.OnDisable?
    ensures Inv(Next(w, e))
  {
    var t := Taken(w, e);
    TakenIdle(w, e);
    var (c, _, out) := Step(w.c, e);
    NoteAllClient(Answer(w, e), out, t.c);
    if e.status != BT_STATUS_SUCCESS {
      FinishKeeps(t, false, BleStatus(e.status));
      FoldOne(Note, t, out[0]);
    } else {
      DeferredKeeps(t, e.hal);
    }
  }

  lemma NoteClient(w: World, o: Out, c: Client)
    ensures Note(w.(c := c), o) == Note(w, o).(c := c)
  {
  }

  lemma {:induction false} NoteAllClient(w: World, out: seq<Out>, c: Client)
    ensures Fold(Note, w.(c := c), out) == Fold(Note, w, out).(c := c)
    decreases |out|
  {
    if out != [] {
      NoteAllClient(Note(w, out[0]), out[1..], c);
      NoteClient(w, out[0], c);
    }
  }

  lemma DisableKeeps(w: World, e: Event)
    requires Inv(w) && Allowed(w, e) && Mine(w.c, e) && e.OnDisable?
    ensures Inv(Next(w, e))
  {
    var out := Step(w.c, e).2;
    assert w.c.stopCallback.Some?;
    assert out == [out[0]];
    FoldOne(Note, Answer(w, e), out[0]);
  }

  lemma NextKeeps(w: World, e: Event)
    requires Inv(w) && Allowed(w, e)
    ensures Inv(Next(w, e))
  {
    if e.CallStart? { StartKeeps(w, e); }
    else if e.CallStop? { StopKeeps(w, e); }
    else if Mine(w.c, e) && e.OnDisable? { DisableKeeps(w, e); }
    else if Mine(w.c, e) { AnswerKeeps(w, e); }
  }

  // ---------------------------------------------------------------------------------------------
  // Whole runs

  ghost predicate Behaves(w: World, es: seq<Event>)
    decreases |es|
  {
    es == [] || (Allowed(w, es[0]) && Behaves(Next(w, es[0]), es[1..]))
  }

  function Run(w: World, es: seq<Event>): World
    requires Behaves(w, es)
    decreases |es|
  {
    if es == [] then w else Run(Next(w, es[0]), es[1..])
  }

  function Initial(id: int): World { World(Fresh(HalDataOf, id), multiset{}, [], [], [], [], [], [], [], false) }

  lemma {:induction false} RunInv(w: World, es: seq<Event>)
    requires Inv(w) && Behaves(w, es)
    ensures Inv(Run(w, es))
    decreases |es|
  {
    if es != [] {
      NextKeeps(w, es[0]);
      RunInv(Next(w, es[0]), es[1..]);
    }
  }

  /** In every run in which the HAL answers each request once: no CHECK fires; every accepted start and
      every accepted stop is completed once and in order, except for at most one still pending; a started
      client has no pending start, a pending stop means started, and work flags mean a pending start. */
  lemma RunSafe(id: int, es: seq<Event>)
    requires Behaves(Initial(id), es)
    ensures var w := Run(Initial(id), es);
            && !w.failed
            && w.startsDone + AsSeq(w.c.startCallback) == w.starts
            && w.stopsDone + AsSeq(w.c.stopCallback) == w.stops
            && (w.c.started ==> w.c.startCallback.None?)
            && (w.c.stopCallback.Some? ==> w.c.started)
            && (w.c.advNeedsUpdate || w.c.rspNeedsUpdate || w.c.settingData ==> w.c.startCallback.Some?)
  {
    RunInv(Initial(id), es);
  }

  /** HAL answers a pending start still needs at most. */
  function Remaining(c: Client): nat {
    if c.startCallback.None? then 0
    else 1 + (if c.advNeedsUpdate then 1 else 0) + (if c.rspNeedsUpdate then 1 else 0)
  }

  lemma AnswerProgress(w: World, e: Event)
    requires Inv(w) && Allowed(w, e) && w.c.startCallback.Some?
    ensures var w' := Next(w, e);
            if Mine(w.c, e) then w'.c.startCallback.None? || Remaining(w'.c) < Remaining(w.c)
            else Remaining(w'.c) == Remaining(w.c) && w'.c.startCallback == w.c.startCallback
  {
    if Mine(w.c, e) && !e.OnDisable? {
      TakenIdle(w, e);
    }
  }

  function OwnAnswers(w: World, es: seq<Event>): nat {
    if es == [] then 0 else (if Mine(w.c, es[0]) then 1 else 0) + OwnAnswers(w, es[1..])
  }

  lemma {:induction false} OwnAnswersSame(w: World, v: World, es: seq<Event>)
    requires w.c.id == v.c.id
    ensures OwnAnswers(w, es) == OwnAnswers(v, es)
  {
    if es != [] { OwnAnswersSame(w, v, es[1..]); }
  }

  lemma DoneGrows(w: World, e: Event)
    requires Inv(w) && Allowed(w, e)
    ensures w.startsDone <= Next(w, e).startsDone
    ensures w.starts <= Next(w, e).starts
    ensures w.c.startCallback.None? ==> w.starts <= Next(w, e).startsDone
  {
    assert w.startsDone + [] == w.startsDone;
    NextKeeps(w, e);
    DonePrefix(Answer(w, e), Step(w.c, e).2);
  }

  lemma {:induction false} DonePrefix(w: World, out: seq<Out>)
    ensures w.startsDone <= Fold(Note, w, out).startsDone && Fold(Note, w, out).starts == w.starts
    decreases |out|
  {
    if out != [] { DonePrefix(Note(w, out[0]), out[1..]); }
  }

  /** Every accepted start completes within three HAL answers, whatever calls and foreign callbacks come
      in between. */
  lemma {:induction false} CompletesWithinThree(w: World, es: seq<Event>)
    requires Inv(w) && Behaves(w, es) && OwnAnswers(w, es) >= Remaining(w.c)
    ensures Remaining(w.c) <= 3
    ensures w.starts <= Run(w, es).startsDone
    decreases |es|
  {
    if w.c.startCallback.None? {
      assert w.starts == w.startsDone + [] == w.startsDone;
      RunGrows(w, es);
    } else {
      var w' := Next(w, es[0]);
      NextKeeps(w, es[0]);
      AnswerProgress(w, es[0]);
      OwnAnswersSame(w, w', es[1..]);
      CompletesWithinThree(w', es[1..]);
      DoneGrows(w, es[0]);
    }
  }

  lemma {:induction false} RunGrows(w: World, es: seq<Event>)
    requires Inv(w) && Behaves(w, es)
    ensures w.startsDone <= Run(w, es).startsDone
    decreases |es|
  {
    if es != [] {
      DoneGrows(w, es[0]);
      NextKeeps(w, es[0]);
      RunGrows(Next(w, es[0]), es[1..]);
    }
  }

  lemma StoryLength(w: World, n: nat)
    requires n <= 2 && Presentable(w, n)
    ensures |Story(w, n)| == 1 + 2 * n
  {
  }

  /** A completion reported after a good answer: either the work is done, or the next request failed. */
  lemma GoodCompletion(w: World, hal: int, cb: Callback, status: int)
    requires Between(w) && StartDone(cb, status) in Deferred(w.c, hal).1
    ensures w.c.startCallback == Some(cb)
    ensures status == BLE_STATUS_SUCCESS <==> Asked(w) == Rounds(w.rsp)
    ensures Deferred(w.c, hal).0.started <==> status == BLE_STATUS_SUCCESS
    ensures Fold(Note, w, Deferred(w.c, hal).1).story == w.story
  {
    var out := Deferred(w.c, hal).1;
    if w.c.advNeedsUpdate || w.c.rspNeedsUpdate {
      var (c1, st, asked) := Set(w.c, !w.c.advNeedsUpdate, hal);
      assert st != BT_STATUS_SUCCESS;
      if asked == [] { FoldOne(Note, w, out[0]); } else { FoldTwo(Note, w, out[0], out[1]); }
    } else {
      FoldOne(Note, w, out[0]);
    }
  }

  /** A bad answer: completed with that status, and the story ends in it. */
  lemma BadAnswer(w: World, e: Event)
    requires Inv(w) && Allowed(w, e) && Mine(w.c, e) && !e.OnDisable? && e.status != BT_STATUS_SUCCESS
    ensures var out := Step(w.c, e).2;
            && w.c.startCallback.Some? && out == [StartDone(w.c.startCallback.value, BleStatus(e.status))]
            && Next(w, e).story == w.story + [Answered(RequestOf(e).value, e.status)] && !Next(w, e).c.started
  {
    TakenIdle(w, e);
    FoldOne(Note, Answer(w, e), Step(w.c, e).2[0]);
  }

  lemma GoodAnswer(w: World, e: Event, cb: Callback, status: int)
    requires Inv(w) && Allowed(w, e) && Mine(w.c, e) && !e.OnDisable? && e.status == BT_STATUS_SUCCESS
    requires StartDone(cb, status) in Step(w.c, e).2
    ensures w.c.startCallback == Some(cb) && Starting(w)
    ensures status == BLE_STATUS_SUCCESS <==> Asked(w) == Rounds(w.rsp)
    ensures Next(w, e).c.started <==> status == BLE_STATUS_SUCCESS
    ensures Next(w, e).story == Story(w, Asked(w)) + [Answered(RequestOf(e).value, BT_STATUS_SUCCESS)]
  {
    var t := Taken(w, e);
    TakenIdle(w, e);
    NoteAllClient(Answer(w, e), Step(w.c, e).2, t.c);
    GoodCompletion(t, e.hal, cb, status);
  }

  lemma StoriesDiffer(w: World, n: nat, m: nat, a: Mark, b: Mark)
    requires n <= 2 && m <= 2 && Presentable(w, n) && Presentable(w, m)
    ensures Story(w, n) + [a] == Story(w, m) + [b] <==> n == m && a == b
  {
    StoryLength(w, n);
    StoryLength(w, m);
    assert (Story(w, n) + [a])[|Story(w, n)|] == a && (Story(w, m) + [b])[|Story(w, m)|] == b;
  }

  /** Success means success: it is reported to the pending start exactly when the HAL has enabled
      advertising, taken the advertising data of that start and then, if it had one, its scan response; and
      the client is started from then on. Any other completion leaves it not started. */
  lemma SuccessStory(w: World, e: Event, cb: Callback, status: int)
    requires Inv(w) && Allowed(w, e) && StartDone(cb, status) in Step(w.c, e).2
    ensures w.c.startCallback == Some(cb) && Next(w, e).data == w.data && Next(w, e).rsp == w.rsp
    ensures Next(w, e).c.started <==> status == BLE_STATUS_SUCCESS
    ensures status == BLE_STATUS_SUCCESS <==>
              && Presentable(w, Rounds(w.rsp))
              && Next(w, e).story == Story(w, Rounds(w.rsp)) + [Answered(DataRequest, BT_STATUS_SUCCESS)]
  {
    TakenIdle(w, e);
    if Presentable(w, Rounds(w.rsp)) {
      StoriesDiffer(w, Asked(w), Rounds(w.rsp), Answered(RequestOf(e).value, e.status),
                    Answered(DataRequest, BT_STATUS_SUCCESS));
    }
    NotesKeepCall(Answer(w, e), Step(w.c, e).2);
    if e.status != BT_STATUS_SUCCESS { BadAnswer(w, e); } else { GoodAnswer(w, e, cb, status); }
  }

  lemma {:induction false} NotesKeepCall(w: World, out: seq<Out>)
    ensures Fold(Note, w, out).data == w.data && Fold(Note, w, out).rsp == w.rsp
    decreases |out|
  {
    if out != [] { NotesKeepCall(Note(w, out[0]), out[1..]); }
  }

  lemma {:induction false} RunConverts(w: World, es: seq<Event>)
    requires Behaves(w, es)
    ensures Run(w, es).c.convert == w.c.convert
    decreases |es|
  {
    if es != [] { RunConverts(Next(w, es[0]), es[1..]); }
  }

  /** The whole story of a successful start, mark by mark. */
  function FullStory(data: Hal, rsp: Option<Hal>): seq<Mark> {
    [AskedEnable, Answered(EnableRequest, BT_STATUS_SUCCESS), AskedData(false, data)]
    + (if rsp.None? then [] else [Answered(DataRequest, BT_STATUS_SUCCESS), AskedData(true, rsp.value)])
    + [Answered(DataRequest, BT_STATUS_SUCCESS)]
  }

  lemma StoryInFull(w: World)
    requires Presentable(w, Rounds(w.rsp))
    ensures Story(w, Rounds(w.rsp)) + [Answered(DataRequest, BT_STATUS_SUCCESS)] ==
            FullStory(w.c.convert(w.data).value, if w.rsp == [] then None else w.c.convert(w.rsp))
  {
  }

  lemma LatestStart(w: World)
    requires Inv(w) && w.c.startCallback.Some?
    ensures w.starts != [] && w.starts[|w.starts|-1] == w.c.startCallback.value
  {
  }

  /** From a new client, in full: when a start is reported successful, the HAL has been asked to enable, then
      to advertise what the accepted call passed as data, then, if it passed one, to use its scan response,
      each after a good answer to the one before, and for nothing else. */
  lemma AdvertisesWhatWasAsked(id: int, es: seq<Event>, e: Event, cb: Callback)
    requires Behaves(Initial(id), es)
    requires var w := Run(Initial(id), es); Allowed(w, e) && StartDone(cb, BLE_STATUS_SUCCESS) in Step(w.c, e).2
    ensures var w := Run(Initial(id), es);
            var (data, rsp) := (HalDataOf(w.data), if w.rsp == [] then None else HalDataOf(w.rsp));
            && w.starts != [] && w.starts[|w.starts|-1] == cb
            && data.Some? && (w.rsp != [] ==> rsp.Some?)
            && Next(w, e).story == FullStory(data.value, rsp)
  {
    var w := Run(Initial(id), es);
    RunInv(Initial(id), es);
    RunConverts(Initial(id), es);
    SuccessStory(w, e, cb, BLE_STATUS_SUCCESS);
    StoryInFull(w);
    LatestStart(w);
  }

  /** What a start that fails is told: the status of the bad answer, or why the next request was not taken. */
  lemma FailureStatus(w: World, e: Event, cb: Callback, status: int)
    requires Inv(w) && Allowed(w, e) && StartDone(cb, status) in Step(w.c, e).2 && status != BLE_STATUS_SUCCESS
    ensures var next := w.c.convert(if w.c.advNeedsUpdate then w.data else w.rsp);
            var why := if e.status != BT_STATUS_SUCCESS then e.status
                       else if next.None? then BT_STATUS_FAIL else e.hal;
            why != BT_STATUS_SUCCESS && status == if why == BT_STATUS_FAIL then BLE_STATUS_FAILURE else why
  {
    TakenIdle(w, e);
    if e.status != BT_STATUS_SUCCESS { BadAnswer(w, e); } else { GoodAnswer(w, e, cb, status); }
  }

  /** Which calls are accepted, in any state a run can reach, and what they ask of the HAL. */
  lemma AcceptedExactly(w: World, e: Event)
    requires Inv(w) && (e.CallStart? || e.CallStop?)
    ensures var (c, ok, out) := Step(w.c, e);
            var free := if e.CallStop? then w.c.started && w.c.stopCallback.None?
                        else !w.c.started && w.c.startCallback.None? && Permitted(e.data) && Permitted(e.rsp);
            && (ok <==> free && e.hal == BT_STATUS_SUCCESS)
            && out == (if !free then [] else if e.CallStart? then [Enable(e.hal)] else [Disable(e.hal)])
            && (ok ==> (if e.CallStart? then c.startCallback else c.stopCallback) == Some(e.callback))
  {
  }

  /** A stop completes when the HAL answers it, with the status of the answer, and ends advertising exactly
      when that was good. */
  lemma StopStory(w: World, e: Event, cb: Callback, status: int)
    requires Inv(w) && Allowed(w, e) && StopDone(cb, status) in Step(w.c, e).2
    ensures e.OnDisable? && w.c.stopCallback == Some(cb) && Next(w, e).c.stopCallback.None?
    ensures Next(w, e).c.started <==> e.status != BT_STATUS_SUCCESS
    ensures status == if e.status == BT_STATUS_FAIL then BLE_STATUS_FAILURE else e.status
  {
    if !e.OnDisable? && Mine(w.c, e) {
      TakenIdle(w, e);
      if e.status != BT_STATUS_SUCCESS { BadAnswer(w, e); }
    }
  }

  // ---------------------------------------------------------------------------------------------
  // The object follows the run

  /** What each event of a run returns and puts out. */
  function Trace(c: Client, es: seq<Event>): seq<(bool, seq<Out>)>
    decreases |es|
  {
    if es == [] then []
    else var (c', ok, out) := Step(c, es[0]); [(ok, out)] + Trace(c', es[1..])
  }

  lemma {:induction false} FailureShows(w: World, out: seq<Out>)
    ensures Fold(Note, w, out).failed <==> w.failed || CheckFailed in out
    decreases |out|
  {
    if out != [] { FailureShows(Note(w, out[0]), out[1..]); }
  }

  /** No CHECK fires at any event of a run. */
  lemma {:induction false} TraceSafe(w: World, es: seq<Event>)
    requires Inv(w) && Behaves(w, es)
    ensures forall i :: 0 <= i < |Trace(w.c, es)| ==> CheckFailed !in Trace(w.c, es)[i].1
    decreases |es|
  {
    if es != [] {
      NextKeeps(w, es[0]);
      FailureShows(Answer(w, es[0]), Step(w.c, es[0]).2);
      TraceSafe(Next(w, es[0]), es[1..]);
    }
  }

  method Perform(o: LowEnergyClient, e: Event) returns (ok: bool, out: seq<Out>)
    requires o.Valid()
    modifies o
    ensures o.Valid() && (o.View(), ok, out) == Step(old(o.View()), e)
  {
    ok := false;
    match e {
      case CallStart(data, rsp, cb, hal) => ok, out := o.StartAdvertising(data, rsp, cb, hal);
      case CallStop(cb, hal) => ok, out := o.StopAdvertising(cb, hal);
      case OnEnable(id, status, hal) => out := o.MultiAdvEnableCallback(id, status, hal);
      case OnData(id, status, hal) => out := o.MultiAdvDataCallback(id, status, hal);
      case OnDisable(id, status) => out := o.MultiAdvDisableCallback(id, status);
    }
  }

  /** Feeds events to the object: its state, its return values and all its outputs are those of the run. */
  method Drive(o: LowEnergyClient, es: seq<Event>) returns (trace: seq<(bool, seq<Out>)>)
    requires o.Valid()
    modifies o
    ensures o.Valid() && o.View() == After(old(o.View()), es)
    ensures trace == Trace(old(o.View()), es)
    decreases |es|
  {
    if es == [] { return []; }
    var ok, out := Perform(o, es[0]);
    var rest := Drive(o, es[1..]);
    trace := [(ok, out)] + rest;
  }

  function After(c: Client, es: seq<Event>): Client
    decreases |es|
  {
    if es == [] then c else After(Step(c, es[0]).0, es[1..])
  }

  lemma {:induction false} RunIsAfter(w: World, es: seq<Event>)
    requires Behaves(w, es)
    ensures Run(w, es).c == After(w.c, es)
    decreases |es|
  {
    if es != [] { RunIsAfter(Next(w, es[0]), es[1..]); }
  }

  /** The object against a HAL that answers each request once: it ends as the run does, and no CHECK has
      fired on the way. */
  method Session(o: LowEnergyClient, es: seq<Event>, ghost w: World) returns (trace: seq<(bool, seq<Out>)>)
    requires o.Valid() && w.c == o.View() && Inv(w) && Behaves(w, es)
    modifies o
    ensures o.Valid() && o.View() == Run(w, es).c && Inv(Run(w, es))
    ensures trace == Trace(w.c, es) && forall i :: 0 <= i < |trace| ==> CheckFailed !in trace[i].1
  {
    trace := Drive(o, es);
    RunIsAfter(w, es);
    RunInv(w, es);
    TraceSafe(w, es);
  }
}
