/**
 The audio gateway's indicator cache (bta/ag/bta_ag_cmd.c: bta_ag_send_ind, bta_ag_send_call_inds,
 the CIND and IND branches of bta_ag_hfp_result; bta/ag/bta_ag_act.c: bta_ag_svc_conn_open).
 The cache remembers what the hands-free unit has been told, so that only changes are sent.
 */
module Indicators {
  import opened Common
  import opened AtDispatch
  import opened BiaMask

  // Positions of the indicators in +CIND and +CIEV.
  const CALL := 1
  const CALLSETUP := 2
  const SERVICE := 3
  const SIGNAL := 4
  const ROAM := 5
  const BATTCHG := 6
  const CALLHELD := 7

  predicate Mandatory(id: nat) { id == CALL || id == CALLSETUP || id == CALLHELD }

  /** The indicators for which cache and hands-free unit must agree; callheld is different because
      AT+CHLD=2 rewrites the cache without telling the unit. */
  predicate Mirrored(id: nat) { CALL <= id <= BATTCHG }

  /** What is written to the hands-free unit. */
  datatype Result = Ciev(id: nat, value: nat) | Cind(text: string)

  /** The part of the service control block concerned with indicators. */
  datatype Cache = Cache(ind: seq<nat>, cmer: bool, masked: set<nat>, svcConn: bool)

  predicate ValidCache(c: Cache) {
    |c.ind| == CALLHELD + 1 && forall i :: 0 <= i < |c.ind| ==> c.ind[i] < 256
  }

  // ---------------------------------------------------------------------------------------------
  // Specification

  predicate Suppressed(c: Cache, id: nat) { id in c.masked && !Mandatory(id) }

  predicate Duplicate(c: Cache, id: nat, value: nat)
    requires ValidCache(c)
  {
    CALL <= id <= CALLHELD && value == c.ind[id] && !(id == CALLHELD && value == 1)
  }

  function Send(c: Cache, id: nat, value: nat, onDemand: bool): (r: (Cache, seq<Result>))
    requires ValidCache(c)
    ensures ValidCache(r.0)
  {
    if Suppressed(c, id) || (!onDemand && Duplicate(c, id, value)) then (c, [])
    else
      var stores := CALL <= id <= CALLHELD && (!onDemand || id == CALL);
      (if stores then c.(ind := c.ind[id := value % 256]) else c,
       if c.cmer then [Ciev(id, value)] else [])
  }

  /** API results that carry call state (BTA_AG_*_RES). */
  datatype CallResult =
    | InCall | InCallConn | CallWait | OutCallOrig | OutCallAlert | OutCallConn
    | CallCancel | EndCall | InCallHeld

  function CallsetupOf(r: CallResult): nat {
    match r
    case InCall => 1
    case CallWait => 1
    case OutCallOrig => 2
    case OutCallAlert => 3
    case _ => 0
  }

  function CallOf(c: Cache, r: CallResult): nat
    requires ValidCache(c)
  {
    match r
    case EndCall => 0
    case InCallConn => 1
    case OutCallConn => 1
    case InCallHeld => 1
    case _ => c.ind[CALL]
  }

  function SendCall(c: Cache, r: CallResult): (out: (Cache, seq<Result>))
    requires ValidCache(c)
    ensures ValidCache(out.0)
  {
    var first := Send(c, CALL, CallOf(c, r), false);
    var second := Send(first.0, CALLSETUP, CallsetupOf(r), false);
    (second.0, first.1 + second.1)
  }

  /** The character at position i of the zero-padded result buffer, read as a digit into a UINT8. */
  function DigitAt(text: string, i: nat): (v: nat)
    ensures v < 256
  {
    ((if i < |text| then text[i] as int else 0) - '0' as int) % 256
  }

  /** The application answers AT+CIND?; the cache picks the digits at the even positions. */
  function AnswerCind(c: Cache, text: string): (r: (Cache, seq<Result>))
    requires ValidCache(c)
    ensures ValidCache(r.0)
  {
    (c.(ind := seq(CALLHELD + 1, i requires 0 <= i => if i == 0 then c.ind[0] else DigitAt(text, 2 * (i - 1)))),
     [Cind(text)])
  }

  /** AT+CHLD=2 while one call is active: callheld leaves its valid range. */
  function Swap(c: Cache): (r: Cache)
    requires ValidCache(c)
    ensures ValidCache(r)
  {
    if c.ind[CALL] == 1 && c.ind[CALLSETUP] == 0 then c.(ind := c.ind[CALLHELD := 3]) else c
  }

  function SlcOpened(c: Cache): Cache {
    if c.svcConn then c else c.(svcConn := true, masked := {})
  }

  function BiaApplied(c: Cache, arg: string): Cache {
    var fields := Split(arg);
    if Accepted(fields) then c.(masked := Apply(c.masked, fields)) else c
  }

  datatype Event =
    | IndRes(id: nat, value: UInt16)
    | CallRes(r: CallResult)
    | CindRes(text: string)
    | Bia(arg: string)
    | Chld2
    | SlcOpen
    | SlcClosed
    | Cmer(on: bool)

  function Step(c: Cache, e: Event): (r: (Cache, seq<Result>))
    requires ValidCache(c)
    ensures ValidCache(r.0)
  {
    match e
    case IndRes(id, value) => Send(c, id, value, false)
    case CallRes(r) => SendCall(c, r)
    case CindRes(text) => AnswerCind(c, text)
    case Bia(arg) => (BiaApplied(c, arg), [])
    case Chld2 => (Swap(c), [])
    case SlcOpen => (SlcOpened(c), [])
    case SlcClosed => (c.(svcConn := false), [])
    case Cmer(on) => (c.(cmer := on), [])
  }

  function Run(c: Cache, es: seq<Event>): (r: (Cache, seq<Result>))
    requires ValidCache(c)
    ensures ValidCache(r.0)
  {
    if es == [] then (c, [])
    else
      var before := Run(c, es[..|es|-1]);
      var last := Step(before.0, es[|es|-1]);
      (last.0, before.1 + last.1)
  }

  // ---------------------------------------------------------------------------------------------
  // The service control block

  class Scb {
    var callInd: nat
    var callsetupInd: nat
    var serviceInd: nat
    var signalInd: nat
    var roamInd: nat
    var battchgInd: nat
    var callheldInd: nat
    var cmerEnabled: bool
    var biaMaskedOut: set<nat>
    var svcConn: bool

    ghost function State(): Cache
      reads this
    {
      Cache([0, callInd, callsetupInd, serviceInd, signalInd, roamInd, battchgInd, callheldInd],
            cmerEnabled, biaMaskedOut, svcConn)
    }

    ghost predicate Valid()
      reads this
    {
      ValidCache(State())
    }

    /** Stores the value unless it is the one already told; on demand only the call indicator is stored. */
    method Record(id: nat, value: UInt16, onDemand: bool) returns (known: bool)
      requires Valid()
      modifies this
      ensures known <==> !onDemand && Duplicate(old(State()), id, value)
      ensures State() == if !known && CALL <= id <= CALLHELD && (!onDemand || id == CALL)
                         then old(State()).(ind := old(State()).ind[id := value % 256]) else old(State())
    {
      ghost var ind := State().ind;
      known := false;
      if id == CALL {
        if value == callInd && !onDemand { return true; }
        callInd := value % 256;
        assert State().ind == ind[CALL := value % 256];
      } else if id == CALLSETUP && !onDemand {
        if value == callsetupInd { return true; }
        callsetupInd := value % 256;
        assert State().ind == ind[CALLSETUP := value % 256];
      } else if id == SERVICE && !onDemand {
        if value == serviceInd { return true; }
        serviceInd := value % 256;
        assert State().ind == ind[SERVICE := value % 256];
      } else if id == SIGNAL && !onDemand {
        if value == signalInd { return true; }
        signalInd := value % 256;
        assert State().ind == ind[SIGNAL := value % 256];
      } else if id == ROAM && !onDemand {
        if value == roamInd { return true; }
        roamInd := value % 256;
        assert State().ind == ind[ROAM := value % 256];
      } else if id == BATTCHG && !onDemand {
        if value == battchgInd { return true; }
        battchgInd := value % 256;
        assert State().ind == ind[BATTCHG := value % 256];
      } else if id == CALLHELD && !onDemand {
        if value != 1 && value == callheldInd { return true; }
        callheldInd := value % 256;
        assert State().ind == ind[CALLHELD := value % 256];
      }
    }

    method SendInd(id: nat, value: UInt16, onDemand: bool) returns (out: seq<Result>)
      requires Valid()
      modifies this
      ensures (State(), out) == Send(old(State()), id, value, onDemand)
    {
      out := [];
      if id in biaMaskedOut && id != CALL && id != CALLSETUP && id != CALLHELD {
        return;
      }
      var known := Record(id, value, onDemand);
      if known { return; }
      if cmerEnabled {
        out := [Ciev(id, value)];
      }
    }

    method SendCallInds(r: CallResult) returns (out: seq<Result>)
      requires Valid()
      modifies this
      ensures (State(), out) == SendCall(old(State()), r)
    {
      var callsetup := CallsetupOf(r);
      var call;
      if r == EndCall {
        call := 0;
      } else if r == InCallConn || r == OutCallConn || r == InCallHeld {
        call := 1;
      } else {
        call := callInd;
      }
      assert callInd == State().ind[CALL];
      var first := SendInd(CALL, call, false);
      var second := SendInd(CALLSETUP, callsetup, false);
      out := first + second;
    }

    method CindResult(text: string) returns (out: seq<Result>)
      requires Valid()
      modifies this
      ensures (State(), out) == AnswerCind(old(State()), text)
    {
      callInd := DigitAt(text, 0);
      callsetupInd := DigitAt(text, 2);
      serviceInd := DigitAt(text, 4);
      signalInd := DigitAt(text, 6);
      roamInd := DigitAt(text, 8);
      battchgInd := DigitAt(text, 10);
      callheldInd := DigitAt(text, 12);
      out := [Cind(text)];
      assert State().ind == AnswerCind(old(State()), text).0.ind;
    }

    method BiaCommand(arg: string) returns (ok: bool)
      requires Valid() && '\0' !in arg
      modifies this
      ensures State() == BiaApplied(old(State()), arg)
      ensures ok <==> Accepted(Split(arg))
    {
      var mask;
      ok, mask := ParseBia(biaMaskedOut, arg);
      if ok {
        biaMaskedOut := mask;
      }
    }

    method ChldSwap()
      requires Valid()
      modifies this
      ensures State() == Swap(old(State()))
    {
      if callInd == 1 && callsetupInd == 0 {
        callheldInd := 3;
      }
    }

    method SvcConnOpen()
      requires Valid()
      modifies this
      ensures State() == SlcOpened(old(State()))
    {
      if !svcConn {
        svcConn := true;
        biaMaskedOut := {};
      }
    }

    method SvcConnClose()
      modifies this
      ensures State() == old(State()).(svcConn := false)
    {
      svcConn := false;
    }

    /** What AT+CMER leaves behind. */
    method SetCmer(on: bool)
      modifies this
      ensures State() == old(State()).(cmer := on)
    {
      cmerEnabled := on;
    }
  }

  /** One event on the block. */
  method Perform(o: Scb, e: Event) returns (out: seq<Result>)
    requires o.Valid() && (e.Bia? ==> '\0' !in e.arg)
    modifies o
    ensures o.Valid() && (o.State(), out) == Step(old(o.State()), e)
  {
    out := [];
    match e {
      case IndRes(id, value) => out := o.SendInd(id, value, false);
      case CallRes(r) => out := o.SendCallInds(r);
      case CindRes(text) => out := o.CindResult(text);
      case Bia(arg) => var ok := o.BiaCommand(arg);
      case Chld2 => o.ChldSwap();
      case SlcOpen => o.SvcConnOpen();
      case SlcClosed => o.SvcConnClose();
      case Cmer(on) => o.SetCmer(on);
    }
  }

  /** Any run on the block: what it holds and what it sends are those of the specified run. */
  method Drive(o: Scb, es: seq<Event>) returns (out: seq<Result>)
    requires o.Valid() && forall e :: e in es ==> (e.Bia? ==> '\0' !in e.arg)
    modifies o
    ensures o.Valid() && (o.State(), out) == Run(old(o.State()), es)
  {
    out := [];
    for i := 0 to |es|
      invariant o.Valid() && (o.State(), out) == Run(old(o.State()), es[..i])
    {
      assert es[..i+1][..i] == es[..i];
      var sent := Perform(o, es[i]);
      out := out + sent;
    }
    assert es[..|es|] == es;
  }

  // ---------------------------------------------------------------------------------------------
  // The hands-free unit's mirror

  /** The decimal value the unit reads in field k (counted from zero) of a +CIND text; 256 stands
      for anything that is not a number. */
  function FieldValue(text: string, k: nat): nat {
    var fields := Split(text);
    if k < |fields| && fields[k] != "" && AllDigits(fields[k]) then Value(fields[k]) else 256
  }

  const INDICATORS: set<nat> := {CALL, CALLSETUP, SERVICE, SIGNAL, ROAM, BATTCHG, CALLHELD}

  function Observe(m: map<nat, nat>, r: Result): map<nat, nat> {
    match r
    case Ciev(id, value) => m[id := value]
    case Cind(text) => m + map id | id in INDICATORS :: FieldValue(text, id - 1)
  }

  function ObserveAll(m: map<nat, nat>, rs: seq<Result>): map<nat, nat> {
    if rs == [] then m else Observe(ObserveAll(m, rs[..|rs|-1]), rs[|rs|-1])
  }

  lemma {:induction false} ObserveAppend(m: map<nat, nat>, a: seq<Result>, b: seq<Result>)
    ensures ObserveAll(m, a + b) == ObserveAll(ObserveAll(m, a), b)
  {
    if b == [] {
      assert a + b == a;
    } else {
      ObserveAppend(m, a, b[..|b|-1]);
      assert (a + b)[..|a+b|-1] == a + b[..|b|-1];
    }
  }

  ghost predicate Coherent(c: Cache, m: map<nat, nat>)
    requires ValidCache(c)
  {
    forall id: nat :: Mirrored(id) ==> id in m && m[id] == c.ind[id]
  }

  /** No +CIEV of a mirrored indicator repeats what the unit already knows. */
  ghost predicate Fresh(m: map<nat, nat>, rs: seq<Result>) {
    forall k :: 0 <= k < |rs| && rs[k].Ciev? && Mirrored(rs[k].id) ==>
      var known := ObserveAll(m, rs[..k]);
      rs[k].id in known ==> known[rs[k].id] != rs[k].value
  }

  /** Sending keeps cache and mirror in step exactly when the indicator is not one of the six, is
      masked, or: with reporting on the value fits the 8-bit cache, with reporting off the cache
      does not change. */
  lemma SendCoherent(c: Cache, m: map<nat, nat>, id: nat, value: nat)
    requires ValidCache(c) && Coherent(c, m)
    ensures var (c', rs) := Send(c, id, value, false);
            && (Coherent(c', ObserveAll(m, rs)) <==>
                (!Mirrored(id) || Suppressed(c, id) ||
                 (if c.cmer then value < 256 else value % 256 == c.ind[id])))
            && Fresh(m, rs)
  {
    var (c', rs) := Send(c, id, value, false);
    if rs != [] {
      assert rs[..0] == [] && ObserveAll(m, rs) == m[id := value];
    }
  }

  /** When the unit is told: with reporting on, of every indicator that is mandatory or not masked, unless
      the value is the one it was told last (callheld 1 is always repeated). The octet kept is the value told,
      and other indicators are left alone; on demand only call is kept. */
  lemma SendExactly(c: Cache, id: nat, value: nat, onDemand: bool)
    requires ValidCache(c)
    ensures var (c', rs) := Send(c, id, value, onDemand);
            var silent := id in c.masked && id !in {1, 2, 7};
            var known := 1 <= id <= 7 && value == c.ind[id] && !(id == 7 && value == 1);
            var tells := !silent && (onDemand || !known);
            && rs == (if tells && c.cmer then [Ciev(id, value)] else [])
            && (forall k :: 0 <= k <= 7 && k != id ==> c'.ind[k] == c.ind[k])
            && (1 <= id <= 7 ==> c'.ind[id] == if tells && (!onDemand || id == 1) then value % 256 else c.ind[id])
            && c'.cmer == c.cmer && c'.masked == c.masked && c'.svcConn == c.svcConn
  {
  }

  /** What the unit shows for an indicator that is not masked is what the application reported last. */
  lemma ShowsReported(c: Cache, m: map<nat, nat>, id: nat, value: UInt16)
    requires ValidCache(c) && Coherent(c, m) && c.cmer && Mirrored(id) && (id in c.masked ==> id in {1, 2})
    ensures var m' := ObserveAll(m, Step(c, IndRes(id, value)).1); id in m' && m'[id] == value
  {
    var rs := Step(c, IndRes(id, value)).1;
    if rs != [] { assert rs[..0] == [] && ObserveAll(m, rs) == m[id := value]; }
  }

  lemma ShownAfter(c: Cache, m: map<nat, nat>, id: nat, value: nat)
    requires ValidCache(c) && Coherent(c, m) && c.cmer && (id == CALL || id == CALLSETUP) && value < 256
    ensures var (c', rs) := Send(c, id, value, false);
            c'.cmer && Coherent(c', ObserveAll(m, rs)) && ObserveAll(m, rs) == m[id := value]
  {
    var rs := Send(c, id, value, false).1;
    if rs == [] {
      assert Mirrored(id);
      assert m[id := value] == m;
    } else {
      assert rs[..0] == [] && ObserveAll(m, rs) == m[id := value];
    }
  }

  /** The call indicators the unit shows after each call result. An incoming or waiting call is being set up,
      an outgoing one is dialling, then alerting; connecting ends the set-up and makes a call; only the end
      of the call makes it go, and a cancelled or finished set-up is over. */
  lemma ShowsCall(c: Cache, m: map<nat, nat>, r: CallResult)
    requires ValidCache(c) && Coherent(c, m) && c.cmer
    ensures var m' := ObserveAll(m, Step(c, CallRes(r)).1);
            && CALL in m' && CALLSETUP in m'
            && m'[CALL] == (if r in {InCallConn, OutCallConn, InCallHeld} then 1
                            else if r == EndCall then 0 else m[CALL])
            && m'[CALLSETUP] == (if r in {InCall, CallWait} then 1
                                 else if r == OutCallOrig then 2 else if r == OutCallAlert then 3 else 0)
  {
    var (c1, rs1) := Send(c, CALL, CallOf(c, r), false);
    ShownAfter(c, m, CALL, CallOf(c, r));
    ShownAfter(c1, ObserveAll(m, rs1), CALLSETUP, CallsetupOf(r));
    ObserveAppend(m, rs1, Send(c1, CALLSETUP, CallsetupOf(r), false).1);
  }

  /** What AT+CHLD=2 is for: with one active call and none being set up, the next report of callheld goes out
      whatever it says and whatever was reported before. Otherwise it changes nothing. */
  lemma SwapForcesReport(c: Cache, value: UInt16)
    requires ValidCache(c)
    ensures var c' := Step(c, Chld2).0;
            if c.ind[1] == 1 && c.ind[2] == 0
            then c.cmer && value <= 2 ==> Step(c', IndRes(7, value)).1 == [Ciev(7, value)]
            else c' == c
  {
  }

  /** Reporting is switched by AT+CMER alone, the service level connection by its own events, and the mask by
      AT+BIA and a new connection. */
  lemma SwitchesExactly(c: Cache, e: Event, id: nat)
    requires ValidCache(c)
    ensures var c' := Step(c, e).0;
            && c'.cmer == (if e.Cmer? then e.on else c.cmer)
            && c'.svcConn == (if e.SlcOpen? then true else if e.SlcClosed? then false else c.svcConn)
            && (id in c'.masked <==>
                match e
                case Bia(arg) =>
                  var fields := Split(arg);
                  if Accepted(fields) && 1 <= id <= |fields| && fields[id-1] == "0" then true
                  else if Accepted(fields) && 1 <= id <= |fields| && fields[id-1] == "1" then false
                  else id in c.masked
                case SlcOpen => c.svcConn && id in c.masked
                case _ => id in c.masked)
  {
    if e.Bia? { ApplyBit(c.masked, Split(e.arg), id); }
  }

  lemma FreshAppend(m: map<nat, nat>, a: seq<Result>, b: seq<Result>)
    requires Fresh(m, a) && Fresh(ObserveAll(m, a), b)
    ensures Fresh(m, a + b)
  {
    var rs := a + b;
    forall k | 0 <= k < |rs| && rs[k].Ciev? && Mirrored(rs[k].id)
      ensures var known := ObserveAll(m, rs[..k]);
              rs[k].id in known ==> known[rs[k].id] != rs[k].value
    {
      if k < |a| {
        assert rs[..k] == a[..k];
      } else {
        assert rs[..k] == a + b[..k-|a|];
        ObserveAppend(m, a, b[..k-|a|]);
      }
    }
  }

  // The +CIND answer ----------------------------------------------------------------------------

  function Decimal(n: nat): (s: string)
    ensures s != "" && AllDigits(s) && ',' !in s
    ensures |s| == 1 <==> n < 10
  {
    if n < 10 then [(n + '0' as int) as char] else Decimal(n / 10) + [(n % 10 + '0' as int) as char]
  }

  lemma {:induction false} ValueOfDecimal(n: nat)
    ensures Value(Decimal(n)) == n
  {
    if n >= 10 {
      ValueOfDecimal(n / 10);
      assert Decimal(n)[..|Decimal(n)|-1] == Decimal(n / 10);
    } else {
      assert Decimal(n)[..0] == "";
    }
  }

  function Decimals(values: seq<nat>): (r: seq<string>)
    ensures |r| == |values|
    ensures forall k :: 0 <= k < |values| ==> r[k] == Decimal(values[k])
  {
    seq(|values|, k requires 0 <= k < |values| => Decimal(values[k]))
  }

  /** After k one-character fields, the next field starts at position 2k. */
  lemma {:induction false} FieldPosition(fields: seq<string>, k: nat)
    requires k < |fields| && forall i :: 0 <= i < |fields| ==> fields[i] != ""
    requires forall i :: 0 <= i < k ==> |fields[i]| == 1
    ensures 2 * k < |Join(fields)| && Join(fields)[2 * k] == fields[k][0]
  {
    if k > 0 {
      FieldPosition(fields[1..], k - 1);
    }
  }

  /** The fixed positions read by the gateway hold what the unit reads in the fields, for the six
      mirrored indicators. */
  ghost predicate Aligned(text: string) {
    forall id: nat :: Mirrored(id) ==> FieldValue(text, id - 1) == DigitAt(text, 2 * (id - 1))
  }

  lemma FieldOfRendered(values: seq<nat>, k: nat)
    requires k < |values|
    ensures FieldValue(Join(Decimals(values)), k) == values[k]
  {
    SplitJoin(Decimals(values));
    ValueOfDecimal(values[k]);
  }

  lemma ShortAligned(values: seq<nat>, id: nat)
    requires |values| == CALLHELD && Mirrored(id) && forall k :: 0 <= k < BATTCHG ==> values[k] < 10
    ensures var text := Join(Decimals(values)); FieldValue(text, id - 1) == DigitAt(text, 2 * (id - 1))
  {
    FieldOfRendered(values, id - 1);
    FieldPosition(Decimals(values), id - 1);
  }

  lemma LongMisaligned(values: seq<nat>, k: nat)
    requires |values| == CALLHELD && k < BATTCHG && values[k] >= 10 && forall i :: 0 <= i < k ==> values[i] < 10
    ensures !Aligned(Join(Decimals(values)))
  {
    var fields := Decimals(values);
    var text := Join(fields);
    FieldOfRendered(values, k);
    FieldPosition(fields, k);
    assert fields[k][0] in fields[k] && IsDigit(fields[k][0]);
    assert FieldValue(text, (k + 1) - 1) != DigitAt(text, 2 * ((k + 1) - 1));
    assert Mirrored(k + 1);
  }

  /** An answer listing one number per indicator is understood alike on both sides if and only if
      the six mirrored numbers have a single digit. */
  lemma CindAligned(values: seq<nat>)
    requires |values| == CALLHELD
    ensures Aligned(Join(Decimals(values))) <==> forall k :: 0 <= k < BATTCHG ==> values[k] < 10
  {
    if forall k :: 0 <= k < BATTCHG ==> values[k] < 10 {
      forall id: nat | Mirrored(id)
        ensures var text := Join(Decimals(values)); FieldValue(text, id - 1) == DigitAt(text, 2 * (id - 1))
      {
        ShortAligned(values, id);
      }
    } else {
      var k := FirstLong(values);
      LongMisaligned(values, k);
    }
  }

  lemma FirstLong(values: seq<nat>) returns (k: nat)
    requires |values| == CALLHELD
    requires !(forall k :: 0 <= k < BATTCHG ==> values[k] < 10)
    ensures k < BATTCHG && values[k] >= 10 && forall i :: 0 <= i < k ==> values[i] < 10
  {
    k := 0;
    while values[k] < 10
      invariant k < BATTCHG && forall i :: 0 <= i < k ==> values[i] < 10
      decreases BATTCHG - k
    {
      k := k + 1;
    }
  }

  // Whole runs ----------------------------------------------------------------------------------

  /** The answer lists the seven indicators in decimal, the first six with one digit each. */
  ghost predicate OneDigitEach(text: string) {
    exists values: seq<nat> ::
      && |values| == CALLHELD && (forall k :: 0 <= k < BATTCHG ==> values[k] < 10)
      && text == Join(Decimals(values))
  }

  /** Events after which agreement can be expected. */
  ghost predicate Benign(e: Event) {
    match e
    case IndRes(id, value) => Mirrored(id) ==> value < 256
    case CindRes(text) => OneDigitEach(text)
    case Cmer(on) => on
    case _ => true
  }

  lemma TwoSendsCoherent(c: Cache, m: map<nat, nat>, call: nat, setup: nat)
    requires ValidCache(c) && Coherent(c, m) && c.cmer && call < 256 && setup < 256
    ensures var (c1, rs1) := Send(c, CALL, call, false);
            var (c2, rs2) := Send(c1, CALLSETUP, setup, false);
            c2.cmer && Coherent(c2, ObserveAll(m, rs1 + rs2)) && Fresh(m, rs1 + rs2)
  {
    var (c1, rs1) := Send(c, CALL, call, false);
    SendCoherent(c, m, CALL, call);
    SendCoherent(c1, ObserveAll(m, rs1), CALLSETUP, setup);
    ObserveAppend(m, rs1, Send(c1, CALLSETUP, setup, false).1);
    FreshAppend(m, rs1, Send(c1, CALLSETUP, setup, false).1);
  }

  lemma CindMirror(c: Cache, m: map<nat, nat>, text: string, id: nat)
    requires ValidCache(c) && Mirrored(id)
    ensures var (c', rs) := AnswerCind(c, text);
            var m' := ObserveAll(m, rs);
            id in m' && m'[id] == FieldValue(text, id - 1) && c'.ind[id] == DigitAt(text, 2 * (id - 1))
  {
    assert [Cind(text)][..0] == [];
    assert ObserveAll(m, [Cind(text)]) == Observe(m, Cind(text));
    assert id in INDICATORS;
  }

  /** A +CIND answer brings cache and mirror into agreement exactly when both read the same digits. */
  lemma CindCoherent(c: Cache, m: map<nat, nat>, text: string)
    requires ValidCache(c)
    ensures var (c', rs) := AnswerCind(c, text);
            c'.cmer == c.cmer && (Coherent(c', ObserveAll(m, rs)) <==> Aligned(text)) && Fresh(m, rs)
  {
    forall id: nat | Mirrored(id)
      ensures var (c', rs) := AnswerCind(c, text);
              var m' := ObserveAll(m, rs);
              id in m' && m'[id] == FieldValue(text, id - 1) && c'.ind[id] == DigitAt(text, 2 * (id - 1))
    {
      CindMirror(c, m, text, id);
    }
  }

  lemma StepCoherent(c: Cache, m: map<nat, nat>, e: Event)
    requires ValidCache(c) && Coherent(c, m) && c.cmer && Benign(e)
    ensures var (c', rs) := Step(c, e);
            c'.cmer && Coherent(c', ObserveAll(m, rs)) && Fresh(m, rs)
  {
    match e
    case IndRes(id, value) =>
      SendCoherent(c, m, id, value);
    case CallRes(r) =>
      TwoSendsCoherent(c, m, CallOf(c, r), CallsetupOf(r));
    case CindRes(text) =>
      var values :| && |values| == CALLHELD && (forall k :: 0 <= k < BATTCHG ==> values[k] < 10)
                    && text == Join(Decimals(values));
      CindAligned(values);
      CindCoherent(c, m, text);
    case _ =>
  }

  /** Over every run with reporting on, the cache equals the unit's mirror for the six indicators,
      whatever is masked, and nothing already known is sent again. */
  lemma {:induction false} RunCoherent(c: Cache, m: map<nat, nat>, es: seq<Event>)
    requires ValidCache(c) && Coherent(c, m) && c.cmer
    requires forall e :: e in es ==> Benign(e)
    ensures var (c', rs) := Run(c, es);
            c'.cmer && Coherent(c', ObserveAll(m, rs)) && Fresh(m, rs)
  {
    if es != [] {
      var init, e := es[..|es|-1], es[|es|-1];
      RunCoherent(c, m, init);
      var (c1, rs1) := Run(c, init);
      StepCoherent(c1, ObserveAll(m, rs1), e);
      ObserveAppend(m, rs1, Step(c1, e).1);
      FreshAppend(m, rs1, Step(c1, e).1);
    }
  }

  /** The event leaves a masked indicator masked: no accepted AT+BIA re-enables it and no new
      service level connection opens. */
  predicate KeepsMasked(c: Cache, id: nat, e: Event) {
    match e
    case Bia(arg) =>
      var fields := Split(arg);
      Accepted(fields) && 1 <= id <= |fields| ==> fields[id-1] != "1"
    case SlcOpen => c.svcConn
    case _ => true
  }

  /** One event keeps an indicator masked if and only if it neither re-enables it nor opens a new
      connection. */
  lemma MaskedStep(c: Cache, e: Event, id: nat)
    requires ValidCache(c) && id in c.masked
    ensures id in Step(c, e).0.masked <==> KeepsMasked(c, id, e)
  {
    if e.Bia? { ApplyBit(c.masked, Split(e.arg), id); }
  }

  lemma MaskedSilent(c: Cache, e: Event, id: nat)
    requires ValidCache(c) && id in c.masked && !Mandatory(id)
    ensures forall r :: r in Step(c, e).1 && r.Ciev? ==> r.id != id
  {
  }

  /** Every event of the run keeps the indicator masked. */
  predicate AllKeepMasked(c: Cache, es: seq<Event>, id: nat)
    requires ValidCache(c)
  {
    es == [] || (AllKeepMasked(c, es[..|es|-1], id) && KeepsMasked(Run(c, es[..|es|-1]).0, id, es[|es|-1]))
  }

  /** An optional indicator once masked is never reported again until it is re-enabled or a new
      service level connection opens. */
  lemma {:induction false} MaskedNeverSent(c: Cache, es: seq<Event>, id: nat)
    requires ValidCache(c) && id in c.masked && !Mandatory(id) && AllKeepMasked(c, es, id)
    ensures id in Run(c, es).0.masked
    ensures forall r :: r in Run(c, es).1 && r.Ciev? ==> r.id != id
  {
    if es != [] {
      var init, e := es[..|es|-1], es[|es|-1];
      MaskedNeverSent(c, init, id);
      MaskedStep(Run(c, init).0, e, id);
      MaskedSilent(Run(c, init).0, e, id);
    }
  }

  /** End to end: a block that starts in agreement with the unit, reporting on, still agrees with it after
      any benign run, and has sent nothing the unit already knew. */
  method Session(o: Scb, es: seq<Event>, ghost m: map<nat, nat>) returns (out: seq<Result>)
    requires o.Valid() && o.cmerEnabled && Coherent(o.State(), m)
    requires forall e :: e in es ==> Benign(e) && (e.Bia? ==> '\0' !in e.arg)
    modifies o
    ensures o.Valid() && o.cmerEnabled && Coherent(o.State(), ObserveAll(m, out)) && Fresh(m, out)
  {
    RunCoherent(o.State(), m, es);
    out := Drive(o, es);
  }
}
