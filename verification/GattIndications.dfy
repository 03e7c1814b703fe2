/**
 Notifications and indications (service/gatt_server.cpp): one SendNotification goes out on every
 connection of a device, and its callback waits for the last confirmation. The pending indication is an
 object shared by the connections it was sent on; here it is known by a serial number.
 */
module GattIndications {
  import opened Common

  type Serial = nat

  const GATT_ERROR_NONE := 0

  /** `waiting` says which indication each connection waits on, `succeeded` which have seen a good
      confirmation, `callbacks` what the application wants called for each. */
  datatype Indications = Indications(
    waiting: map<ConnId, Serial>, succeeded: set<Serial>, callbacks: seq<Option<Callback>>)

  const NO_INDICATIONS := Indications(map[], {}, [])

  // ---------------------------------------------------------------------------------------------
  // Specification

  /** The connections a notification goes out on: those not waiting, where the HAL takes it. `hal` gives the
      HAL's answer for each place in the list, should it be asked. */
  function Takers(s: Indications, ids: seq<ConnId>, hal: nat -> int): set<ConnId> {
    set i | 0 <= i < |ids| && ids[i] !in s.waiting && hal(i) == BT_STATUS_SUCCESS :: ids[i]
  }

  function All(cs: set<ConnId>, n: Serial): map<ConnId, Serial> { map c | c in cs :: n }

  /** A device without connections or an unknown characteristic is refused before anything is sent. */
  function Notify(s: Indications, ids: Option<seq<ConnId>>, known: bool, callback: Option<Callback>, hal: nat -> int)
    : (Indications, bool)
  {
    if ids.None? || !known then (s, false)
    else
      var takers := Takers(s, ids.value, hal);
      var n := |s.callbacks|;
      (Indications(s.waiting + All(takers, n), s.succeeded, s.callbacks + [callback]), takers != {})
  }

  /** Some connection still waits on the indication: another reference to the shared object is left. */
  predicate Awaited(waiting: map<ConnId, Serial>, n: Serial) {
    exists c :: c in waiting && waiting[c] == n
  }

  /** A confirmation, and the result to report if it was the last. */
  function Confirm(s: Indications, id: ConnId, status: int): (Indications, Option<(Serial, int)>) {
    if id !in s.waiting then (s, None)
    else
      var n := s.waiting[id];
      var waiting := s.waiting - {id};
      var succeeded := if status == BT_STATUS_SUCCESS then s.succeeded + {n} else s.succeeded;
      (s.(waiting := waiting, succeeded := succeeded),
       if Awaited(waiting, n) then None else Some((n, if n in succeeded then GATT_ERROR_NONE else status)))
  }

  /** What a notification carries. */
  datatype Message = Message(handle: int, confirm: bool, value: seq<Byte>)

  /** One call of send_indication and its answer. */
  datatype Sending = Sending(conn: ConnId, message: Message, status: int)

  /** The calls for a list of connections: none on a connection that waits, be it for this very message. */
  function Sendings(s: Indications, ids: seq<ConnId>, message: Message, hal: nat -> int): seq<Sending> {
    if ids == [] then []
    else
      var n := |ids| - 1;
      Sendings(s, ids[..n], message, hal)
      + (if ids[n] in s.waiting || ids[n] in Takers(s, ids[..n], hal) then []
         else [Sending(ids[n], message, hal(n))])
  }

  function AllSendings(s: Indications, ids: Option<seq<ConnId>>, message: Option<Message>, hal: nat -> int)
    : seq<Sending>
  {
    if ids.None? || message.None? then [] else Sendings(s, ids.value, message.value, hal)
  }

  /** The callback a confirmation invokes, with the result it is told. */
  function Invoked(s: Indications, id: ConnId, status: int): Option<(Callback, int)> {
    match Confirm(s, id, status).1
    case None => None
    case Some((n, result)) =>
      if n < |s.callbacks| && s.callbacks[n].Some? then Some((s.callbacks[n].value, result)) else None
  }

  // ---------------------------------------------------------------------------------------------
  // Runs

  datatype Event =
    | CallNotify(ids: Option<seq<ConnId>>, known: bool, callback: Option<Callback>, hal: nat -> int)
    | OnConfirm(id: ConnId, status: int)

  /** The life of one indication: what its caller wanted called, where the HAL took it, what was confirmed,
      what was reported. */
  datatype Life = Life(callback: Option<Callback>, sent: set<ConnId>, confirmed: map<ConnId, int>, reports: seq<int>)

  datatype World = World(s: Indications, lives: seq<Life>)

  function Report(lives: seq<Life>, r: Option<(Serial, int)>): seq<Life> {
    if r.None? || r.value.0 >= |lives| then lives
    else lives[r.value.0 := lives[r.value.0].(reports := lives[r.value.0].reports + [r.value.1])]
  }

  function NoteConfirmation(lives: seq<Life>, n: Serial, id: ConnId, status: int): seq<Life> {
    if n >= |lives| then lives else lives[n := lives[n].(confirmed := lives[n].confirmed[id := status])]
  }

  function Next(w: World, e: Event): World {
    match e
    case CallNotify(ids, known, callback, hal) =>
      var (s, _) := Notify(w.s, ids, known, callback, hal);
      if ids.None? || !known then w else World(s, w.lives + [Life(callback, Takers(w.s, ids.value, hal), map[], [])])
    case OnConfirm(id, status) =>
      var (s, r) := Confirm(w.s, id, status);
      if id !in w.s.waiting then w
      else World(s, Report(NoteConfirmation(w.lives, w.s.waiting[id], id, status), r))
  }

  ghost predicate SomeGood(confirmed: map<ConnId, int>) {
    exists c :: c in confirmed && confirmed[c] == BT_STATUS_SUCCESS
  }

  /** Waiting is exactly what was sent and not yet confirmed; success is exactly a good confirmation; the
      report is made once, and only when everything sent has been confirmed. */
  ghost predicate LifeOk(s: Indications, n: Serial, l: Life) {
    && (forall c :: c in s.waiting && s.waiting[c] == n <==> c in l.sent && c !in l.confirmed)
    && l.confirmed.Keys <= l.sent
    && (n in s.succeeded <==> SomeGood(l.confirmed))
    && if l.sent == l.confirmed.Keys && l.sent != {}
       then |l.reports| == 1 && (l.reports[0] == GATT_ERROR_NONE <==> n in s.succeeded)
       else l.reports == []
  }

  ghost predicate Inv(w: World) {
    && |w.lives| == |w.s.callbacks|
    && (forall c :: c in w.s.waiting ==> w.s.waiting[c] < |w.lives|)
    && (forall n :: n in w.s.succeeded ==> n < |w.lives|)
    && (forall n :: 0 <= n < |w.lives| ==> w.s.callbacks[n] == w.lives[n].callback && LifeOk(w.s, n, w.lives[n]))
  }

  lemma SomeMember(t: set<ConnId>)
    ensures t == {} || exists c :: c in t
  {
    if forall c :: c !in t { assert t <= {}; }
  }

  lemma TakersWere(s: Indications, ids: seq<ConnId>, hal: nat -> int)
    ensures forall c :: c in Takers(s, ids, hal) ==> c in ids && c !in s.waiting
  {
  }

  lemma TakersMore(s: Indications, ids: seq<ConnId>, hal: nat -> int)
    requires ids != []
    ensures var n := |ids| - 1;
            Takers(s, ids, hal) == Takers(s, ids[..n], hal)
                                   + (if ids[n] !in s.waiting && hal(n) == BT_STATUS_SUCCESS then {ids[n]} else {})
  {
    var n := |ids| - 1;
    var a, b := Takers(s, ids, hal), Takers(s, ids[..n], hal);
    forall c | c in b ensures c in a {
      var i :| 0 <= i < n && ids[..n][i] == c && c !in s.waiting && hal(i) == BT_STATUS_SUCCESS;
      assert ids[i] == c;
    }
    forall c | c in a ensures c in b || (c == ids[n] && c !in s.waiting && hal(n) == BT_STATUS_SUCCESS) {
      var i :| 0 <= i < |ids| && ids[i] == c && c !in s.waiting && hal(i) == BT_STATUS_SUCCESS;
      if i < n { assert ids[..n][i] == c; }
    }
  }

  /** Both, one place further down the list. */
  lemma TakersNext(s: Indications, ids: seq<ConnId>, message: Message, hal: nat -> int, i: nat)
    requires i < |ids|
    ensures var was, c := Takers(s, ids[..i], hal), ids[i];
            var tried := c !in s.waiting && c !in was;
            && Takers(s, ids[..i+1], hal) == (if tried && hal(i) == BT_STATUS_SUCCESS then was + {c} else was)
            && Sendings(s, ids[..i+1], message, hal) ==
               Sendings(s, ids[..i], message, hal) + (if tried then [Sending(c, message, hal(i))] else [])
  {
    assert ids[..i+1][..i] == ids[..i];
    TakersMore(s, ids[..i+1], hal);
  }

  predicate Took(xs: seq<Sending>, c: ConnId) { exists x :: x in xs && x.conn == c && x.status == BT_STATUS_SUCCESS }

  /** Every call is for a connection of the list that does not wait and carries the message; the HAL took
      it exactly on the takers, and after taking it for a connection is not asked for that one again. */
  lemma {:induction false} SendingsExactly(s: Indications, ids: seq<ConnId>, message: Message, hal: nat -> int)
    ensures var xs := Sendings(s, ids, message, hal);
            && (forall x :: x in xs ==> x.conn in ids && x.conn !in s.waiting && x.message == message)
            && (forall c :: c in Takers(s, ids, hal) <==> Took(xs, c))
            && (forall i, j :: 0 <= i < j < |xs| && xs[i].conn == xs[j].conn ==> xs[i].status != BT_STATUS_SUCCESS)
  {
    if ids != [] {
      var n := |ids| - 1;
      var before, xs := Sendings(s, ids[..n], message, hal), Sendings(s, ids, message, hal);
      SendingsExactly(s, ids[..n], message, hal);
      TakersMore(s, ids, hal);
      forall c ensures c in Takers(s, ids, hal) <==> Took(xs, c) {
        assert c in Takers(s, ids[..n], hal) <==> Took(before, c);
        if |xs| > |before| { assert xs[|before|] == Sending(ids[n], message, hal(n)); }
        if x :| x in before && x.conn == c && x.status == BT_STATUS_SUCCESS { assert x in xs; }
      }
    }
  }

  lemma NotifyKeeps(w: World, e: Event)
    requires Inv(w) && e.CallNotify?
    ensures Inv(Next(w, e))
  {
    if e.ids.Some? && e.known {
      var w' := Next(w, e);
      var takers, n := Takers(w.s, e.ids.value, e.hal), |w.lives|;
      TakersWere(w.s, e.ids.value, e.hal);
      forall k | 0 <= k < |w'.lives| ensures LifeOk(w'.s, k, w'.lives[k]) {
        if k < n {
          assert LifeOk(w.s, k, w.lives[k]);
        }
      }
    }
  }

  lemma ConfirmOther(w: World, e: Event, k: nat)
    requires Inv(w) && e.OnConfirm? && e.id in w.s.waiting && k < |w.lives| && k != w.s.waiting[e.id]
    ensures LifeOk(Next(w, e).s, k, w.lives[k]) && Next(w, e).lives[k] == w.lives[k]
  {
    assert LifeOk(w.s, k, w.lives[k]);
  }

  lemma ConfirmOwn(w: World, e: Event)
    requires Inv(w) && e.OnConfirm? && e.id in w.s.waiting
    ensures var n := w.s.waiting[e.id]; LifeOk(Next(w, e).s, n, Next(w, e).lives[n])
  {
    var n := w.s.waiting[e.id];
    var l, s' := w.lives[n], Next(w, e).s;
    var l' := Next(w, e).lives[n];
    assert LifeOk(w.s, n, l);
    assert e.id in l.sent && e.id !in l.confirmed;
    assert l'.confirmed == l.confirmed[e.id := e.status];
    var left := w.s.waiting - {e.id};
    assert s'.waiting == left;
    if Awaited(left, n) {
      var c :| c in left && left[c] == n;
      assert c in l.sent && c !in l'.confirmed;
    } else {
      forall c | c in l.sent ensures c in l'.confirmed {
        assert c in l.confirmed || c in w.s.waiting;
        assert c in l.confirmed || c == e.id || c in left;
      }
      assert l'.confirmed.Keys == l'.sent;
    }
    Successes(l.confirmed, e.id, e.status);
  }

  lemma Successes(m: map<ConnId, int>, id: ConnId, status: int)
    requires id !in m
    ensures SomeGood(m[id := status]) <==> status == BT_STATUS_SUCCESS || SomeGood(m)
  {
    var m' := m[id := status];
    if status == BT_STATUS_SUCCESS { assert id in m' && m'[id] == BT_STATUS_SUCCESS; }
    if c :| c in m && m[c] == BT_STATUS_SUCCESS { assert c in m' && m'[c] == BT_STATUS_SUCCESS; }
  }

  lemma ConfirmKeeps(w: World, e: Event)
    requires Inv(w) && e.OnConfirm?
    ensures Inv(Next(w, e))
  {
    if e.id in w.s.waiting {
      var w' := Next(w, e);
      var n := w.s.waiting[e.id];
      ConfirmOwn(w, e);
      forall k | 0 <= k < |w'.lives| && k != n ensures LifeOk(w'.s, k, w'.lives[k]) {
        ConfirmOther(w, e, k);
      }
    }
  }

  function Run(w: World, es: seq<Event>): World {
    if es == [] then w else Next(Run(w, es[..|es|-1]), es[|es|-1])
  }

  const INITIAL := World(NO_INDICATIONS, [])

  lemma {:induction false} RunInv(es: seq<Event>)
    ensures Inv(Run(INITIAL, es))
  {
    if es != [] {
      var w, e := Run(INITIAL, es[..|es|-1]), es[|es|-1];
      RunInv(es[..|es|-1]);
      if e.CallNotify? { NotifyKeeps(w, e); } else { ConfirmKeeps(w, e); }
    }
  }

  /** What the invariant says of one notification: it is reported once it has gone out somewhere and every
      connection it went out on has confirmed, never before and never twice; success is reported if and only
      if some confirmation was good. */
  ghost predicate WellReported(l: Life) {
    && (l.reports != [] <==> l.sent != {} && forall c :: c in l.sent ==> c in l.confirmed)
    && |l.reports| <= 1
    && (l.reports != [] ==>
          (l.reports[0] == GATT_ERROR_NONE <==>
             exists c :: c in l.sent && c in l.confirmed && l.confirmed[c] == BT_STATUS_SUCCESS))
  }

  lemma LifeReported(w: World, n: nat)
    requires Inv(w) && n < |w.lives|
    ensures WellReported(w.lives[n])
  {
    var l := w.lives[n];
    assert LifeOk(w.s, n, l);
    if forall c :: c in l.sent ==> c in l.confirmed { assert l.sent == l.confirmed.Keys; }
  }

  /** Every notification, in every run. */
  lemma ReportedOnce(es: seq<Event>, n: nat)
    requires n < |Run(INITIAL, es).lives|
    ensures WellReported(Run(INITIAL, es).lives[n])
  {
    RunInv(es);
    LifeReported(Run(INITIAL, es), n);
  }

  /** No connection ever waits on two indications. */
  lemma OneOutstanding(es: seq<Event>, n: nat, m: nat, c: ConnId)
    requires n < |Run(INITIAL, es).lives| && m < |Run(INITIAL, es).lives|
    requires var ls := Run(INITIAL, es).lives;
             c in ls[n].sent && c !in ls[n].confirmed && c in ls[m].sent && c !in ls[m].confirmed
    ensures n == m
  {
    RunInv(es);
    var w := Run(INITIAL, es);
    assert LifeOk(w.s, n, w.lives[n]) && LifeOk(w.s, m, w.lives[m]);
  }

  /** The caller is told "accepted" exactly when the notification went out somewhere, and only then will
      anything be reported for it. */
  lemma AcceptedMeansSent(s: Indications, ids: Option<seq<ConnId>>, known: bool, callback: Option<Callback>,
                          hal: nat -> int)
    ensures var (s', ok) := Notify(s, ids, known, callback, hal);
            && (ok <==>
                  && ids.Some? && known
                  && exists i :: 0 <= i < |ids.value| && ids.value[i] !in s.waiting && hal(i) == BT_STATUS_SUCCESS)
            && (!ok ==> s'.waiting == s.waiting)
            && (forall c :: c in s.waiting ==> c in s'.waiting && s'.waiting[c] == s.waiting[c])
  {
    if ids.Some? && known {
      var takers := Takers(s, ids.value, hal);
      TakersWere(s, ids.value, hal);
      if i :| 0 <= i < |ids.value| && ids.value[i] !in s.waiting && hal(i) == BT_STATUS_SUCCESS {
        assert ids.value[i] in takers;
      }
      SomeMember(takers);
    }
  }

  // ---------------------------------------------------------------------------------------------
  // The callbacks invoked

  /** The call a reported notification stands for. */
  function CallOf(l: Life): multiset<(Callback, int)> {
    if l.reports == [] || l.callback.None? then multiset{} else multiset{(l.callback.value, l.reports[0])}
  }

  /** The calls that all reports together stand for. */
  function Told(lives: seq<Life>): multiset<(Callback, int)> {
    if lives == [] then multiset{} else Told(lives[..|lives|-1]) + CallOf(lives[|lives|-1])
  }

  lemma Swapped<T>(a: multiset<T>, b: multiset<T>, c: multiset<T>)
    ensures a + b + c == a + c + b
  {
  }

  lemma {:induction false} ToldOneMore(lives: seq<Life>, n: nat, l: Life)
    requires n < |lives| && lives[n].reports == []
    ensures Told(lives[n := l]) == Told(lives) + CallOf(l)
  {
    var k := |lives| - 1;
    var lives' := lives[n := l];
    if n == k {
      assert lives'[..k] == lives[..k];
      assert CallOf(lives[n]) == multiset{};
    } else {
      assert lives'[..k] == lives[..k][n := l] && lives'[k] == lives[k];
      ToldOneMore(lives[..k], n, l);
      Swapped(Told(lives[..k]), CallOf(l), CallOf(lives[k]));
    }
  }

  function Called(call: Option<(Callback, int)>): multiset<(Callback, int)> {
    if call.None? then multiset{} else multiset{call.value}
  }

  /** A confirmation invokes a callback exactly when the indication it is for has just been reported and its
      caller gave one. What is reported is success if some confirmation was good, else the status of this,
      the last one. */
  lemma InvokedExactly(w: World, id: ConnId, status: int)
    requires Inv(w) && id in w.s.waiting
    ensures var n := w.s.waiting[id];
            && n < |w.lives| && w.lives[n].reports == []
            && var l := Next(w, OnConfirm(id, status)).lives[n];
               && Called(Invoked(w.s, id, status)) == CallOf(l)
               && l.confirmed == w.lives[n].confirmed[id := status] && l.callback == w.lives[n].callback
               && (l.reports != [] ==> l.reports == [if SomeGood(l.confirmed) then GATT_ERROR_NONE else status])
  {
    var n := w.s.waiting[id];
    assert LifeOk(w.s, n, w.lives[n]);
    assert id in w.lives[n].sent && id !in w.lives[n].confirmed;
    ConfirmOwn(w, OnConfirm(id, status));
  }

  lemma ConfirmTells(w: World, id: ConnId, status: int)
    requires Inv(w)
    ensures Told(Next(w, OnConfirm(id, status)).lives) == Told(w.lives) + Called(Invoked(w.s, id, status))
  {
    if id in w.s.waiting {
      var w', n := Next(w, OnConfirm(id, status)), w.s.waiting[id];
      InvokedExactly(w, id, status);
      assert w'.lives == w.lives[n := w'.lives[n]];
      ToldOneMore(w.lives, n, w'.lives[n]);
    }
  }

  lemma NotifyTells(w: World, e: Event)
    requires Inv(w) && e.CallNotify?
    ensures Told(Next(w, e).lives) == Told(w.lives)
  {
    var w' := Next(w, e);
    if e.ids.Some? && e.known { assert w'.lives[..|w.lives|] == w.lives; }
  }
}
