/**
 What the SCO machine must do: where each event leads, exactly who is called, closed, listened for or adopted,
 and whole exchanges from a request to its fulfilment.
 */
module ScoScenarios {
  import opened Common
  import opened ScoSpec
  import opened ScoTheorems

  // ---------------------------------------------------------------------------------------------
  // A reference for the state switch

  /** Where an event leads, given whether a disconnection began, whether the block is current then, whether
      another block has its service level connection, and whether this one has. */
  function Moves(st: ScoState, e: Event, begun: bool, own: bool, others: bool, up: bool): ScoState {
    match (st, e)
    case (Shutdown, ListenE) => Listen
    case (Listen, OpenE) => Opening
    case (Listen, ShutdownE) => if others then Listen else Shutdown
    case (Opening, XferE) => CloseXfer
    case (Opening, CloseE) => OpenCl
    case (Opening, ShutdownE) => if others then Opening else Shutdown
    case (Opening, ConnOpenE) => Open
    case (Opening, ConnCloseE) => Listen
    case (OpenCl, OpenE) => Opening
    case (OpenCl, XferE) => CloseXfer
    case (OpenCl, ShutdownE) => if others then OpenCl else Shutdown
    case (OpenCl, ConnOpenE) => Closing
    case (OpenCl, ConnCloseE) => Listen
    case (OpenXfer, CloseE) => Closing
    case (OpenXfer, ShutdownE) => Shutting
    case (OpenXfer, ConnCloseE) => Opening
    case (Open, XferE) => CloseXfer
    case (Open, CloseE) => if begun then Closing else Open
    case (Open, ShutdownE) => if own then Shutting else Open
    case (Open, ConnCloseE) => Listen
    case (Closing, OpenE) => CloseOp
    case (Closing, XferE) => CloseXfer
    case (Closing, ShutdownE) => if own && !begun then Shutting else Closing
    case (Closing, ConnCloseE) => Listen
    case (CloseOp, CloseE) => Closing
    case (CloseOp, ShutdownE) => Shutting
    case (CloseOp, ConnCloseE) => Opening
    case (CloseXfer, CloseE) => Closing
    case (CloseXfer, ShutdownE) => Shutting
    case (CloseXfer, ConnCloseE) => Opening
    case (Shutting, ShutdownE) => if others then Listen else Shutdown
    case (Shutting, ConnCloseE) => if others || up then Listen else Shutdown
    case _ => st
  }

  lemma OthersStay(s: Sco, p: ScbId, x: Scb, curr: Option<ScbId>)
    requires p < |s.scb|
    ensures OtherScbOpen(SetScb(s, p, x), p) == OtherScbOpen(s, p)
    ensures OtherScbOpen(s.(curr := curr), p) == OtherScbOpen(s, p)
    ensures OtherScbOpen(SetScb(s, p, x).(curr := curr), p) == OtherScbOpen(s, p)
  {
    var t := SetScb(s, p, x);
    assert forall q :: 0 <= q < |s.scb| && q != p ==> t.scb[q] == s.scb[q];
  }

  // ---------------------------------------------------------------------------------------------
  // Who is called, closed, listened for and adopted

  /** The events on which the block is listened for, if it has no SCO. */
  predicate Listens(s: Sco, p: ScbId, e: Event)
    requires p < |s.scb|
  {
    || (e == ListenE && s.st in {Shutdown, Listen})
    || (e == ListenE && s.st in {Opening, Open, Closing, CloseOp, Shutting} && s.curr != Some(p))
    || (e == ConnCloseE && s.st in {Listen, Opening, OpenXfer, Open, Closing, CloseXfer})
    || (e == ConnCloseE && s.st == Shutting && s.scb[p].inUse && s.scb[p].slcOpen)
  }

  /** The index of a block once the closed block is listened for again. */
  function Relistened(s: Sco, p: ScbId, b: Btm, q: ScbId): int
    requires p < |s.scb| && q < |s.scb|
  {
    if q == p && s.scb[p].scoIdx == INVALID_SCO then (if b.listenIdx.Some? then b.listenIdx.value else INVALID_SCO)
    else s.scb[q].scoIdx
  }

  /** The block for which an event creates an originating SCO, once its own listening SCO is out of the way. */
  predicate Calls(s: Sco, p: ScbId, e: Event, b: Btm, q: ScbId)
    requires p < |s.scb|
  {
    || (s.st == Listen && e == OpenE && q == p && (s.scb[p].scoIdx == INVALID_SCO || b.remove == Gone))
    || (s.st == CloseOp && e == ConnCloseE && q == p && s.scb[p].scoIdx == INVALID_SCO)
    || (s.st == CloseXfer && e == ConnCloseE && s.xfer == Some(q) && q < |s.scb|
        && (Relistened(s, p, b, q) == INVALID_SCO || b.remove == Gone))
  }

  /** The block whose SCO an event tries to remove. */
  predicate Removes(s: Sco, p: ScbId, e: Event, b: Btm, q: ScbId)
    requires p < |s.scb| && q < |s.scb|
  {
    var active := s.scb[q].scoIdx == s.curIdx;
    || (q == p && s.st == Listen && e == OpenE)
    || (q == p && s.st in {Listen, Opening, OpenCl, OpenXfer, Open} && e == ShutdownE)
    || (q == p && s.st == Closing && e == ShutdownE && s.curr != Some(p))
    || (q == p && s.st in {OpenCl, CloseXfer, Shutting} && e == ConnOpenE && active)
    || (q == p && s.st in {OpenXfer, Open} && e == CloseE && active)
    || (s.curr == Some(q) && s.st == Open && e == XferE && active)
  }

  /** A shutdown takes the ownership from its own block alone, and in exactly these cases. */
  predicate Clears(s: Sco, e: Event) {
    || (e == ShutdownE && s.st in {Listen, Opening, OpenCl, Shutting})
    || (e == ConnCloseE && s.st == Shutting)
  }

  /** The waiting block is noted by a transfer request, and forgotten when the transfer is made or given up. */
  function Waits(s: Sco, p: ScbId, e: Event): Option<ScbId> {
    if e == XferE && s.st in {Opening, OpenCl, Open, Closing} then Some(p)
    else if s.st == OpenXfer && e == ConnCloseE then None
    else if s.st == CloseXfer && e in {CloseE, ShutdownE, ConnCloseE} then None
    else s.xfer
  }

  /** An event does what it must to the block q, and nothing else: the outcome is the state and the
      observations. */
  ghost predicate Right(s: Sco, p: ScbId, e: Event, b: Btm, q: ScbId, r: (Sco, seq<Obs>))
    requires p < |s.scb| && q < |s.scb|
  {
    var (s', xs) := r;
    && (ListenOn(q) in xs <==> q == p && s.scb[p].scoIdx == INVALID_SCO && Listens(s, p, e))
    && (Originate(q) in xs <==> Calls(s, p, e, b, q))
    && (RemoveStarted(q) in xs <==>
          && b.remove == CmdStarted
          && (|| (s.scb[q].scoIdx != INVALID_SCO && Removes(s, p, e, b, q))
              || (s.st == CloseXfer && e == ConnCloseE && s.xfer == Some(q)
                  && Relistened(s, p, b, q) != INVALID_SCO)))
    && (Adopted(q) in xs <==> s.st == OpenXfer && e == ConnCloseE && s.xfer == Some(q))
    && (Respond(q, true) in xs <==> Adopted(q) in xs) && Respond(q, false) !in xs
    && (Cleared(ShutdownOf(q)) in xs <==>
          q == p && Clears(s, e) && (s.curr == Some(q) || RemoveStarted(q) in xs))
    && s'.xfer == Waits(s, p, e)
  }

  /** Only such observations are made. */
  predicate Usual(x: Obs) {
    x.ListenOn? || x.Originate? || x.RemoveStarted? || x.Adopted? || x.Respond? || (x.Cleared? && x.why.ShutdownOf?)
  }

  ghost predicate Moved(s: Sco, p: ScbId, e: Event, r: (Sco, seq<Obs>))
    requires p < |s.scb|
  {
    var begun := RemoveStarted(p) in r.1;
    && r.0.st == Moves(s.st, e, begun, begun || s.curr == Some(p), OtherScbOpen(s, p), ScbOpen(s, p))
    && (forall x :: x in r.1 ==> Usual(x))
  }

  lemma RemoveObs(s: Sco, p: ScbId, onlyActive: bool, b: Btm)
    requires ValidSco(s) && p < |s.scb|
    ensures var (s', started, xs) := Remove(s, p, onlyActive, b);
            && (started <==> s.scb[p].scoIdx != INVALID_SCO && (onlyActive ==> s.scb[p].scoIdx == s.curIdx)
                             && b.remove == CmdStarted)
            && xs == (if started then [RemoveStarted(p)] else [])
            && s'.curr == (if started then Some(p) else s.curr)
            && s'.st == s.st && s'.xfer == s.xfer && OtherScbOpen(s', p) == OtherScbOpen(s, p)
  {
    OthersStay(s, p, s.scb[p].(scoIdx := INVALID_SCO), None);
    OthersStay(s, p, s.scb[p], Some(p));
  }

  lemma DropObs(s: Sco, p: ScbId, b: Btm)
    requires ValidSco(s) && p < |s.scb|
    ensures var (s', xs) := DropBlock(s, p, b);
            var begun := s.scb[p].scoIdx != INVALID_SCO && b.remove == CmdStarted;
            && s'.st == (if OtherScbOpen(s, p) then s.st else Shutdown) && s'.xfer == s.xfer
            && xs == (if begun then [RemoveStarted(p)] else [])
                     + (if begun || s.curr == Some(p) then [Cleared(ShutdownOf(p))] else [])
  {
    RemoveObs(s, p, false, b);
    var s1 := Remove(s, p, false, b).0;
    OthersStay(s1, p, s1.scb[p], None);
  }

  lemma DropRight(s: Sco, p: ScbId, b: Btm, q: ScbId, begun: bool, r: (Sco, seq<Obs>))
    requires s.st in {Listen, Opening, OpenCl} && p < |s.scb| && q < |s.scb|
    requires begun <==> s.scb[p].scoIdx != INVALID_SCO && b.remove == CmdStarted
    requires r.0.st == (if OtherScbOpen(s, p) then s.st else Shutdown) && r.0.xfer == s.xfer
    requires r.1 == (if begun then [RemoveStarted(p)] else [])
                    + (if begun || s.curr == Some(p) then [Cleared(ShutdownOf(p))] else [])
    ensures Right(s, p, ShutdownE, b, q, r) && Moved(s, p, ShutdownE, r)
  {
  }

  lemma DropExactly(s: Sco, p: ScbId, b: Btm, q: ScbId)
    requires ValidSco(s) && s.st in {Listen, Opening, OpenCl} && p < |s.scb| && q < |s.scb|
    ensures Right(s, p, ShutdownE, b, q, DropBlock(s, p, b)) && Moved(s, p, ShutdownE, DropBlock(s, p, b))
  {
    DropObs(s, p, b);
    DropRight(s, p, b, q, s.scb[p].scoIdx != INVALID_SCO && b.remove == CmdStarted, DropBlock(s, p, b));
  }

  lemma ShutdownExactly(s: Sco, p: ScbId, e: Event, b: Btm, q: ScbId)
    requires ValidSco(s) && s.st == Shutdown && p < |s.scb| && q < |s.scb|
    ensures Right(s, p, e, b, q, InShutdown(s, p, e, b)) && Moved(s, p, e, InShutdown(s, p, e, b))
  {
  }

  lemma ListenCalls(s: Sco, p: ScbId, b: Btm, q: ScbId)
    requires ValidSco(s) && s.st == Listen && p < |s.scb| && q < |s.scb|
    ensures Right(s, p, OpenE, b, q, InListen(s, p, OpenE, b)) && Moved(s, p, OpenE, InListen(s, p, OpenE, b))
  {
    RemoveObs(s, p, false, b);
    var (s1, started, o1) := Remove(s, p, false, b);
    assert InListen(s, p, OpenE, b).1 == o1 + (if s1.scb[p].scoIdx == INVALID_SCO then [Originate(p)] else []);
  }

  lemma ListenExactly(s: Sco, p: ScbId, e: Event, b: Btm, q: ScbId)
    requires ValidSco(s) && s.st == Listen && p < |s.scb| && q < |s.scb|
    ensures Right(s, p, e, b, q, InListen(s, p, e, b)) && Moved(s, p, e, InListen(s, p, e, b))
  {
    if e == ShutdownE { DropExactly(s, p, b, q); }
    else if e == OpenE { ListenCalls(s, p, b, q); }
  }

  lemma OpeningExactly(s: Sco, p: ScbId, e: Event, b: Btm, q: ScbId)
    requires ValidSco(s) && s.st == Opening && p < |s.scb| && q < |s.scb|
    ensures Right(s, p, e, b, q, InOpening(s, p, e, b)) && Moved(s, p, e, InOpening(s, p, e, b))
  {
    if e == ShutdownE { DropExactly(s, p, b, q); }
  }

  lemma OpenClExactly(s: Sco, p: ScbId, e: Event, b: Btm, q: ScbId)
    requires ValidSco(s) && s.st == OpenCl && p < |s.scb| && q < |s.scb|
    ensures Right(s, p, e, b, q, InOpenCl(s, p, e, b)) && Moved(s, p, e, InOpenCl(s, p, e, b))
  {
    if e == ShutdownE { DropExactly(s, p, b, q); }
    else if e == ConnOpenE { RemoveObs(s, p, true, b); }
  }

  lemma OpenXferAdopts(s: Sco, p: ScbId, b: Btm, q: ScbId)
    requires ValidSco(s) && s.st == OpenXfer && p < |s.scb| && q < |s.scb|
    ensures var r := InOpenXfer(s, p, ConnCloseE, b); Right(s, p, ConnCloseE, b, q, r) && Moved(s, p, ConnCloseE, r)
  {
    var w := s.xfer.value;
    assert InOpenXfer(s, p, ConnCloseE, b).1 ==
      (if s.scb[p].scoIdx == INVALID_SCO then [ListenOn(p)] else []) + [Respond(w, true), Adopted(w)];
  }

  lemma OpenXferExactly(s: Sco, p: ScbId, e: Event, b: Btm, q: ScbId)
    requires ValidSco(s) && s.st == OpenXfer && p < |s.scb| && q < |s.scb|
    ensures Right(s, p, e, b, q, InOpenXfer(s, p, e, b)) && Moved(s, p, e, InOpenXfer(s, p, e, b))
  {
    if e == ConnCloseE { OpenXferAdopts(s, p, b, q); }
    else if e == ShutdownE { RemoveObs(s, p, false, b); }
    else { RemoveObs(s, p, true, b); }
  }

  lemma OpenRemoves(s: Sco, p: ScbId, e: Event, b: Btm, q: ScbId)
    requires ValidSco(s) && s.st == Open && p < |s.scb| && q < |s.scb|
    requires s.curr.Some? && e in {XferE, CloseE, ShutdownE}
    ensures Right(s, p, e, b, q, InOpen(s, p, e, b)) && Moved(s, p, e, InOpen(s, p, e, b))
  {
    if e == XferE { RemoveObs(s, s.curr.value, true, b); } else { RemoveObs(s, p, e == CloseE, b); }
  }

  lemma OpenExactly(s: Sco, p: ScbId, e: Event, b: Btm, q: ScbId)
    requires ValidSco(s) && s.st == Open && p < |s.scb| && q < |s.scb| && (e == XferE ==> s.curr.Some?)
    ensures Right(s, p, e, b, q, InOpen(s, p, e, b)) && Moved(s, p, e, InOpen(s, p, e, b))
  {
    if e in {XferE, CloseE, ShutdownE} && s.curr.Some? { OpenRemoves(s, p, e, b, q); }
    else if e in {CloseE, ShutdownE} { RemoveObs(s, p, e == CloseE, b); }
  }

  lemma ClosingExactly(s: Sco, p: ScbId, e: Event, b: Btm, q: ScbId)
    requires ValidSco(s) && s.st == Closing && p < |s.scb| && q < |s.scb|
    ensures Right(s, p, e, b, q, InClosing(s, p, e, b)) && Moved(s, p, e, InClosing(s, p, e, b))
  {
  }

  lemma CloseOpExactly(s: Sco, p: ScbId, e: Event, b: Btm, q: ScbId)
    requires ValidSco(s) && s.st == CloseOp && p < |s.scb| && q < |s.scb|
    ensures Right(s, p, e, b, q, InCloseOp(s, p, e, b)) && Moved(s, p, e, InCloseOp(s, p, e, b))
  {
  }

  lemma TransferObs(s: Sco, p: ScbId, b: Btm)
    requires ValidSco(s) && s.st == CloseXfer && p < |s.scb|
    ensures var (s', xs) := InCloseXfer(s, p, ConnCloseE, b);
            var q, listens := s.xfer.value, s.scb[p].scoIdx == INVALID_SCO;
            var left := Relistened(s, p, b, q) != INVALID_SCO;
            && s'.st == Opening && s'.xfer == None
            && xs == (if listens then [ListenOn(p)] else [])
                     + (if left && b.remove == CmdStarted then [RemoveStarted(q)] else [])
                     + (if !left || b.remove == Gone then [Originate(q)] else [])
  {
    var q := s.xfer.value;
    var (s1, o1) := CreateListen(s, p, b);
    assert s1.scb[q].scoIdx == Relistened(s, p, b, q);
    RemoveObs(s1, q, false, b);
  }

  lemma TransferRight(s: Sco, p: ScbId, b: Btm, q: ScbId, w: ScbId, left: bool, r: (Sco, seq<Obs>))
    requires s.st == CloseXfer && p < |s.scb| && q < |s.scb| && s.xfer == Some(w) && w < |s.scb|
    requires left <==> Relistened(s, p, b, w) != INVALID_SCO
    requires r.0.st == Opening && r.0.xfer == None
    requires r.1 == (if s.scb[p].scoIdx == INVALID_SCO then [ListenOn(p)] else [])
                    + (if left && b.remove == CmdStarted then [RemoveStarted(w)] else [])
                    + (if !left || b.remove == Gone then [Originate(w)] else [])
    ensures Right(s, p, ConnCloseE, b, q, r) && Moved(s, p, ConnCloseE, r)
  {
  }

  lemma CloseXferExactly(s: Sco, p: ScbId, e: Event, b: Btm, q: ScbId)
    requires ValidSco(s) && s.st == CloseXfer && p < |s.scb| && q < |s.scb|
    ensures Right(s, p, e, b, q, InCloseXfer(s, p, e, b)) && Moved(s, p, e, InCloseXfer(s, p, e, b))
  {
    if e == ConnCloseE {
      TransferObs(s, p, b);
      var w := s.xfer.value;
      TransferRight(s, p, b, q, w, Relistened(s, p, b, w) != INVALID_SCO, InCloseXfer(s, p, e, b));
    } else {
      RemoveObs(s, p, true, b);
    }
  }

  lemma ShuttingObs(s: Sco, p: ScbId, b: Btm)
    requires ValidSco(s) && s.st == Shutting && p < |s.scb|
    ensures var (s', xs) := InShutting(s, p, ConnCloseE, b);
            && s'.st == (if OtherScbOpen(s, p) || ScbOpen(s, p) then Listen else Shutdown) && s'.xfer == s.xfer
            && xs == (if ScbOpen(s, p) && s.scb[p].scoIdx == INVALID_SCO then [ListenOn(p)] else [])
                     + (if s.curr == Some(p) then [Cleared(ShutdownOf(p))] else [])
  {
    var s1 := s.(st := if OtherScbOpen(s, p) then Listen else Shutdown);
    var (s2, o2) := if ScbOpen(s1, p) then Relisten(s1, p, b) else (s1, []);
    assert s2.curr == s.curr;
  }

  lemma ShuttingRight(s: Sco, p: ScbId, b: Btm, q: ScbId, r: (Sco, seq<Obs>))
    requires s.st == Shutting && p < |s.scb| && q < |s.scb|
    requires r.0.st == (if OtherScbOpen(s, p) || ScbOpen(s, p) then Listen else Shutdown) && r.0.xfer == s.xfer
    requires r.1 == (if ScbOpen(s, p) && s.scb[p].scoIdx == INVALID_SCO then [ListenOn(p)] else [])
                    + (if s.curr == Some(p) then [Cleared(ShutdownOf(p))] else [])
    ensures Right(s, p, ConnCloseE, b, q, r) && Moved(s, p, ConnCloseE, r)
  {
  }

  lemma ShuttingForgets(s: Sco, p: ScbId, b: Btm, q: ScbId)
    requires ValidSco(s) && s.st == Shutting && p < |s.scb| && q < |s.scb|
    ensures var r := InShutting(s, p, ShutdownE, b); Right(s, p, ShutdownE, b, q, r) && Moved(s, p, ShutdownE, r)
  {
    assert InShutting(s, p, ShutdownE, b).1 == if s.curr == Some(p) then [Cleared(ShutdownOf(p))] else [];
  }

  lemma ShuttingRest(s: Sco, p: ScbId, e: Event, b: Btm, q: ScbId)
    requires ValidSco(s) && s.st == Shutting && p < |s.scb| && q < |s.scb| && e !in {ConnCloseE, ShutdownE}
    ensures Right(s, p, e, b, q, InShutting(s, p, e, b)) && Moved(s, p, e, InShutting(s, p, e, b))
  {
    RemoveObs(s, p, true, b);
  }

  lemma ShuttingExactly(s: Sco, p: ScbId, e: Event, b: Btm, q: ScbId)
    requires ValidSco(s) && s.st == Shutting && p < |s.scb| && q < |s.scb|
    ensures Right(s, p, e, b, q, InShutting(s, p, e, b)) && Moved(s, p, e, InShutting(s, p, e, b))
  {
    if e == ConnCloseE {
      ShuttingObs(s, p, b);
      ShuttingRight(s, p, b, q, InShutting(s, p, e, b));
    } else if e == ShutdownE {
      ShuttingForgets(s, p, b, q);
    } else {
      ShuttingRest(s, p, e, b, q);
    }
  }

  /** Every event in every state leads where it must, and does to every block exactly what it must. */
  lemma EventExactly(s: Sco, p: ScbId, e: Event, b: Btm, q: ScbId)
    requires ValidSco(s) && p < |s.scb| && q < |s.scb| && (e == XferE ==> s.curr.Some?)
    ensures Right(s, p, e, b, q, ScoEvent(s, p, e, b)) && Moved(s, p, e, ScoEvent(s, p, e, b))
  {
    match s.st
    case Shutdown => ShutdownExactly(s, p, e, b, q);
    case Listen => ListenExactly(s, p, e, b, q);
    case Opening => OpeningExactly(s, p, e, b, q);
    case OpenCl => OpenClExactly(s, p, e, b, q);
    case OpenXfer => OpenXferExactly(s, p, e, b, q);
    case Open => OpenExactly(s, p, e, b, q);
    case Closing => ClosingExactly(s, p, e, b, q);
    case CloseOp => CloseOpExactly(s, p, e, b, q);
    case CloseXfer => CloseXferExactly(s, p, e, b, q);
    case Shutting => ShuttingExactly(s, p, e, b, q);
  }

  // ---------------------------------------------------------------------------------------------
  // The blocks

  predicate SameUse(a: Scb, b: Scb) {
    a.inUse == b.inUse && a.slcOpen == b.slcOpen && a.svcConn == b.svcConn && a.escoCapable == b.escoCapable
  }

  /** What the three dealings with BTM do to the block: a free block gets the index it is given, listening or
      originating; only an SCO found gone is forgotten. The retry as plain SCO is armed when an eSCO is
      originated for a capable peer, and disarmed by every other creation. */
  lemma DealingsExactly(s: Sco, p: ScbId, b: Btm, onlyActive: bool)
    requires ValidSco(s) && p < |s.scb|
    ensures var free, blk := s.scb[p].scoIdx == INVALID_SCO, s.scb[p];
            var (l, o, r) := (CreateListen(s, p, b).0, CreateOrig(s, p, b).0, Remove(s, p, onlyActive, b).0);
            var heard := if b.listenIdx.Some? then b.listenIdx.value else INVALID_SCO;
            var called := if b.origIdx.Some? then b.origIdx.value else INVALID_SCO;
            && l == (if free then s.(scb := s.scb[p := blk.(scoIdx := heard, retryScoOnly := false)]) else s)
            && (if free then
                  && o.scb == s.scb[p := blk.(scoIdx := called,
                                              retryScoOnly := blk.escoCapable && b.escoPackets && !blk.retryScoOnly)]
                  && o.curr == Some(p) && o.curIdx == called && o.st == s.st && o.xfer == s.xfer
                else o == s)
            && r.scb == (if !free && (onlyActive ==> blk.scoIdx == s.curIdx) && b.remove == Gone
                         then s.scb[p := blk.(scoIdx := INVALID_SCO)] else s.scb)
            && r.curIdx == s.curIdx
  {
  }

  /** The block is untouched where the event does not concern it, and keeps what other parts of the gateway
      have put there. */
  predicate Kept(s: Sco, p: ScbId, q: ScbId, s': Sco)
    requires q < |s.scb|
  {
    && q < |s'.scb| && SameUse(s'.scb[q], s.scb[q])
    && (q != p && s.curr != Some(q) && s.xfer != Some(q) ==> s'.scb[q] == s.scb[q])
  }

  lemma DealingsKeep(s: Sco, p: ScbId, b: Btm, onlyActive: bool, q: ScbId)
    requires ValidSco(s) && p < |s.scb| && q < |s.scb|
    ensures var (l, o, r) := (CreateListen(s, p, b).0, CreateOrig(s, p, b).0, Remove(s, p, onlyActive, b).0);
            && SameUse(l.scb[q], s.scb[q]) && SameUse(o.scb[q], s.scb[q]) && SameUse(r.scb[q], s.scb[q])
            && (q != p ==> l.scb[q] == s.scb[q] && o.scb[q] == s.scb[q] && r.scb[q] == s.scb[q])
            && l.xfer == s.xfer && l.curr == s.curr && r.xfer == s.xfer
  {
  }

  lemma DropKept(s: Sco, p: ScbId, b: Btm, q: ScbId)
    requires ValidSco(s) && p < |s.scb| && q < |s.scb|
    ensures Kept(s, p, q, DropBlock(s, p, b).0)
  {
    DealingsKeep(s, p, b, false, q);
    assert DropBlock(s, p, b).0.scb == Remove(s, p, false, b).0.scb;
  }

  lemma EarlyKept(s: Sco, p: ScbId, e: Event, b: Btm, q: ScbId)
    requires ValidSco(s) && p < |s.scb| && q < |s.scb|
    ensures Kept(s, p, q, InShutdown(s, p, e, b).0) && Kept(s, p, q, InListen(s, p, e, b).0)
  {
    DealingsKeep(s, p, b, false, q);
    if e == OpenE {
      var s1 := Remove(s, p, false, b).0;
      DealingsKeep(s1, p, b, false, q);
      assert InListen(s, p, e, b).0.scb == CreateOrig(s1, p, b).0.scb;
    } else if e == ShutdownE {
      DropKept(s, p, b, q);
    }
  }

  lemma OpeningKept(s: Sco, p: ScbId, e: Event, b: Btm, q: ScbId)
    requires ValidSco(s) && p < |s.scb| && q < |s.scb|
    ensures Kept(s, p, q, InOpening(s, p, e, b).0) && Kept(s, p, q, InOpenCl(s, p, e, b).0)
  {
    DealingsKeep(s, p, b, true, q);
    if e == ShutdownE { DropKept(s, p, b, q); }
  }

  lemma OpenKept(s: Sco, p: ScbId, e: Event, b: Btm, q: ScbId)
    requires ValidSco(s) && p < |s.scb| && q < |s.scb| && (e == XferE ==> s.curr.Some?)
    ensures s.st == OpenXfer ==> Kept(s, p, q, InOpenXfer(s, p, e, b).0)
    ensures Kept(s, p, q, InOpen(s, p, e, b).0)
  {
    DealingsKeep(s, p, b, e == CloseE, q);
    if e == XferE { DealingsKeep(s, s.curr.value, b, true, q); }
  }

  lemma ClosingKept(s: Sco, p: ScbId, e: Event, b: Btm, q: ScbId)
    requires ValidSco(s) && p < |s.scb| && q < |s.scb|
    ensures Kept(s, p, q, InClosing(s, p, e, b).0) && Kept(s, p, q, InCloseOp(s, p, e, b).0)
  {
    DealingsKeep(s, p, b, false, q);
  }

  lemma CloseXferKept(s: Sco, p: ScbId, e: Event, b: Btm, q: ScbId)
    requires ValidSco(s) && s.st == CloseXfer && p < |s.scb| && q < |s.scb|
    ensures Kept(s, p, q, InCloseXfer(s, p, e, b).0)
  {
    DealingsKeep(s, p, b, true, q);
    if e == ConnCloseE {
      var w, s1 := s.xfer.value, CreateListen(s, p, b).0;
      DealingsKeep(s1, w, b, false, q);
      var s2 := Remove(s1, w, false, b).0;
      DealingsKeep(s2, w, b, false, q);
      assert InCloseXfer(s, p, e, b).0.scb == CreateOrig(s2, w, b).0.scb;
    }
  }

  lemma ForgetKeeps(s: Sco, p: ScbId, q: ScbId)
    requires ValidSco(s) && p < |s.scb| && q < |s.scb|
    ensures SameUse(ForgetBlock(s, p).0.scb[q], s.scb[q]) && (q != p ==> ForgetBlock(s, p).0.scb[q] == s.scb[q])
  {
  }

  lemma ShuttingClosedKept(s: Sco, p: ScbId, b: Btm, q: ScbId)
    requires ValidSco(s) && p < |s.scb| && q < |s.scb|
    ensures Kept(s, p, q, InShutting(s, p, ConnCloseE, b).0)
  {
    var s1 := s.(st := if OtherScbOpen(s, p) then Listen else Shutdown);
    DealingsKeep(s1, p, b, true, q);
    var s2 := if ScbOpen(s1, p) then Relisten(s1, p, b).0 else s1;
    ForgetKeeps(s2, p, q);
    assert InShutting(s, p, ConnCloseE, b).0 == ForgetBlock(s2, p).0;
  }

  lemma ShuttingKept(s: Sco, p: ScbId, e: Event, b: Btm, q: ScbId)
    requires ValidSco(s) && p < |s.scb| && q < |s.scb|
    ensures Kept(s, p, q, InShutting(s, p, e, b).0)
  {
    if e == ConnCloseE {
      ShuttingClosedKept(s, p, b, q);
    } else if e == ShutdownE {
      ForgetKeeps(s.(st := if OtherScbOpen(s, p) then Listen else Shutdown), p, q);
    } else {
      DealingsKeep(s, p, b, true, q);
    }
  }

  lemma BlocksStay(s: Sco, p: ScbId, e: Event, b: Btm, q: ScbId)
    requires ValidSco(s) && p < |s.scb| && q < |s.scb| && (e == XferE ==> s.curr.Some?)
    ensures Kept(s, p, q, ScoEvent(s, p, e, b).0)
  {
    match s.st
    case Shutdown => EarlyKept(s, p, e, b, q);
    case Listen => EarlyKept(s, p, e, b, q);
    case Opening => OpeningKept(s, p, e, b, q);
    case OpenCl => OpeningKept(s, p, e, b, q);
    case OpenXfer => OpenKept(s, p, e, b, q);
    case Open => OpenKept(s, p, e, b, q);
    case Closing => ClosingKept(s, p, e, b, q);
    case CloseOp => ClosingKept(s, p, e, b, q);
    case CloseXfer => CloseXferKept(s, p, e, b, q);
    case Shutting => ShuttingKept(s, p, e, b, q);
  }

  // ---------------------------------------------------------------------------------------------
  // Exchanges

  /** A block asks for the audio while nobody has it: it is called and owns the audio. */
  lemma OpenServed(s: Sco, p: ScbId, b: Btm)
    requires ValidSco(s) && p < |s.scb| && s.st == Listen && (s.curr == None || s.curr == Some(p))
    requires s.scb[p].scoIdx == INVALID_SCO || b.remove == Gone
    ensures var (s', xs) := Next(s, ApiOpen(p, b));
            xs == [Originate(p)] && s'.st == Opening && s'.curr == Some(p) && s'.xfer == s.xfer
  {
  }

  /** No retry as plain SCO is due when this block's connection closes. */
  predicate NoRetry(s: Sco, p: ScbId)
    requires p < |s.scb|
  {
    !(s.scb[p].retryScoOnly && s.scb[p].svcConn)
  }

  /** When this block's connection closes, the block that waits for the audio can be called. */
  predicate TransferDue(s: Sco, p: ScbId, b: Btm)
    requires ValidSco(s) && p < |s.scb|
  {
    && s.st == CloseXfer && s.xfer != Some(p) && NoRetry(s, p)
    && (s.scb[s.xfer.value].scoIdx == INVALID_SCO || b.remove == Gone)
  }

  /** The closed block is listened for and the block that waited is called; it and nobody else owns the
      audio. */
  ghost predicate Transferred(s: Sco, p: ScbId, s': Sco, xs: seq<Obs>) {
    && s.xfer.Some? && xs == [Cleared(ClosedEvent(p)), AudioOff(p, true), ListenOn(p), Originate(s.xfer.value)]
    && s'.st == Opening && s'.curr == s.xfer && s'.xfer == None
  }

  lemma TransferEvent(s: Sco, p: ScbId, b: Btm)
    requires ValidSco(s) && p < |s.scb| && TransferDue(s, p, b) && s.scb[p].scoIdx == INVALID_SCO
    ensures var (s', xs) := InCloseXfer(s, p, ConnCloseE, b);
            && xs == [ListenOn(p), Originate(s.xfer.value)]
            && s'.st == Opening && s'.curr == s.xfer && s'.xfer == None
            && s'.scb[p].scoIdx == (if b.listenIdx.Some? then b.listenIdx.value else INVALID_SCO)
            && s'.curIdx == s'.scb[s.xfer.value].scoIdx == Index(b.origIdx)
  {
    var q := s.xfer.value;
    var (s1, o1) := CreateListen(s, p, b);
    var (s2, _, o2) := Remove(s1, q, false, b);
    assert o1 == [ListenOn(p)] && o2 == [] && CreateOrig(s2, q, b).1 == [Originate(q)];
    assert [ListenOn(p)] + [] + [Originate(q)] == [ListenOn(p), Originate(q)];
  }

  /** A transfer is completed when the old connection has closed. */
  lemma TransferMade(s: Sco, p: ScbId, b: Btm)
    requires ValidSco(s) && p < |s.scb| && TransferDue(s, p, b)
    ensures var (s', xs) := Next(s, MsgConnClose(p, b));
            && Transferred(s, p, s', xs)
            && s'.scb[p].scoIdx == (if b.listenIdx.Some? then b.listenIdx.value else INVALID_SCO)
            && s'.curIdx == s'.scb[s.xfer.value].scoIdx == Index(b.origIdx)
  {
    var s1 := SetScb(s, p, s.scb[p].(scoIdx := INVALID_SCO)).(curr := None);
    TransferEvent(s1, p, b);
  }

  /** All that a closed connection means for the ownership of the audio. */
  lemma CloseMeans(s: Sco, p: ScbId, b: Btm, r: (Sco, seq<Obs>))
    requires ValidSco(s) && p < |s.scb| && r == ConnClosed(s, p, b)
    ensures Accounts(s.curr, r.1, r.0.curr) && |r.0.scb| == |s.scb| && !r.0.scb[p].retryScoOnly
    ensures forall q: ScbId :: Originate(q) in r.1 ==> q == p || Some(q) == s.xfer
    ensures forall q: ScbId :: Adopted(q) in r.1 ==> Some(q) == s.xfer
    ensures TransferDue(s, p, b) ==> Transferred(s, p, r.0, r.1)
  {
    ConnClosedAccounts(s, p, b);
    CloseCalls(s, p, b);
    if TransferDue(s, p, b) { TransferMade(s, p, b); }
  }

  predicate Asks(t: Step) { t.ApiOpen? || t.ApiListen? }

  lemma {:induction false} TransferStands(s: Sco, ts: seq<Step>)
    requires ValidSco(s) && AllEnabled(|s.scb|, ts) && s.st == CloseXfer && s.curr.Some?
    requires forall i :: 0 <= i < |ts| ==> Asks(ts[i])
    ensures Run(s, ts) == (s, [])
  {
    if ts != [] {
      TransferStands(s, ts[..|ts|-1]);
      assert Asks(ts[|ts|-1]);
      assert Next(s, ts[|ts|-1]) == (s, []);
      var none: seq<Obs> := [];
      assert none + none == none;
    }
  }

  /** First come, first served: a second block asks for the audio while the first has it; whoever else asks
      before the first is closed, exactly the block that asked first is called. */
  lemma TransferServed(s: Sco, p: ScbId, q: ScbId, b: Btm, ts: seq<Step>, b': Btm)
    requires ValidSco(s) && s.st == Open && s.curr == Some(p) && q < |s.scb| && q != p && NoRetry(s, p)
    requires s.scb[p].scoIdx != INVALID_SCO && s.scb[p].scoIdx == s.curIdx && b.remove == CmdStarted
    requires AllEnabled(|s.scb|, ts) && forall i :: 0 <= i < |ts| ==> Asks(ts[i])
    requires s.scb[q].scoIdx == INVALID_SCO || b'.remove == Gone
    ensures var (s1, xs) := Next(s, ApiOpen(q, b));
            var (s2, ys) := Run(s1, ts);
            var (s3, zs) := Next(s2, MsgConnClose(p, b'));
            && xs == [RemoveStarted(p)] && ys == []
            && zs == [Cleared(ClosedEvent(p)), AudioOff(p, true), ListenOn(p), Originate(q)]
            && s3.st == Opening && s3.curr == Some(q) && s3.xfer == None
  {
    var s1 := Next(s, ApiOpen(q, b)).0;
    assert s1 == s.(xfer := Some(q), st := CloseXfer);
    TransferStands(s1, ts);
    TransferMade(s1, p, b');
  }

  /** An incoming transfer is completed: when the old connection has closed, its block is listened for and the
      connection that waits is accepted and owns the audio. */
  lemma IncomingMade(s: Sco, p: ScbId, q: ScbId, b: Btm)
    requires ValidSco(s) && s.st == OpenXfer && s.xfer == Some(q) && p < |s.scb| && q != p && NoRetry(s, p)
    ensures var (s', xs) := Next(s, MsgConnClose(p, b));
            && xs == [Cleared(ClosedEvent(p)), AudioOff(p, true), ListenOn(p), Respond(q, true), Adopted(q)]
            && s'.st == Opening && s'.curr == Some(q) && s'.xfer == None && s'.curIdx == s.scb[q].scoIdx
  {
    var c := SetScb(s, p, s.scb[p].(scoIdx := INVALID_SCO)).(curr := None);
    assert ScoEvent(c, p, ConnCloseE, b).1 == [ListenOn(p), Respond(q, true), Adopted(q)];
  }

  /** A second headset calls in while the first has the audio: the first is closed for it. If that cannot be
      done, the second is accepted at once. */
  lemma IncomingServed(s: Sco, p: ScbId, q: ScbId, idx: nat, b: Btm)
    requires ValidSco(s) && s.curr == Some(p) && q < |s.scb| && q != p && s.scb[q].inUse && s.scb[q].svcConn
    ensures var (s1, xs) := Next(s, CbRequest(idx, Some(q), b));
            && s1.scb[q].scoIdx == idx && s1.curr == Some(p)
            && (if s.scb[p].scoIdx != INVALID_SCO && s.scb[p].scoIdx == s.curIdx && b.remove == CmdStarted
                then xs == [RemoveStarted(p)] && s1.st == OpenXfer && s1.xfer == Some(q)
                else xs == [Respond(q, true)] && s1.st == Listen && s1.xfer == None)
  {
    var none: seq<Obs> := [];
    assert none + [Respond(q, true)] == [Respond(q, true)];
  }

  lemma IncomingRefused(s: Sco, idx: nat, peer: Option<ScbId>, b: Btm)
    requires ValidSco(s)
    ensures RejectUnknown in ConnRequest(s, idx, peer, b).1 <==>
              !(peer.Some? && peer.value < |s.scb| && s.scb[peer.value].inUse && s.scb[peer.value].svcConn)
    ensures RejectUnknown in ConnRequest(s, idx, peer, b).1 ==> ConnRequest(s, idx, peer, b) == (s, [RejectUnknown])
  {
  }

  /** The audio is given back: the connection is closed, and when it is, the block is listened for and
      nobody owns the audio. */
  lemma CloseServed(s: Sco, p: ScbId, b: Btm, b': Btm)
    requires ValidSco(s) && s.st == Open && s.curr == Some(p) && s.xfer == None && NoRetry(s, p)
    requires s.scb[p].scoIdx != INVALID_SCO && s.scb[p].scoIdx == s.curIdx && b.remove == CmdStarted
    ensures var (s1, xs) := Next(s, ApiClose(p, b));
            var (s2, ys) := Next(s1, MsgConnClose(p, b'));
            && xs == [RemoveStarted(p)] && s1.st == Closing && s1.curr == Some(p)
            && ys == [Cleared(ClosedEvent(p)), AudioOff(p, false), ListenOn(p)]
            && s2.st == Listen && s2.curr == None
  {
    var s1 := Next(s, ApiClose(p, b)).0;
    var c := SetScb(s1, p, s1.scb[p].(scoIdx := INVALID_SCO)).(curr := None);
    assert ScoEvent(c, p, ConnCloseE, b').1 == [ListenOn(p)];
  }

  /** An open request that comes while the connection is being closed is served after the close; another
      close request takes it back. */
  lemma ReopenServed(s: Sco, p: ScbId, b: Btm, b': Btm)
    requires ValidSco(s) && s.st == Closing && s.curr == Some(p) && s.xfer == None && NoRetry(s, p)
    ensures var (s1, xs) := Next(s, ApiOpen(p, b));
            var (s2, ys) := Next(s1, MsgConnClose(p, b'));
            && xs == [] && s1 == s.(st := CloseOp)
            && ys == [Cleared(ClosedEvent(p)), AudioOff(p, false), Originate(p)]
            && s2.st == Opening && s2.curr == Some(p)
            && (s.scb[p].scoIdx != INVALID_SCO ==> Next(s1, ApiClose(p, b)) == (s, []))
  {
    var s1 := Next(s, ApiOpen(p, b)).0;
    var c := SetScb(s1, p, s1.scb[p].(scoIdx := INVALID_SCO)).(curr := None);
    assert ScoEvent(c, p, ConnCloseE, b').1 == [Originate(p)];
  }

  /** A close request that comes while the connection is being opened is served as soon as it is open;
      another open request takes it back. */
  lemma RecloseServed(s: Sco, p: ScbId, b: Btm, b': Btm)
    requires ValidSco(s) && s.st == Opening && s.curr == Some(p)
    requires s.scb[p].scoIdx != INVALID_SCO && s.scb[p].scoIdx == s.curIdx && b'.remove == CmdStarted
    ensures var (s1, xs) := Next(s, ApiClose(p, b));
            var (s2, ys) := Next(s1, MsgConnOpen(p, b'));
            && xs == [] && s1 == s.(st := OpenCl)
            && ys == [RemoveStarted(p)] && s2.st == Closing && s2.curr == Some(p)
            && Next(s1, ApiOpen(p, b)) == (s, [])
  {
  }

  /** A failed eSCO is tried once more as plain SCO, unannounced, and not a third time. */
  lemma RetriedOnce(s: Sco, p: ScbId, b: Btm, b': Btm)
    requires ValidSco(s) && p < |s.scb| && s.scb[p].retryScoOnly && s.scb[p].svcConn
    ensures var (s1, xs) := Next(s, MsgConnClose(p, b));
            var (s2, ys) := Next(s1, MsgConnClose(p, b'));
            && xs == [Cleared(ClosedEvent(p)), Originate(p)] && s1.curr == Some(p) && s1.st == s.st
            && !s1.scb[p].retryScoOnly
            && |ys| >= 2 && ys[1] == AudioOff(p, s.xfer.Some?)
  {
  }

  /** Whom the callbacks are for: the owner while it is in use; an opened connection without such an owner goes
      to the peer's block if that has its service level connection. */
  lemma CallbacksExactly(s: Sco, idx: nat, peer: Option<ScbId>, q: ScbId)
    requires ValidSco(s)
    ensures var owned := s.curr.Some? && s.scb[s.curr.value].inUse;
            var found := peer.Some? && peer.value < |s.scb| && s.scb[peer.value].inUse && s.scb[peer.value].svcConn;
            var (s1, xs) := Next(s, CbConn(idx, peer));
            var (s2, ys) := Next(s, CbDisc(idx));
            && (PostOpen(q) in xs <==> if owned then s.curr == Some(q) else found && peer == Some(q))
            && (Dropped(idx) in xs <==> !owned && !found)
            && (if owned || found then s1 == s else s1 == s.(curr := None, st := Shutdown))
            && (PostClose(q) in ys <==> owned && s.curr == Some(q) && s.scb[q].scoIdx in {idx, INVALID_SCO})
            && (if s.curr.Some? && !owned
                then s2.curr == None && s2.st == Shutdown && s2.scb[s.curr.value].scoIdx == INVALID_SCO
                else s2 == s)
  {
  }

  /** The last headset leaves: its connection is closed, and the machine shuts down when it is. */
  lemma ShutdownServed(s: Sco, p: ScbId, b: Btm, b': Btm)
    requires ValidSco(s) && s.st == Open && s.curr == Some(p) && s.xfer == None && NoRetry(s, p)
    requires s.scb[p].scoIdx != INVALID_SCO && b.remove == CmdStarted && !OtherScbOpen(s, p) && !ScbOpen(s, p)
    ensures var (s1, xs) := Next(s, ApiShutdown(p, b));
            var (s2, ys) := Next(s1, MsgConnClose(p, b'));
            && xs == [RemoveStarted(p)] && s1.st == Shutting
            && ys == [Cleared(ClosedEvent(p)), AudioOff(p, false)] && s2.st == Shutdown && s2.curr == None
  {
    var s1 := Next(s, ApiShutdown(p, b)).0;
    var c := SetScb(s1, p, s1.scb[p].(scoIdx := INVALID_SCO)).(curr := None);
    assert !OtherScbOpen(c, p);
    assert ScoEvent(c, p, ConnCloseE, b').1 == [];
  }

  /** A shutdown that is already under way forgets the owner and its connection. */
  lemma ShutdownForgets(s: Sco, p: ScbId, b: Btm)
    requires ValidSco(s) && s.st == Shutting && s.curr == Some(p)
    ensures var (s', xs) := Next(s, ApiShutdown(p, b));
            && xs == [Cleared(ShutdownOf(p))] && s'.curr == None && s'.scb[p].scoIdx == INVALID_SCO
            && s'.st == (if OtherScbOpen(s, p) then Listen else Shutdown)
  {
  }

  /** An opened connection makes the audio available and ends the retry; a closed one ends it too. A close
      request for a block without connection is ignored. */
  lemma ConnectionSettles(s: Sco, p: ScbId, b: Btm)
    requires ValidSco(s) && p < |s.scb|
    ensures !Next(s, MsgConnOpen(p, b)).0.scb[p].retryScoOnly && !Next(s, MsgConnClose(p, b)).0.scb[p].retryScoOnly
    ensures s.st == Opening ==>
              Next(s, MsgConnOpen(p, b)) == (s.(st := Open, scb := s.scb[p := s.scb[p].(retryScoOnly := false)]), [])
    ensures s.scb[p].scoIdx == INVALID_SCO ==> Next(s, ApiClose(p, b)) == (s, [])
  {
  }

  /** What other parts of the gateway do to a block. */
  lemma BlockUpdates(s: Sco, p: ScbId, inUse: bool, up: bool, svcConn: bool, esco: bool)
    requires ValidSco(s) && p < |s.scb|
    ensures var (s', xs) := Next(s, Update(p, inUse, up, svcConn, esco));
            && xs == [] && s'.(scb := s.scb) == s && s'.scb == s.scb[p := s'.scb[p]]
            && s'.scb[p] == Scb(s.scb[p].scoIdx, s.scb[p].retryScoOnly, inUse, up, svcConn, esco)
    ensures var (s', xs) := Next(s, Dealloc(p));
            && xs == [] && s'.(scb := s.scb) == s && s'.scb == s.scb[p := s'.scb[p]]
            && s'.scb[p] == Scb(INVALID_SCO, false, false, false, false, false)
  {
  }
}
