/**
 The audio gateway's SCO ownership and transfer machine in the CVSD-only build
 (bta/ag/bta_ag_sco.c with BTM_WBS_INCLUDED and BTM_SCO_HCI_INCLUDED false), as functions on an
 explicit state. Service control blocks are numbered; a pointer to one is an Option of its number.
 Answers of the layer below (BTM) are inputs of each step.
 */
module ScoSpec {
  import opened Common

  type ScbId = nat

  const INVALID_SCO := 0xFFFF

  datatype ScoState =
    | Shutdown | Listen | Opening | OpenCl | OpenXfer | Open | Closing | CloseOp | CloseXfer | Shutting

  /** The fields of a service control block that the machine reads or writes. */
  datatype Scb = Scb(
    scoIdx: int,           // SCO handle
    retryScoOnly: bool,    // retry_with_sco_only
    inUse: bool,
    slcOpen: bool,         // the block's own state is BTA_AG_OPEN_ST
    svcConn: bool,         // service level connection up
    escoCapable: bool)     // HFP peer of version 1.5 or later

  /** A block as alloc and dealloc leave it. */
  const UNUSED := Scb(INVALID_SCO, false, false, false, false, false)

  datatype Sco = Sco(st: ScoState, curr: Option<ScbId>, xfer: Option<ScbId>, curIdx: int, scb: seq<Scb>)

  /** Why the owner pointer is cleared. */
  datatype Reason = ClosedEvent(p: ScbId) | ShutdownOf(p: ScbId) | NoMatch

  /** Calls leaving the machine and changes of ownership, in program order. */
  datatype Obs =
    | Originate(p: ScbId)                    // BTM_CreateSco as originator
    | ListenOn(p: ScbId)                     // BTM_CreateSco as acceptor
    | RemoveStarted(p: ScbId)                // BTM_RemoveSco began a disconnection
    | Respond(p: ScbId, accept: bool)        // BTM_EScoConnRsp
    | RejectUnknown                          // BTM_EScoConnRsp for a peer without service
    | Adopted(p: ScbId)                      // an incoming connection becomes the current one
    | Cleared(why: Reason)                   // p_curr_scb set to NULL
    | AudioOff(p: ScbId, transfer: bool)     // bta_ag_co_audio_state at close
    | PostOpen(p: ScbId) | PostClose(p: ScbId)
    | Dropped(idx: nat)                      // BTM_RemoveSco of an unmatched connection

  datatype RemoveStatus = CmdStarted | Gone | Failed

  /** Answers of BTM during one step: the index for a listening and for an originating SCO (None when
      refused), the outcome of a removal, and whether the packet types in use include eSCO. */
  datatype Btm = Btm(listenIdx: Option<nat>, origIdx: Option<nat>, remove: RemoveStatus, escoPackets: bool)

  datatype Event = ListenE | OpenE | XferE | CloseE | ShutdownE | ConnOpenE | ConnCloseE

  function Initial(n: nat): Sco { Sco(Shutdown, None, None, INVALID_SCO, seq(n, _ => UNUSED)) }

  predicate ValidSco(s: Sco) {
    && (s.curr.Some? ==> s.curr.value < |s.scb|)
    && (s.xfer.Some? ==> s.xfer.value < |s.scb|)
    && (s.st == OpenXfer || s.st == CloseXfer ==> s.xfer.Some?)
  }

  function SetScb(s: Sco, p: ScbId, b: Scb): Sco
    requires p < |s.scb|
  {
    s.(scb := s.scb[p := b])
  }

  // ---------------------------------------------------------------------------------------------
  // Helpers of the event machine

  predicate ScbOpen(s: Sco, p: ScbId)
    requires p < |s.scb|
  {
    s.scb[p].inUse && s.scb[p].slcOpen
  }

  predicate OtherScbOpen(s: Sco, p: ScbId) {
    exists q :: 0 <= q < |s.scb| && q != p && s.scb[q].inUse && s.scb[q].slcOpen
  }

  function Index(answer: Option<nat>): int {
    if answer.Some? then answer.value else INVALID_SCO
  }

  function CreateListen(s: Sco, p: ScbId, b: Btm): (r: (Sco, seq<Obs>))
    requires ValidSco(s)
    requires p < |s.scb|
    ensures ValidSco(r.0) && |r.0.scb| == |s.scb|
  {
    if s.scb[p].scoIdx != INVALID_SCO then (s, [])
    else (SetScb(s, p, s.scb[p].(retryScoOnly := false, scoIdx := Index(b.listenIdx))), [ListenOn(p)])
  }

  function CreateOrig(s: Sco, p: ScbId, b: Btm): (r: (Sco, seq<Obs>))
    requires ValidSco(s)
    requires p < |s.scb|
    ensures ValidSco(r.0) && |r.0.scb| == |s.scb|
  {
    var blk := s.scb[p];
    if blk.scoIdx != INVALID_SCO then (s, [])
    else
      var retry := blk.escoCapable && !blk.retryScoOnly && b.escoPackets;
      (SetScb(s, p, blk.(retryScoOnly := retry, scoIdx := Index(b.origIdx)))
       .(curr := Some(p), curIdx := Index(b.origIdx)),
       [Originate(p)])
  }

  function Remove(s: Sco, p: ScbId, onlyActive: bool, b: Btm): (r: (Sco, bool, seq<Obs>))
    requires ValidSco(s)
    requires p < |s.scb|
    ensures ValidSco(r.0) && |r.0.scb| == |s.scb|
  {
    if s.scb[p].scoIdx == INVALID_SCO || (onlyActive && s.scb[p].scoIdx != s.curIdx) then (s, false, [])
    else
      match b.remove
      case CmdStarted => (s.(curr := Some(p)), true, [RemoveStarted(p)])
      case Gone => (SetScb(s, p, s.scb[p].(scoIdx := INVALID_SCO)), false, [])
      case Failed => (s, false, [])
  }

  function ConnRsp(s: Sco, p: ScbId): Obs {
    Respond(p, s.st == Listen || s.st == CloseXfer || s.st == OpenXfer)
  }

  function ClearOwn(s: Sco, p: ScbId): (r: (Sco, seq<Obs>))
    requires ValidSco(s)
    ensures ValidSco(r.0) && |r.0.scb| == |s.scb|
  {
    if s.curr == Some(p) then (s.(curr := None), [Cleared(ShutdownOf(p))]) else (s, [])
  }

  /** Shutdown while listening or opening: drop the block's SCO and, if it was the current block,
      the ownership; finish shutting down when no other block is open. */
  function DropBlock(s: Sco, p: ScbId, b: Btm): (r: (Sco, seq<Obs>))
    requires ValidSco(s)
    requires p < |s.scb|
    ensures ValidSco(r.0) && |r.0.scb| == |s.scb|
  {
    var (s1, _, o1) := Remove(s, p, false, b);
    var (s2, o2) := ClearOwn(s1, p);
    (if OtherScbOpen(s2, p) then s2 else s2.(st := Shutdown), o1 + o2)
  }

  /** A second headset joins while another block owns the audio. */
  function ListenOther(s: Sco, p: ScbId, b: Btm): (r: (Sco, seq<Obs>))
    requires ValidSco(s)
    requires p < |s.scb|
    ensures ValidSco(r.0) && |r.0.scb| == |s.scb|
  {
    if s.curr == Some(p) then (s, []) else CreateListen(s, p, b)
  }

  function Relisten(s: Sco, p: ScbId, b: Btm): (r: (Sco, seq<Obs>))
    requires ValidSco(s)
    requires p < |s.scb|
    ensures ValidSco(r.0) && |r.0.scb| == |s.scb|
  {
    var (s1, o1) := CreateListen(s, p, b);
    (s1.(st := Listen), o1)
  }

  function ForgetBlock(s: Sco, p: ScbId): (r: (Sco, seq<Obs>))
    requires ValidSco(s)
    requires p < |s.scb|
    ensures ValidSco(r.0) && |r.0.scb| == |s.scb|
  {
    if s.curr == Some(p) then
      (SetScb(s, p, s.scb[p].(scoIdx := INVALID_SCO)).(curr := None), [Cleared(ShutdownOf(p))])
    else (s, [])
  }

  // ---------------------------------------------------------------------------------------------
  // bta_ag_sco_event, one function per state

  function InShutdown(s: Sco, p: ScbId, e: Event, b: Btm): (r: (Sco, seq<Obs>))
    requires ValidSco(s)
    requires p < |s.scb|
    ensures ValidSco(r.0) && |r.0.scb| == |s.scb|
  {
    if e == ListenE then Relisten(s, p, b) else (s, [])
  }

  function InListen(s: Sco, p: ScbId, e: Event, b: Btm): (r: (Sco, seq<Obs>))
    requires ValidSco(s)
    requires p < |s.scb|
    ensures ValidSco(r.0) && |r.0.scb| == |s.scb|
  {
    match e
    case ListenE => CreateListen(s, p, b)
    case OpenE =>
      var (s1, _, o1) := Remove(s, p, false, b);
      var (s2, o2) := CreateOrig(s1, p, b);
      (s2.(st := Opening), o1 + o2)
    case ShutdownE => DropBlock(s, p, b)
    case ConnCloseE => Relisten(s, p, b)
    case _ => (s, [])
  }

  function InOpening(s: Sco, p: ScbId, e: Event, b: Btm): (r: (Sco, seq<Obs>))
    requires ValidSco(s)
    requires p < |s.scb|
    ensures ValidSco(r.0) && |r.0.scb| == |s.scb|
  {
    match e
    case ListenE => ListenOther(s, p, b)
    case XferE => (s.(xfer := Some(p), st := CloseXfer), [])
    case CloseE => (s.(st := OpenCl), [])
    case ShutdownE => DropBlock(s, p, b)
    case ConnOpenE => (s.(st := Open), [])
    case ConnCloseE => Relisten(s, p, b)
    case _ => (s, [])
  }

  function InOpenCl(s: Sco, p: ScbId, e: Event, b: Btm): (r: (Sco, seq<Obs>))
    requires ValidSco(s)
    requires p < |s.scb|
    ensures ValidSco(r.0) && |r.0.scb| == |s.scb|
  {
    match e
    case XferE => (s.(xfer := Some(p), st := CloseXfer), [])
    case OpenE => (s.(st := Opening), [])
    case ShutdownE => DropBlock(s, p, b)
    case ConnOpenE =>
      var (s1, _, o1) := Remove(s, p, true, b);
      (s1.(st := Closing), o1)
    case ConnCloseE => (s.(st := Listen), [])
    case _ => (s, [])
  }

  function InOpenXfer(s: Sco, p: ScbId, e: Event, b: Btm): (r: (Sco, seq<Obs>))
    requires ValidSco(s)
    requires p < |s.scb| && s.xfer.Some? && s.xfer.value < |s.scb| && s.st == OpenXfer
    ensures ValidSco(r.0) && |r.0.scb| == |s.scb|
  {
    match e
    case CloseE =>
      var (s1, _, o1) := Remove(s, p, true, b);
      (s1.(st := Closing), o1)
    case ShutdownE =>
      var (s1, _, o1) := Remove(s, p, false, b);
      (s1.(st := Shutting), o1)
    case ConnCloseE =>
      var (s1, o1) := CreateListen(s, p, b);
      var q := s.xfer.value;
      (s1.(st := Opening, curr := Some(q), curIdx := s1.scb[q].scoIdx, xfer := None),
       o1 + [ConnRsp(s1, q), Adopted(q)])
    case _ => (s, [])
  }

  function InOpen(s: Sco, p: ScbId, e: Event, b: Btm): (r: (Sco, seq<Obs>))
    requires ValidSco(s)
    requires p < |s.scb|
    requires e == XferE ==> s.curr.Some? && s.curr.value < |s.scb|
    ensures ValidSco(r.0) && |r.0.scb| == |s.scb|
  {
    match e
    case ListenE => ListenOther(s, p, b)
    case XferE =>
      var (s1, _, o1) := Remove(s, s.curr.value, true, b);
      (s1.(xfer := Some(p), st := CloseXfer), o1)
    case CloseE =>
      var (s1, started, o1) := Remove(s, p, true, b);
      (if started then s1.(st := Closing) else s1, o1)
    case ShutdownE =>
      var (s1, _, o1) := Remove(s, p, false, b);
      (if s1.curr == Some(p) then s1.(st := Shutting) else s1, o1)
    case ConnCloseE => Relisten(s, p, b)
    case _ => (s, [])
  }

  function InClosing(s: Sco, p: ScbId, e: Event, b: Btm): (r: (Sco, seq<Obs>))
    requires ValidSco(s)
    requires p < |s.scb|
    ensures ValidSco(r.0) && |r.0.scb| == |s.scb|
  {
    match e
    case ListenE => ListenOther(s, p, b)
    case OpenE => (s.(st := CloseOp), [])
    case XferE => (s.(xfer := Some(p), st := CloseXfer), [])
    case ShutdownE =>
      if s.curr != Some(p) then
        var (s1, _, o1) := Remove(s, p, false, b);
        (s1, o1)
      else (s.(st := Shutting), [])
    case ConnCloseE => Relisten(s, p, b)
    case _ => (s, [])
  }

  function InCloseOp(s: Sco, p: ScbId, e: Event, b: Btm): (r: (Sco, seq<Obs>))
    requires ValidSco(s)
    requires p < |s.scb|
    ensures ValidSco(r.0) && |r.0.scb| == |s.scb|
  {
    match e
    case CloseE => (s.(st := Closing), [])
    case ShutdownE => (s.(st := Shutting), [])
    case ConnCloseE =>
      var (s1, o1) := CreateOrig(s, p, b);
      (s1.(st := Opening), o1)
    case ListenE => ListenOther(s, p, b)
    case _ => (s, [])
  }

  function InCloseXfer(s: Sco, p: ScbId, e: Event, b: Btm): (r: (Sco, seq<Obs>))
    requires ValidSco(s)
    requires p < |s.scb| && s.xfer.Some? && s.xfer.value < |s.scb|
    ensures ValidSco(r.0) && |r.0.scb| == |s.scb|
  {
    match e
    case ConnOpenE =>
      var (s1, _, o1) := Remove(s, p, true, b);
      (s1, o1)
    case CloseE => (s.(xfer := None, st := Closing), [])
    case ShutdownE => (s.(xfer := None, st := Shutting), [])
    case ConnCloseE =>
      var q := s.xfer.value;
      var (s1, o1) := CreateListen(s, p, b);
      var (s2, _, o2) := Remove(s1, q, false, b);
      var (s3, o3) := CreateOrig(s2, q, b);
      (s3.(xfer := None, st := Opening), o1 + o2 + o3)
    case _ => (s, [])
  }

  function InShutting(s: Sco, p: ScbId, e: Event, b: Btm): (r: (Sco, seq<Obs>))
    requires ValidSco(s)
    requires p < |s.scb|
    ensures ValidSco(r.0) && |r.0.scb| == |s.scb|
  {
    match e
    case ConnOpenE =>
      var (s1, _, o1) := Remove(s, p, true, b);
      (s1, o1)
    case ConnCloseE =>
      var s1 := s.(st := if OtherScbOpen(s, p) then Listen else Shutdown);
      var (s2, o2) := if ScbOpen(s1, p) then Relisten(s1, p, b) else (s1, []);
      var (s3, o3) := ForgetBlock(s2, p);
      (s3, o2 + o3)
    case ListenE => ListenOther(s, p, b)
    case ShutdownE => ForgetBlock(s.(st := if OtherScbOpen(s, p) then Listen else Shutdown), p)
    case _ => (s, [])
  }

  function ScoEvent(s: Sco, p: ScbId, e: Event, b: Btm): (r: (Sco, seq<Obs>))
    requires ValidSco(s) && p < |s.scb|
    requires e == XferE ==> s.curr.Some?
    ensures ValidSco(r.0) && |r.0.scb| == |s.scb|
  {
    match s.st
    case Shutdown => InShutdown(s, p, e, b)
    case Listen => InListen(s, p, e, b)
    case Opening => InOpening(s, p, e, b)
    case OpenCl => InOpenCl(s, p, e, b)
    case OpenXfer => InOpenXfer(s, p, e, b)
    case Open => InOpen(s, p, e, b)
    case Closing => InClosing(s, p, e, b)
    case CloseOp => InCloseOp(s, p, e, b)
    case CloseXfer => InCloseXfer(s, p, e, b)
    case Shutting => InShutting(s, p, e, b)
  }

  // ---------------------------------------------------------------------------------------------
  // Entry points and BTM callbacks

  /** bta_ag_sco_open: a transfer when another block is current, an open otherwise. */
  function OpenRequest(s: Sco, p: ScbId, b: Btm): (r: (Sco, seq<Obs>))
    requires ValidSco(s) && p < |s.scb|
    ensures ValidSco(r.0) && |r.0.scb| == |s.scb|
  {
    ScoEvent(s, p, if s.curr.Some? && s.curr != Some(p) then XferE else OpenE, b)
  }

  function CloseRequest(s: Sco, p: ScbId, b: Btm): (r: (Sco, seq<Obs>))
    requires ValidSco(s) && p < |s.scb|
    ensures ValidSco(r.0) && |r.0.scb| == |s.scb|
  {
    if s.scb[p].scoIdx != INVALID_SCO then ScoEvent(s, p, CloseE, b) else (s, [])
  }

  /** bta_ag_sco_conn_open. */
  function ConnOpened(s: Sco, p: ScbId, b: Btm): (r: (Sco, seq<Obs>))
    requires ValidSco(s) && p < |s.scb|
    ensures ValidSco(r.0) && |r.0.scb| == |s.scb|
  {
    var (s1, o1) := ScoEvent(s, p, ConnOpenE, b);
    (SetScb(s1, p, s1.scb[p].(retryScoOnly := false)), o1)
  }

  function RetryOrReport(s: Sco, p: ScbId, b: Btm): (r: (Sco, seq<Obs>))
    requires ValidSco(s) && p < |s.scb|
    ensures ValidSco(r.0) && |r.0.scb| == |s.scb|
  {
    if s.scb[p].retryScoOnly && s.scb[p].svcConn then CreateOrig(s, p, b)
    else
      var (s', o') := ScoEvent(s, p, ConnCloseE, b);
      (s', [AudioOff(p, s.xfer.Some?)] + o')
  }

  /** bta_ag_sco_conn_close: ownership is given up first, whoever had it; then either the SCO-only
      retry or the close event. */
  function ConnClosed(s: Sco, p: ScbId, b: Btm): (r: (Sco, seq<Obs>))
    requires ValidSco(s) && p < |s.scb|
    ensures ValidSco(r.0) && |r.0.scb| == |s.scb|
  {
    var s1 := SetScb(s, p, s.scb[p].(scoIdx := INVALID_SCO)).(curr := None);
    var (s2, o2) := RetryOrReport(s1, p, b);
    (SetScb(s2, p, s2.scb[p].(retryScoOnly := false)), [Cleared(ClosedEvent(p))] + o2)
  }

  /** The block in use for a peer address, when there is one. */
  function InUse(s: Sco, peer: Option<ScbId>): Option<ScbId> {
    if peer.Some? && peer.value < |s.scb| && s.scb[peer.value].inUse then peer else None
  }

  /** bta_ag_sco_conn_cback. */
  function ConnCallback(s: Sco, idx: nat, peer: Option<ScbId>): (r: (Sco, seq<Obs>))
    requires ValidSco(s)
    ensures ValidSco(r.0) && |r.0.scb| == |s.scb|
  {
    var found := InUse(s, peer);
    if s.curr.Some? && s.scb[s.curr.value].inUse then (s, [PostOpen(s.curr.value)])
    else if found.Some? && s.scb[found.value].svcConn then (s, [PostOpen(found.value)])
    else (s.(curr := None, st := Shutdown), [Cleared(NoMatch), Dropped(idx)])
  }

  /** bta_ag_sco_disc_cback. */
  function DiscCallback(s: Sco, idx: nat): (r: (Sco, seq<Obs>))
    requires ValidSco(s)
    ensures ValidSco(r.0) && |r.0.scb| == |s.scb|
  {
    if s.curr.None? then (s, [])
    else
      var p := s.curr.value;
      if s.scb[p].inUse then
        if s.scb[p].scoIdx == idx || s.scb[p].scoIdx == INVALID_SCO then (s, [PostClose(p)]) else (s, [])
      else
        (SetScb(s, p, s.scb[p].(scoIdx := INVALID_SCO)).(curr := None, st := Shutdown), [Cleared(NoMatch)])
  }

  /** A second incoming connection: the present one is closed for it, if that can be started. */
  function BeginTransfer(s: Sco, p: ScbId, b: Btm): (r: (Sco, seq<Obs>))
    requires ValidSco(s) && p < |s.scb| && s.curr.Some?
    ensures ValidSco(r.0) && |r.0.scb| == |s.scb|
  {
    var s2 := s.(xfer := Some(p), st := OpenXfer);
    var (s3, started, o3) := Remove(s2, s2.curr.value, true, b);
    if started then (s3, o3)
    else
      var s4 := s3.(xfer := None, st := Listen);
      (s4, o3 + [ConnRsp(s4, p)])
  }

  /** bta_ag_esco_connreq_cback for a connection request. */
  function ConnRequest(s: Sco, idx: nat, peer: Option<ScbId>, b: Btm): (r: (Sco, seq<Obs>))
    requires ValidSco(s)
    ensures ValidSco(r.0) && |r.0.scb| == |s.scb|
  {
    var found := InUse(s, peer);
    if found.None? || !s.scb[found.value].svcConn then (s, [RejectUnknown])
    else
      var p := found.value;
      var s1 := SetScb(s, p, s.scb[p].(scoIdx := idx));
      if s1.curr.None? then
        (s1.(st := Opening, curr := Some(p), curIdx := idx), [ConnRsp(s1, p), Adopted(p)])
      else BeginTransfer(s1, p, b)
  }

  /** Everything that can happen to the machine; `Update` is any change of a block made elsewhere
      (allocation, service level connection up or down), `Dealloc` the clearing of a block. */
  datatype Step =
    | ApiListen(p: ScbId, b: Btm)
    | ApiOpen(p: ScbId, b: Btm)
    | ApiClose(p: ScbId, b: Btm)
    | ApiShutdown(p: ScbId, b: Btm)
    | MsgConnOpen(p: ScbId, b: Btm)
    | MsgConnClose(p: ScbId, b: Btm)
    | CbConn(idx: nat, peer: Option<ScbId>)
    | CbDisc(idx: nat)
    | CbRequest(idx: nat, peer: Option<ScbId>, b: Btm)
    | Update(p: ScbId, inUse: bool, slcOpen: bool, svcConn: bool, escoCapable: bool)
    | Dealloc(p: ScbId)

  predicate Enabled(n: nat, t: Step) {
    match t
    case CbConn(_, _) => true
    case CbDisc(_) => true
    case CbRequest(_, _, _) => true
    case _ => t.p < n
  }

  function Next(s: Sco, t: Step): (r: (Sco, seq<Obs>))
    requires ValidSco(s) && Enabled(|s.scb|, t)
    ensures ValidSco(r.0) && |r.0.scb| == |s.scb|
  {
    match t
    case ApiListen(p, b) => ScoEvent(s, p, ListenE, b)
    case ApiOpen(p, b) => OpenRequest(s, p, b)
    case ApiClose(p, b) => CloseRequest(s, p, b)
    case ApiShutdown(p, b) => ScoEvent(s, p, ShutdownE, b)
    case MsgConnOpen(p, b) => ConnOpened(s, p, b)
    case MsgConnClose(p, b) => ConnClosed(s, p, b)
    case CbConn(idx, peer) => ConnCallback(s, idx, peer)
    case CbDisc(idx) => DiscCallback(s, idx)
    case CbRequest(idx, peer, b) => ConnRequest(s, idx, peer, b)
    case Update(p, u, o, v, c) =>
      (SetScb(s, p, s.scb[p].(inUse := u, slcOpen := o, svcConn := v, escoCapable := c)), [])
    case Dealloc(p) => (SetScb(s, p, UNUSED), [])
  }
}
