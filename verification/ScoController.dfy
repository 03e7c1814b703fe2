/**
 The SCO control block as the program keeps it (bta/ag/bta_ag_sco.c): service control blocks are objects,
 the current and the transfer block are references to them, and the event switch and three BTM callbacks
 rewrite all of it in place, reaching one block through several references. Every method is proved against
 its function in ScoSpec, where blocks are numbers, and says what it means for the ownership of the audio.
 */
module ScoController {
  import opened Common
  import opened ScoSpec
  import opened ScoTheorems
  import ScoScenarios

  /** A service control block, as far as the SCO machine is concerned. */
  class Block {
    const id: ScbId
    var scoIdx: int
    var retryScoOnly: bool
    var inUse: bool
    var slcOpen: bool
    var svcConn: bool
    var escoCapable: bool

    ghost function View(): Scb
      reads this
    {
      Scb(scoIdx, retryScoOnly, inUse, slcOpen, svcConn, escoCapable)
    }

    constructor (id: ScbId)
      ensures this.id == id && View() == UNUSED
    {
      this.id := id;
      scoIdx := INVALID_SCO;
      retryScoOnly, inUse, slcOpen, svcConn, escoCapable := false, false, false, false, false;
    }
  }

  ghost function IdOf(p: Block?): Option<ScbId> { if p == null then None else Some(p.id) }

  lemma SetScbTwice(s: Sco, p: ScbId, x: Scb, y: Scb)
    requires p < |s.scb|
    ensures SetScb(SetScb(s, p, x), p, y) == SetScb(s, p, y)
  {
    assert s.scb[p := x][p := y] == s.scb[p := y];
  }

  class Controller {
    const blocks: seq<Block>
    var state: ScoState
    var currScb: Block?
    var xferScb: Block?
    var curIdx: int
    /** What the blocks hold. */
    ghost var scb: seq<Scb>

    ghost function State(): Sco
      reads this
    {
      Sco(state, IdOf(currScb), IdOf(xferScb), curIdx, scb)
    }

    /** A reference to one of the blocks. */
    predicate Known(p: Block) { p.id < |blocks| && blocks[p.id] == p }

    ghost predicate Valid()
      reads this, blocks
    {
      && |scb| == |blocks| && (forall i :: 0 <= i < |blocks| ==> blocks[i].id == i && blocks[i].View() == scb[i])
      && (currScb != null ==> Known(currScb)) && (xferScb != null ==> Known(xferScb))
      && ValidSco(State())
    }

    constructor (blocks: seq<Block>)
      requires forall i :: 0 <= i < |blocks| ==> blocks[i].id == i && blocks[i].View() == UNUSED
      ensures Valid() && this.blocks == blocks
      ensures State() == Initial(|blocks|)
    {
      this.blocks := blocks;
      state := Shutdown;
      currScb, xferScb := null, null;
      curIdx := INVALID_SCO;
      scb := seq(|blocks|, _ => UNUSED);
    }

    method SetIdx(p: Block, idx: int)
      requires Valid() && Known(p)
      modifies this`scb, p`scoIdx
      ensures Valid() && State() == SetScb(old(State()), p.id, old(scb)[p.id].(scoIdx := idx))
    {
      p.scoIdx := idx;
      scb := scb[p.id := scb[p.id].(scoIdx := idx)];
    }

    method SetRetry(p: Block, retry: bool)
      requires Valid() && Known(p)
      modifies this`scb, p`retryScoOnly
      ensures Valid() && State() == SetScb(old(State()), p.id, old(scb)[p.id].(retryScoOnly := retry))
    {
      p.retryScoOnly := retry;
      scb := scb[p.id := scb[p.id].(retryScoOnly := retry)];
    }

    /** eSCO packets for a capable peer, and a retry as plain SCO should they fail. */
    method ChoosePackets(p: Block, b: Btm)
      requires Valid() && Known(p)
      modifies this`scb, p`retryScoOnly
      ensures Valid()
      ensures State() == SetScb(old(State()), p.id, old(scb)[p.id].(
                retryScoOnly := old(p.escoCapable && !p.retryScoOnly && b.escoPackets)))
    {
      if p.escoCapable && !p.retryScoOnly {
        SetRetry(p, b.escoPackets);
      } else {
        SetRetry(p, false);
      }
    }

    method CreateSco(p: Block, isOrig: bool, b: Btm) returns (obs: seq<Obs>)
      requires Valid() && Known(p)
      modifies this`scb, this`currScb, this`curIdx, p`scoIdx, p`retryScoOnly
      ensures Valid()
      ensures (State(), obs) ==
              if isOrig then CreateOrig(old(State()), p.id, b) else CreateListen(old(State()), p.id, b)
    {
      if p.scoIdx != INVALID_SCO { return []; }
      if isOrig {
        obs := Originating(p, b);
      } else {
        SetRetry(p, false);
        ghost var x := scb[p.id];
        SetIdx(p, Index(b.listenIdx));
        SetScbTwice(old(State()), p.id, x, scb[p.id]);
        obs := [ListenOn(p.id)];
      }
    }

    method Originating(p: Block, b: Btm) returns (obs: seq<Obs>)
      requires Valid() && Known(p) && p.scoIdx == INVALID_SCO
      modifies this`scb, this`currScb, this`curIdx, p`scoIdx, p`retryScoOnly
      ensures Valid() && (State(), obs) == CreateOrig(old(State()), p.id, b)
    {
      ChoosePackets(p, b);
      ghost var x := scb[p.id];
      Occupy(p, b.origIdx);
      SetScbTwice(old(State()), p.id, x, scb[p.id]);
      obs := [Originate(p.id)];
    }

    /** The block becomes the owner with the index BTM gave it, if any. */
    method Occupy(p: Block, idx: Option<nat>)
      requires Valid() && Known(p) && p.scoIdx == INVALID_SCO
      modifies this`scb, this`currScb, this`curIdx, p`scoIdx
      ensures Valid()
      ensures State() == SetScb(old(State()), p.id, old(scb)[p.id].(scoIdx := Index(idx)))
                         .(curr := Some(p.id), curIdx := Index(idx))
    {
      currScb := p;
      curIdx := p.scoIdx;
      SetIdx(p, Index(idx));
      if idx.Some? {
        curIdx := p.scoIdx;
      }
    }

    /** A disconnection that was started makes the block the owner; otherwise the owner stays, and the index
        is forgotten exactly when BTM no longer knew it. */
    method RemoveSco(p: Block, onlyActive: bool, b: Btm) returns (started: bool, obs: seq<Obs>)
      requires Valid() && Known(p)
      modifies this`scb, this`currScb, p`scoIdx
      ensures Valid() && (State(), started, obs) == Remove(old(State()), p.id, onlyActive, b)
      ensures currScb == if started then p else old(currScb)
      ensures started <==> RemoveStarted(p.id) in obs
      ensures p.scoIdx != old(p.scoIdx) ==> p.scoIdx == INVALID_SCO && b.remove == Gone && !started
    {
      started, obs := false, [];
      if p.scoIdx != INVALID_SCO {
        if !onlyActive || p.scoIdx == curIdx {
          if b.remove == CmdStarted {
            currScb := p;
            started, obs := true, [RemoveStarted(p.id)];
          } else if b.remove == Gone {
            SetIdx(p, INVALID_SCO);
          }
        }
      }
    }

    method OtherOpen(p: Block) returns (r: bool)
      requires Valid() && Known(p)
      ensures r == OtherScbOpen(State(), p.id)
    {
      for i := 0 to |blocks|
        invariant forall q :: 0 <= q < i && q != p.id ==> !(scb[q].inUse && scb[q].slcOpen)
      {
        assert blocks[i].View() == scb[i];
        if blocks[i].inUse && blocks[i] != p && blocks[i].slcOpen { return true; }
      }
      r := false;
    }

    /** The shutdown branch shared by the listening and the two opening states. */
    method ShutdownEarly(p: Block, b: Btm) returns (obs: seq<Obs>)
      requires Valid() && Known(p)
      modifies this, blocks
      ensures Valid() && (State(), obs) == DropBlock(old(State()), p.id, b)
    {
      var _, o1 := RemoveSco(p, false, b);
      var o2 := GiveUp(p);
      obs := o1 + o2;
      var other := OtherOpen(p);
      if !other {
        state := Shutdown;
      }
    }

    /** The block gives up the audio if it has it. */
    method GiveUp(p: Block) returns (obs: seq<Obs>)
      requires Valid() && Known(p)
      modifies this`currScb
      ensures Valid() && (State(), obs) == ClearOwn(old(State()), p.id)
    {
      obs := [];
      if currScb == p {
        currScb := null;
        obs := [Cleared(ShutdownOf(p.id))];
      }
    }

    method EventListen(p: Block, e: Event, b: Btm) returns (obs: seq<Obs>)
      requires Valid() && Known(p) && state == Listen
      modifies this, blocks
      ensures Valid() && (State(), obs) == InListen(old(State()), p.id, e, b)
    {
      obs := [];
      match e {
        case ListenE =>
          obs := CreateSco(p, false, b);
        case OpenE =>
          var _, o1 := RemoveSco(p, false, b);
          var o2 := CreateSco(p, true, b);
          state := Opening;
          obs := o1 + o2;
        case ShutdownE =>
          obs := ShutdownEarly(p, b);
        case ConnCloseE =>
          obs := CreateSco(p, false, b);
          state := Listen;
        case _ =>
      }
    }

    method EventOpening(p: Block, e: Event, b: Btm) returns (obs: seq<Obs>)
      requires Valid() && Known(p) && state == Opening
      modifies this, blocks
      ensures Valid() && (State(), obs) == InOpening(old(State()), p.id, e, b)
    {
      obs := [];
      match e {
        case ListenE =>
          if currScb != p { obs := CreateSco(p, false, b); }
        case XferE =>
          xferScb := p;
          state := CloseXfer;
        case CloseE =>
          state := OpenCl;
        case ShutdownE =>
          obs := ShutdownEarly(p, b);
        case ConnOpenE =>
          state := Open;
        case ConnCloseE =>
          obs := CreateSco(p, false, b);
          state := Listen;
        case _ =>
      }
    }

    method EventOpenCl(p: Block, e: Event, b: Btm) returns (obs: seq<Obs>)
      requires Valid() && Known(p) && state == OpenCl
      modifies this, blocks
      ensures Valid() && (State(), obs) == InOpenCl(old(State()), p.id, e, b)
    {
      obs := [];
      match e {
        case XferE =>
          xferScb := p;
          state := CloseXfer;
        case OpenE =>
          state := Opening;
        case ShutdownE =>
          obs := ShutdownEarly(p, b);
        case ConnOpenE =>
          var _, o := RemoveSco(p, true, b);
          obs := o;
          state := Closing;
        case ConnCloseE =>
          state := Listen;
        case _ =>
      }
    }

    method AdoptWaiting(p: Block, b: Btm) returns (obs: seq<Obs>)
      requires Valid() && Known(p) && state == OpenXfer
      modifies this, blocks
      ensures Valid() && (State(), obs) == InOpenXfer(old(State()), p.id, ConnCloseE, b)
    {
      obs := CreateSco(p, false, b);
      var rsp := ConnResponse(xferScb);
      state := Opening;
      currScb := xferScb;
      curIdx := xferScb.scoIdx;
      obs := obs + [rsp, Adopted(xferScb.id)];
      xferScb := null;
    }

    method EventOpenXfer(p: Block, e: Event, b: Btm) returns (obs: seq<Obs>)
      requires Valid() && Known(p) && state == OpenXfer
      modifies this, blocks
      ensures Valid() && (State(), obs) == InOpenXfer(old(State()), p.id, e, b)
    {
      obs := [];
      match e {
        case CloseE =>
          var _, o := RemoveSco(p, true, b);
          obs := o;
          state := Closing;
        case ShutdownE =>
          var _, o := RemoveSco(p, false, b);
          obs := o;
          state := Shutting;
        case ConnCloseE =>
          obs := AdoptWaiting(p, b);
        case _ =>
      }
    }

    method EventOpen(p: Block, e: Event, b: Btm) returns (obs: seq<Obs>)
      requires Valid() && Known(p) && state == Open
      requires e == XferE ==> currScb != null
      modifies this, blocks
      ensures Valid() && (State(), obs) == InOpen(old(State()), p.id, e, b)
    {
      obs := [];
      match e {
        case ListenE =>
          if currScb != p { obs := CreateSco(p, false, b); }
        case XferE =>
          var _, o := RemoveSco(currScb, true, b);
          obs := o;
          xferScb := p;
          state := CloseXfer;
        case CloseE =>
          var started, o := RemoveSco(p, true, b);
          obs := o;
          if started { state := Closing; }
        case ShutdownE =>
          var _, o := RemoveSco(p, false, b);
          obs := o;
          if currScb == p { state := Shutting; }
        case ConnCloseE =>
          obs := CreateSco(p, false, b);
          state := Listen;
        case _ =>
      }
    }

    method EventClosing(p: Block, e: Event, b: Btm) returns (obs: seq<Obs>)
      requires Valid() && Known(p) && state == Closing
      modifies this, blocks
      ensures Valid() && (State(), obs) == InClosing(old(State()), p.id, e, b)
    {
      obs := [];
      match e {
        case ListenE =>
          if currScb != p { obs := CreateSco(p, false, b); }
        case OpenE =>
          state := CloseOp;
        case XferE =>
          xferScb := p;
          state := CloseXfer;
        case ShutdownE =>
          if currScb != p {
            var _, o := RemoveSco(p, false, b);
            obs := o;
          } else {
            state := Shutting;
          }
        case ConnCloseE =>
          obs := CreateSco(p, false, b);
          state := Listen;
        case _ =>
      }
    }

    method EventCloseOp(p: Block, e: Event, b: Btm) returns (obs: seq<Obs>)
      requires Valid() && Known(p) && state == CloseOp
      modifies this, blocks
      ensures Valid() && (State(), obs) == InCloseOp(old(State()), p.id, e, b)
    {
      obs := [];
      match e {
        case CloseE =>
          state := Closing;
        case ShutdownE =>
          state := Shutting;
        case ConnCloseE =>
          obs := CreateSco(p, true, b);
          state := Opening;
        case ListenE =>
          if currScb != p { obs := CreateSco(p, false, b); }
        case _ =>
      }
    }

    method EventCloseXfer(p: Block, e: Event, b: Btm) returns (obs: seq<Obs>)
      requires Valid() && Known(p) && state == CloseXfer
      modifies this, blocks
      ensures Valid() && (State(), obs) == InCloseXfer(old(State()), p.id, e, b)
    {
      obs := [];
      match e {
        case ConnOpenE =>
          var _, o := RemoveSco(p, true, b);
          obs := o;
        case CloseE =>
          xferScb := null;
          state := Closing;
        case ShutdownE =>
          xferScb := null;
          state := Shutting;
        case ConnCloseE =>
          var o1 := CreateSco(p, false, b);
          var _, o2 := RemoveSco(xferScb, false, b);
          var o3 := CreateSco(xferScb, true, b);
          xferScb := null;
          state := Opening;
          obs := o1 + o2 + o3;
        case _ =>
      }
    }

    method ShuttingClosed(p: Block, b: Btm) returns (obs: seq<Obs>)
      requires Valid() && Known(p) && state == Shutting
      modifies this, blocks
      ensures Valid() && (State(), obs) == InShutting(old(State()), p.id, ConnCloseE, b)
    {
      var other := OtherOpen(p);
      state := if other then Listen else Shutdown;
      var o2 := ListenAgain(p, b);
      var o3 := Forget(p);
      obs := o2 + o3;
    }

    /** If SCO closed for a headset that is not being disconnected, listen for it again. */
    method ListenAgain(p: Block, b: Btm) returns (obs: seq<Obs>)
      requires Valid() && Known(p)
      modifies this, blocks
      ensures Valid()
      ensures (State(), obs) ==
              if ScbOpen(old(State()), p.id) then Relisten(old(State()), p.id, b) else (old(State()), [])
    {
      obs := [];
      assert p.View() == scb[p.id];
      if p.inUse && p.slcOpen {
        obs := CreateSco(p, false, b);
        state := Listen;
      }
    }

    method EventShutting(p: Block, e: Event, b: Btm) returns (obs: seq<Obs>)
      requires Valid() && Known(p) && state == Shutting
      modifies this, blocks
      ensures Valid() && (State(), obs) == InShutting(old(State()), p.id, e, b)
    {
      obs := [];
      match e {
        case ConnOpenE =>
          var _, o := RemoveSco(p, true, b);
          obs := o;
        case ConnCloseE =>
          obs := ShuttingClosed(p, b);
        case ListenE =>
          if currScb != p { obs := CreateSco(p, false, b); }
        case ShutdownE =>
          var other := OtherOpen(p);
          state := if other then Listen else Shutdown;
          obs := Forget(p);
        case _ =>
      }
    }

    method Forget(p: Block) returns (obs: seq<Obs>)
      requires Valid() && Known(p)
      modifies this, blocks
      ensures Valid() && (State(), obs) == ForgetBlock(old(State()), p.id)
    {
      obs := [];
      if currScb == p {
        SetIdx(p, INVALID_SCO);
        currScb := null;
        obs := [Cleared(ShutdownOf(p.id))];
      }
    }

    method ConnResponse(p: Block) returns (o: Obs)
      ensures o == ConnRsp(State(), p.id)
    {
      if state == Listen || state == CloseXfer || state == OpenXfer {
        o := Respond(p.id, true);
      } else {
        o := Respond(p.id, false);
      }
    }

    method Switch(p: Block, e: Event, b: Btm) returns (obs: seq<Obs>)
      requires Valid() && Known(p) && (e == XferE ==> currScb != null)
      modifies this, blocks
      ensures Valid() && (State(), obs) == ScoEvent(old(State()), p.id, e, b)
    {
      match state {
        case Shutdown =>
          obs := [];
          if e == ListenE {
            obs := CreateSco(p, false, b);
            state := Listen;
          }
        case Listen => obs := EventListen(p, e, b);
        case Opening => obs := EventOpening(p, e, b);
        case OpenCl => obs := EventOpenCl(p, e, b);
        case OpenXfer => obs := EventOpenXfer(p, e, b);
        case Open => obs := EventOpen(p, e, b);
        case Closing => obs := EventClosing(p, e, b);
        case CloseOp => obs := EventCloseOp(p, e, b);
        case CloseXfer => obs := EventCloseXfer(p, e, b);
        case Shutting => obs := EventShutting(p, e, b);
      }
    }

    /** The event switch. Under the callers' side of the bargain every event changes the owner by permitted,
        reported steps only. */
    method Handle(p: Block, e: Event, b: Btm) returns (obs: seq<Obs>)
      requires Valid() && Known(p) && (e == XferE ==> currScb != null)
      modifies this, blocks
      ensures Valid() && (State(), obs) == ScoEvent(old(State()), p.id, e, b)
      ensures EventAllowed(old(State()), p.id, e) ==> Accounts(old(State()).curr, obs, State().curr)
      ensures forall q: ScbId :: q < |blocks| ==> ScoScenarios.Right(old(State()), p.id, e, b, q, (State(), obs))
      ensures ScoScenarios.Moved(old(State()), p.id, e, (State(), obs))
    {
      if EventAllowed(State(), p.id, e) { ScoEventAccounts(State(), p.id, e, b); }
      ScoScenarios.EventExactly(State(), p.id, e, b, p.id);
      forall q: ScbId | q < |blocks|
        ensures ScoScenarios.Right(State(), p.id, e, b, q, ScoEvent(State(), p.id, e, b))
      {
        ScoScenarios.EventExactly(State(), p.id, e, b, q);
      }
      obs := Switch(p, e, b);
    }

    /** An open request never calls out while another block owns the audio: the transfer waits for the
        close. */
    method ScoOpen(p: Block, b: Btm) returns (obs: seq<Obs>)
      requires Valid() && Known(p)
      modifies this, blocks
      ensures Valid() && (State(), obs) == OpenRequest(old(State()), p.id, b)
      ensures Accounts(old(State()).curr, obs, State().curr)
      ensures old(currScb) != null && old(currScb) != p ==> forall q: ScbId :: Originate(q) !in obs
    {
      if currScb != null && currScb != p {
        TransferCallsNobody(State(), p.id, b);
        obs := Handle(p, XferE, b);
      } else {
        obs := Handle(p, OpenE, b);
      }
    }

    /** A close request calls nobody and adopts nobody. */
    method ScoClose(p: Block, b: Btm) returns (obs: seq<Obs>)
      requires Valid() && Known(p)
      modifies this, blocks
      ensures Valid() && (State(), obs) == CloseRequest(old(State()), p.id, b)
      ensures Accounts(old(State()).curr, obs, State().curr)
      ensures forall q: ScbId :: Originate(q) !in obs && Adopted(q) !in obs
    {
      obs := [];
      AccountsNone(State().curr);
      if p.scoIdx != INVALID_SCO {
        CloseCallsNobody(State(), p.id, b);
        obs := Handle(p, CloseE, b);
      }
    }

    /** A connection reported open calls nobody, and the plain SCO retry is off the table. */
    method ScoConnOpen(p: Block, b: Btm) returns (obs: seq<Obs>)
      requires Valid() && Known(p)
      modifies this, blocks
      ensures Valid() && (State(), obs) == ConnOpened(old(State()), p.id, b) && !p.retryScoOnly
      ensures Accounts(old(State()).curr, obs, State().curr)
      ensures forall q: ScbId :: Originate(q) !in obs && Adopted(q) !in obs
    {
      OpenCallsNobody(State(), p.id, b);
      obs := Handle(p, ConnOpenE, b);
      SetRetry(p, false);
    }

    /** The plain SCO retry, or the close event with the report to the audio layer. */
    method RetryOrClose(p: Block, b: Btm) returns (obs: seq<Obs>)
      requires Valid() && Known(p)
      modifies this, blocks
      ensures Valid() && (State(), obs) == RetryOrReport(old(State()), p.id, b)
    {
      assert p.View() == scb[p.id];
      if p.retryScoOnly && p.svcConn {
        obs := CreateSco(p, true, b);
      } else {
        var off := AudioOff(p.id, xferScb != null);
        obs := Switch(p, ConnCloseE, b);
        obs := [off] + obs;
      }
    }

    method Closed(p: Block, b: Btm) returns (obs: seq<Obs>)
      requires Valid() && Known(p)
      modifies this, blocks
      ensures Valid() && (State(), obs) == ConnClosed(old(State()), p.id, b)
    {
      currScb := null;
      SetIdx(p, INVALID_SCO);
      var o := RetryOrClose(p, b);
      SetRetry(p, false);
      obs := [Cleared(ClosedEvent(p.id))] + o;
    }

    /** A closed connection calls at most the block it was for, as plain SCO or again, or the block a
        transfer was waiting for; it adopts only the latter. */
    method ScoConnClose(p: Block, b: Btm) returns (obs: seq<Obs>)
      requires Valid() && Known(p)
      modifies this, blocks
      ensures Valid() && (State(), obs) == ConnClosed(old(State()), p.id, b) && !p.retryScoOnly
      ensures Accounts(old(State()).curr, obs, State().curr)
      ensures forall q: ScbId :: Originate(q) in obs ==> q == p.id || Some(q) == IdOf(old(xferScb))
      ensures forall q: ScbId :: Adopted(q) in obs ==> Some(q) == IdOf(old(xferScb))
      ensures ScoScenarios.TransferDue(old(State()), p.id, b) ==>
                ScoScenarios.Transferred(old(State()), p.id, State(), obs)
    {
      ScoScenarios.CloseMeans(State(), p.id, b, ConnClosed(State(), p.id, b));
      obs := Closed(p, b);
      assert p.View() == scb[p.id];
    }

    method FindPeer(peer: Option<ScbId>) returns (p: Block?)
      requires Valid()
      ensures IdOf(p) == InUse(State(), peer) && (p != null ==> Known(p))
    {
      if peer.Some? && peer.value < |blocks| && blocks[peer.value].inUse {
        p := blocks[peer.value];
      } else {
        p := null;
      }
    }

    method ConnCback(idx: nat, peer: Option<ScbId>) returns (obs: seq<Obs>)
      requires Valid()
      modifies this
      ensures Valid() && (State(), obs) == ConnCallback(old(State()), idx, peer)
    {
      var target := null;
      if currScb != null && currScb.inUse {
        target := currScb;
      } else {
        target := FindPeer(peer);
        if target != null && !target.svcConn {
          target := null;
        }
      }
      if target != null {
        obs := [PostOpen(target.id)];
      } else {
        currScb := null;
        state := Shutdown;
        obs := [Cleared(NoMatch), Dropped(idx)];
      }
    }

    method DiscCback(idx: nat) returns (obs: seq<Obs>)
      requires Valid()
      modifies this, blocks
      ensures Valid() && (State(), obs) == DiscCallback(old(State()), idx)
    {
      obs := [];
      if currScb != null && currScb.inUse {
        if currScb.scoIdx != idx {
          if currScb.scoIdx != INVALID_SCO { return; }
        }
        obs := [PostClose(currScb.id)];
      } else if currScb != null {
        SetIdx(currScb, INVALID_SCO);
        currScb := null;
        state := Shutdown;
        obs := [Cleared(NoMatch)];
      }
    }

    /** A second incoming connection: close the present one and transfer, or carry on listening. */
    method StartTransfer(p: Block, b: Btm) returns (obs: seq<Obs>)
      requires Valid() && Known(p) && currScb != null
      modifies this, blocks
      ensures Valid()
      ensures (State(), obs) == BeginTransfer(old(State()), p.id, b)
    {
      xferScb := p;
      state := OpenXfer;
      var started, o := RemoveSco(currScb, true, b);
      obs := o;
      if !started {
        var rsp := CarryOn(p);
        obs := obs + [rsp];
      }
    }

    method CarryOn(p: Block) returns (rsp: Obs)
      requires Valid() && Known(p)
      modifies this`xferScb, this`state
      ensures Valid() && State() == old(State()).(xfer := None, st := Listen) && rsp == ConnRsp(State(), p.id)
    {
      xferScb := null;
      state := Listen;
      rsp := ConnResponse(p);
    }

    method Accept(idx: nat, p: Block, b: Btm) returns (obs: seq<Obs>)
      requires Valid() && Known(p) && p.inUse && p.svcConn
      modifies this, blocks
      ensures Valid() && (State(), obs) == ConnRequest(old(State()), idx, Some(p.id), b)
    {
      SetIdx(p, idx);
      if currScb == null {
        var rsp := ConnResponse(p);
        state := Opening;
        currScb := p;
        curIdx := p.scoIdx;
        obs := [rsp, Adopted(p.id)];
      } else {
        obs := StartTransfer(p, b);
      }
    }

    /** An incoming connection calls nobody, and takes the audio over only when nobody has it. */
    method ConnReqCback(idx: nat, peer: Option<ScbId>, b: Btm) returns (obs: seq<Obs>)
      requires Valid()
      modifies this, blocks
      ensures Valid() && (State(), obs) == ConnRequest(old(State()), idx, peer, b)
      ensures Accounts(old(State()).curr, obs, State().curr)
      ensures forall q: ScbId :: Originate(q) !in obs
      ensures forall q: ScbId :: Adopted(q) in obs ==> old(currScb) == null && IdOf(currScb) == Some(q)
    {
      ConnRequestAccounts(State(), idx, peer, b);
      RequestCalls(State(), idx, peer, b);
      var p := FindPeer(peer);
      if p == null || !p.svcConn {
        return [RejectUnknown];
      }
      obs := Accept(idx, p, b);
    }

    /** Changes of a block made by the rest of the gateway. */
    method UpdateBlock(p: Block, inUse: bool, slcOpen: bool, svcConn: bool, escoCapable: bool)
      requires Valid() && Known(p)
      modifies this`scb, p
      ensures Valid()
      ensures State() == SetScb(old(State()), p.id, old(scb)[p.id].(
                inUse := inUse, slcOpen := slcOpen, svcConn := svcConn, escoCapable := escoCapable))
    {
      p.inUse, p.slcOpen, p.svcConn, p.escoCapable := inUse, slcOpen, svcConn, escoCapable;
      scb := scb[p.id := p.View()];
    }

    method ClearBlock(p: Block)
      requires Valid() && Known(p)
      modifies this`scb, p
      ensures Valid() && State() == SetScb(old(State()), p.id, UNUSED)
    {
      p.scoIdx := INVALID_SCO;
      p.retryScoOnly, p.inUse, p.slcOpen, p.svcConn, p.escoCapable := false, false, false, false, false;
      scb := scb[p.id := p.View()];
    }
  }

  /** One step of any kind. */
  method Perform(c: Controller, t: Step) returns (obs: seq<Obs>)
    requires c.Valid() && Enabled(|c.blocks|, t)
    modifies c, c.blocks
    ensures c.Valid() && (c.State(), obs) == Next(old(c.State()), t)
  {
    obs := [];
    match t {
      case ApiListen(p, b) => obs := c.Handle(c.blocks[p], ListenE, b);
      case ApiOpen(p, b) => obs := c.ScoOpen(c.blocks[p], b);
      case ApiClose(p, b) => obs := c.ScoClose(c.blocks[p], b);
      case ApiShutdown(p, b) => obs := c.Handle(c.blocks[p], ShutdownE, b);
      case MsgConnOpen(p, b) => obs := c.ScoConnOpen(c.blocks[p], b);
      case MsgConnClose(p, b) => obs := c.ScoConnClose(c.blocks[p], b);
      case CbConn(idx, peer) => obs := c.ConnCback(idx, peer);
      case CbDisc(idx) => obs := c.DiscCback(idx);
      case CbRequest(idx, peer, b) => obs := c.ConnReqCback(idx, peer, b);
      case Update(p, u, o, v, e) => c.UpdateBlock(c.blocks[p], u, o, v, e);
      case Dealloc(p) => c.ClearBlock(c.blocks[p]);
    }
  }

  /** Any interleaving of requests, messages and callbacks: the program follows the specified run, so
      ownership is accounted for throughout. */
  method Execute(c: Controller, ts: seq<Step>) returns (obs: seq<Obs>)
    requires c.Valid() && AllEnabled(|c.blocks|, ts)
    modifies c, c.blocks
    ensures c.Valid()
    ensures (c.State(), obs) == Run(old(c.State()), ts)
    ensures Accounts(old(c.State()).curr, obs, c.State().curr)
  {
    ghost var s0 := c.State();
    obs := [];
    for i := 0 to |ts|
      invariant c.Valid() && |s0.scb| == |c.blocks| && AllEnabled(|s0.scb|, ts[..i])
      invariant (c.State(), obs) == Run(s0, ts[..i])
    {
      assert ts[..i+1][..i] == ts[..i];
      var o := Perform(c, ts[i]);
      obs := obs + o;
    }
    assert ts[..|ts|] == ts;
    RunAccounts(s0, ts);
  }
}
