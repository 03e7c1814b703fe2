/** What the SCO machine guarantees over every interleaving of requests, messages and callbacks. */
module ScoTheorems {
  import opened Common
  import opened ScoSpec

  // ---------------------------------------------------------------------------------------------
  // Ownership read off the observations alone

  function OwnerStep(o: Option<ScbId>, x: Obs): Option<ScbId> {
    match x
    case Originate(p) => Some(p)
    case Adopted(p) => Some(p)
    case RemoveStarted(p) => Some(p)
    case Cleared(_) => None
    case _ => o
  }

  function OwnerAfter(o: Option<ScbId>, xs: seq<Obs>): Option<ScbId> {
    if xs == [] then o else OwnerStep(OwnerAfter(o, xs[..|xs|-1]), xs[|xs|-1])
  }

  /** An SCO is originated only when no different block is current; an incoming one is adopted only
      when none is; a shutdown clears only its own block. */
  predicate Permitted(o: Option<ScbId>, x: Obs) {
    match x
    case Originate(p) => o == None || o == Some(p)
    case Adopted(_) => o == None
    case Cleared(ShutdownOf(p)) => o == Some(p)
    case _ => true
  }

  /** `xs` leads the owner from `o` to `o'` by permitted changes only. */
  ghost predicate Accounts(o: Option<ScbId>, xs: seq<Obs>, o': Option<ScbId>) {
    && OwnerAfter(o, xs) == o'
    && forall k :: 0 <= k < |xs| ==> Permitted(OwnerAfter(o, xs[..k]), xs[k])
  }

  lemma AccountsNone(o: Option<ScbId>)
    ensures Accounts(o, [], o)
  {
  }

  lemma AccountsOne(o: Option<ScbId>, x: Obs)
    requires Permitted(o, x)
    ensures Accounts(o, [x], OwnerStep(o, x))
  {
    assert [x][..0] == [];
  }

  lemma {:induction false} OwnerAppend(o: Option<ScbId>, a: seq<Obs>, b: seq<Obs>)
    ensures OwnerAfter(o, a + b) == OwnerAfter(OwnerAfter(o, a), b)
  {
    if b == [] {
      assert a + b == a;
    } else {
      OwnerAppend(o, a, b[..|b|-1]);
      assert (a + b)[..|a+b|-1] == a + b[..|b|-1];
    }
  }

  lemma AccountsAppend(o: Option<ScbId>, a: seq<Obs>, o1: Option<ScbId>, b: seq<Obs>, o2: Option<ScbId>)
    requires Accounts(o, a, o1) && Accounts(o1, b, o2)
    ensures Accounts(o, a + b, o2)
  {
    OwnerAppend(o, a, b);
    var xs := a + b;
    forall k | 0 <= k < |xs| ensures Permitted(OwnerAfter(o, xs[..k]), xs[k]) {
      if k < |a| {
        assert xs[..k] == a[..k];
      } else {
        assert xs[..k] == a + b[..k-|a|];
        OwnerAppend(o, a, b[..k-|a|]);
      }
    }
  }

  // ---------------------------------------------------------------------------------------------
  // Each operation accounts for the owner pointer

  lemma CreateListenAccounts(s: Sco, p: ScbId, b: Btm)
    requires ValidSco(s) && p < |s.scb|
    ensures var r := CreateListen(s, p, b); Accounts(s.curr, r.1, r.0.curr)
  {
    AccountsNone(s.curr);
    AccountsOne(s.curr, ListenOn(p));
  }

  lemma CreateOrigAccounts(s: Sco, p: ScbId, b: Btm)
    requires ValidSco(s) && p < |s.scb| && (s.curr == None || s.curr == Some(p))
    ensures var r := CreateOrig(s, p, b);
            Accounts(s.curr, r.1, r.0.curr) && (r.0.curr == None || r.0.curr == Some(p))
  {
    AccountsNone(s.curr);
    AccountsOne(s.curr, Originate(p));
  }

  lemma RemoveAccounts(s: Sco, p: ScbId, onlyActive: bool, b: Btm)
    requires ValidSco(s) && p < |s.scb|
    ensures var r := Remove(s, p, onlyActive, b);
            Accounts(s.curr, r.2, r.0.curr) && (r.0.curr == s.curr || r.0.curr == Some(p))
  {
    AccountsNone(s.curr);
    AccountsOne(s.curr, RemoveStarted(p));
  }

  lemma ForgetBlockAccounts(s: Sco, p: ScbId)
    requires ValidSco(s) && p < |s.scb|
    ensures var r := ForgetBlock(s, p); Accounts(s.curr, r.1, r.0.curr)
  {
    AccountsNone(s.curr);
    if s.curr == Some(p) { AccountsOne(s.curr, Cleared(ShutdownOf(p))); }
  }

  lemma ClearOwnAccounts(s: Sco, p: ScbId)
    requires ValidSco(s)
    ensures var r := ClearOwn(s, p); Accounts(s.curr, r.1, r.0.curr)
  {
    AccountsNone(s.curr);
    if s.curr == Some(p) { AccountsOne(s.curr, Cleared(ShutdownOf(p))); }
  }

  lemma DropBlockAccounts(s: Sco, p: ScbId, b: Btm)
    requires ValidSco(s) && p < |s.scb|
    ensures var r := DropBlock(s, p, b); Accounts(s.curr, r.1, r.0.curr)
  {
    var (s1, _, o1) := Remove(s, p, false, b);
    RemoveAccounts(s, p, false, b);
    var (s2, o2) := ClearOwn(s1, p);
    ClearOwnAccounts(s1, p);
    AccountsAppend(s.curr, o1, s1.curr, o2, s2.curr);
  }

  /** The caller's side of the bargain: bta_ag_sco_open sends OPEN only when no other block is
      current, and bta_ag_sco_conn_close clears the owner before the close event. */
  predicate EventAllowed(s: Sco, p: ScbId, e: Event) {
    match e
    case OpenE => s.curr == None || s.curr == Some(p)
    case XferE => s.curr.Some?
    case ConnCloseE => s.curr == None
    case _ => true
  }

  lemma ListenStateAccounts(s: Sco, p: ScbId, e: Event, b: Btm)
    requires ValidSco(s) && p < |s.scb| && EventAllowed(s, p, e)
    ensures var r := InListen(s, p, e, b); Accounts(s.curr, r.1, r.0.curr)
  {
    AccountsNone(s.curr);
    CreateListenAccounts(s, p, b);
    DropBlockAccounts(s, p, b);
    if e == OpenE {
      var (s1, _, o1) := Remove(s, p, false, b);
      RemoveAccounts(s, p, false, b);
      CreateOrigAccounts(s1, p, b);
      var (s2, o2) := CreateOrig(s1, p, b);
      AccountsAppend(s.curr, o1, s1.curr, o2, s2.curr);
    }
  }

  lemma OpenXferStateAccounts(s: Sco, p: ScbId, e: Event, b: Btm)
    requires ValidSco(s) && p < |s.scb| && EventAllowed(s, p, e) && s.st == OpenXfer
    ensures var r := InOpenXfer(s, p, e, b); Accounts(s.curr, r.1, r.0.curr)
  {
    AccountsNone(s.curr);
    RemoveAccounts(s, p, true, b);
    RemoveAccounts(s, p, false, b);
    if e == ConnCloseE {
      var (s1, o1) := CreateListen(s, p, b);
      CreateListenAccounts(s, p, b);
      var q := s.xfer.value;
      AccountsOne(None, ConnRsp(s1, q));
      AccountsOne(None, Adopted(q));
      AccountsAppend(None, [ConnRsp(s1, q)], None, [Adopted(q)], Some(q));
      assert [ConnRsp(s1, q)] + [Adopted(q)] == [ConnRsp(s1, q), Adopted(q)];
      AccountsAppend(None, o1, None, [ConnRsp(s1, q), Adopted(q)], Some(q));
    }
  }

  lemma CloseXferStateAccounts(s: Sco, p: ScbId, e: Event, b: Btm)
    requires ValidSco(s) && p < |s.scb| && EventAllowed(s, p, e) && s.st == CloseXfer
    ensures var r := InCloseXfer(s, p, e, b); Accounts(s.curr, r.1, r.0.curr)
  {
    AccountsNone(s.curr);
    RemoveAccounts(s, p, true, b);
    if e == ConnCloseE {
      var q := s.xfer.value;
      var (s1, o1) := CreateListen(s, p, b);
      CreateListenAccounts(s, p, b);
      var (s2, _, o2) := Remove(s1, q, false, b);
      RemoveAccounts(s1, q, false, b);
      var (s3, o3) := CreateOrig(s2, q, b);
      CreateOrigAccounts(s2, q, b);
      AccountsAppend(s.curr, o1, s1.curr, o2, s2.curr);
      AccountsAppend(s.curr, o1 + o2, s2.curr, o3, s3.curr);
    }
  }

  lemma ShuttingStateAccounts(s: Sco, p: ScbId, e: Event, b: Btm)
    requires ValidSco(s) && p < |s.scb| && EventAllowed(s, p, e) && s.st == Shutting
    ensures var r := InShutting(s, p, e, b); Accounts(s.curr, r.1, r.0.curr)
  {
    AccountsNone(s.curr);
    RemoveAccounts(s, p, true, b);
    CreateListenAccounts(s, p, b);
    var s1 := s.(st := if OtherScbOpen(s, p) then Listen else Shutdown);
    if e == ConnCloseE {
      var (s2, o2) := if ScbOpen(s1, p) then Relisten(s1, p, b) else (s1, []);
      CreateListenAccounts(s1, p, b);
      ForgetBlockAccounts(s2, p);
      var (s3, o3) := ForgetBlock(s2, p);
      AccountsAppend(s.curr, o2, s2.curr, o3, s3.curr);
    } else {
      ForgetBlockAccounts(s1, p);
    }
  }

  lemma SimpleStateAccounts(s: Sco, p: ScbId, e: Event, b: Btm)
    requires ValidSco(s) && p < |s.scb| && EventAllowed(s, p, e)
    requires s.st != Listen && s.st != OpenXfer && s.st != CloseXfer && s.st != Shutting
    ensures var r := ScoEvent(s, p, e, b); Accounts(s.curr, r.1, r.0.curr)
  {
    AccountsNone(s.curr);
    CreateListenAccounts(s, p, b);
    DropBlockAccounts(s, p, b);
    RemoveAccounts(s, p, true, b);
    RemoveAccounts(s, p, false, b);
    if e == XferE { RemoveAccounts(s, s.curr.value, true, b); }
    if e == ConnCloseE { CreateOrigAccounts(s, p, b); }
  }

  lemma ScoEventAccounts(s: Sco, p: ScbId, e: Event, b: Btm)
    requires ValidSco(s) && p < |s.scb| && EventAllowed(s, p, e)
    ensures var r := ScoEvent(s, p, e, b); Accounts(s.curr, r.1, r.0.curr)
  {
    match s.st
    case Listen => ListenStateAccounts(s, p, e, b);
    case OpenXfer => OpenXferStateAccounts(s, p, e, b);
    case CloseXfer => CloseXferStateAccounts(s, p, e, b);
    case Shutting => ShuttingStateAccounts(s, p, e, b);
    case _ => SimpleStateAccounts(s, p, e, b);
  }

  lemma ConnClosedAccounts(s: Sco, p: ScbId, b: Btm)
    requires ValidSco(s) && p < |s.scb|
    ensures var r := ConnClosed(s, p, b); Accounts(s.curr, r.1, r.0.curr)
  {
    var s1 := SetScb(s, p, s.scb[p].(scoIdx := INVALID_SCO)).(curr := None);
    AccountsOne(s.curr, Cleared(ClosedEvent(p)));
    if s1.scb[p].retryScoOnly && s1.scb[p].svcConn {
      CreateOrigAccounts(s1, p, b);
      var (s2, o2) := CreateOrig(s1, p, b);
      AccountsAppend(s.curr, [Cleared(ClosedEvent(p))], None, o2, s2.curr);
    } else {
      ScoEventAccounts(s1, p, ConnCloseE, b);
      var (s2, o2) := ScoEvent(s1, p, ConnCloseE, b);
      AccountsOne(None, AudioOff(p, s1.xfer.Some?));
      AccountsAppend(None, [AudioOff(p, s1.xfer.Some?)], None, o2, s2.curr);
      AccountsAppend(s.curr, [Cleared(ClosedEvent(p))], None, [AudioOff(p, s1.xfer.Some?)] + o2, s2.curr);
    }
  }

  lemma ConnRequestAccounts(s: Sco, idx: nat, peer: Option<ScbId>, b: Btm)
    requires ValidSco(s)
    ensures var r := ConnRequest(s, idx, peer, b); Accounts(s.curr, r.1, r.0.curr)
  {
    AccountsOne(s.curr, RejectUnknown);
    var found := InUse(s, peer);
    if found.Some? && s.scb[found.value].svcConn {
      var p := found.value;
      var s1 := SetScb(s, p, s.scb[p].(scoIdx := idx));
      if s1.curr.None? {
        AccountsOne(None, ConnRsp(s1, p));
        AccountsOne(None, Adopted(p));
        AccountsAppend(None, [ConnRsp(s1, p)], None, [Adopted(p)], Some(p));
        assert [ConnRsp(s1, p)] + [Adopted(p)] == [ConnRsp(s1, p), Adopted(p)];
      } else {
        var s2 := s1.(xfer := Some(p), st := OpenXfer);
        var (s3, started, o3) := Remove(s2, s2.curr.value, true, b);
        RemoveAccounts(s2, s2.curr.value, true, b);
        var s4 := s3.(xfer := None, st := Listen);
        AccountsOne(s4.curr, ConnRsp(s4, p));
        AccountsAppend(s.curr, o3, s4.curr, [ConnRsp(s4, p)], s4.curr);
      }
    }
  }

  /** A transfer event calls nobody: the present owner is closed first. */
  lemma TransferCallsNobody(s: Sco, p: ScbId, b: Btm)
    requires ValidSco(s) && p < |s.scb| && s.curr.Some?
    ensures forall q: ScbId :: Originate(q) !in ScoEvent(s, p, XferE, b).1
  {
  }

  lemma CloseCallsNobody(s: Sco, p: ScbId, b: Btm)
    requires ValidSco(s) && p < |s.scb|
    ensures var xs := ScoEvent(s, p, CloseE, b).1; forall q: ScbId :: Originate(q) !in xs && Adopted(q) !in xs
  {
  }

  lemma OpenCallsNobody(s: Sco, p: ScbId, b: Btm)
    requires ValidSco(s) && p < |s.scb|
    ensures var xs := ScoEvent(s, p, ConnOpenE, b).1; forall q: ScbId :: Originate(q) !in xs && Adopted(q) !in xs
  {
  }

  lemma CloseEventCalls(s: Sco, p: ScbId, b: Btm)
    requires ValidSco(s) && p < |s.scb|
    ensures var xs := ScoEvent(s, p, ConnCloseE, b).1;
            && (forall q: ScbId :: Originate(q) in xs ==> q == p || Some(q) == s.xfer)
            && (forall q: ScbId :: Adopted(q) in xs ==> Some(q) == s.xfer)
  {
  }

  /** A closed connection leads to a call for the block it was for or for the one waiting, nobody else. */
  lemma CloseCalls(s: Sco, p: ScbId, b: Btm)
    requires ValidSco(s) && p < |s.scb|
    ensures var xs := ConnClosed(s, p, b).1;
            && (forall q: ScbId :: Originate(q) in xs ==> q == p || Some(q) == s.xfer)
            && (forall q: ScbId :: Adopted(q) in xs ==> Some(q) == s.xfer)
  {
    CloseEventCalls(SetScb(s, p, s.scb[p].(scoIdx := INVALID_SCO)).(curr := None), p, b);
  }

  /** An incoming connection leads to no call, and is adopted only without an owner. */
  lemma RequestCalls(s: Sco, idx: nat, peer: Option<ScbId>, b: Btm)
    requires ValidSco(s)
    ensures var (s', xs) := ConnRequest(s, idx, peer, b);
            && (forall q: ScbId :: Originate(q) !in xs)
            && (forall q: ScbId :: Adopted(q) in xs ==> s.curr == None && s'.curr == Some(q))
  {
  }

  lemma NextAccounts(s: Sco, t: Step)
    requires ValidSco(s) && Enabled(|s.scb|, t)
    ensures var r := Next(s, t); Accounts(s.curr, r.1, r.0.curr)
  {
    AccountsNone(s.curr);
    match t
    case ApiListen(p, b) => ScoEventAccounts(s, p, ListenE, b);
    case ApiOpen(p, b) =>
      ScoEventAccounts(s, p, if s.curr.Some? && s.curr != Some(p) then XferE else OpenE, b);
    case ApiClose(p, b) => ScoEventAccounts(s, p, CloseE, b);
    case ApiShutdown(p, b) => ScoEventAccounts(s, p, ShutdownE, b);
    case MsgConnOpen(p, b) => ScoEventAccounts(s, p, ConnOpenE, b);
    case MsgConnClose(p, b) => ConnClosedAccounts(s, p, b);
    case CbConn(idx, peer) =>
      if s.curr.Some? { AccountsOne(s.curr, PostOpen(s.curr.value)); }
      if peer.Some? { AccountsOne(s.curr, PostOpen(peer.value)); }
      AccountsOne(s.curr, Cleared(NoMatch));
      AccountsOne(None, Dropped(idx));
      AccountsAppend(s.curr, [Cleared(NoMatch)], None, [Dropped(idx)], None);
      assert [Cleared(NoMatch)] + [Dropped(idx)] == [Cleared(NoMatch), Dropped(idx)];
    case CbDisc(idx) =>
      if s.curr.Some? { AccountsOne(s.curr, PostClose(s.curr.value)); }
      AccountsOne(s.curr, Cleared(NoMatch));
    case CbRequest(idx, peer, b) => ConnRequestAccounts(s, idx, peer, b);
    case _ =>
  }

  // ---------------------------------------------------------------------------------------------
  // Whole runs

  ghost predicate AllEnabled(n: nat, ts: seq<Step>) {
    forall i :: 0 <= i < |ts| ==> Enabled(n, ts[i])
  }

  ghost function Run(s: Sco, ts: seq<Step>): (r: (Sco, seq<Obs>))
    requires ValidSco(s) && AllEnabled(|s.scb|, ts)
    ensures ValidSco(r.0) && |r.0.scb| == |s.scb|
  {
    if ts == [] then (s, [])
    else
      var before := Run(s, ts[..|ts|-1]);
      var last := Next(before.0, ts[|ts|-1]);
      (last.0, before.1 + last.1)
  }

  /** In every run the observations account for the owner pointer: no SCO is ever originated for a
      block while a different one is recorded as current. */
  lemma {:induction false} RunAccounts(s: Sco, ts: seq<Step>)
    requires ValidSco(s) && AllEnabled(|s.scb|, ts)
    ensures var r := Run(s, ts); Accounts(s.curr, r.1, r.0.curr)
  {
    if ts == [] {
      AccountsNone(s.curr);
    } else {
      var before := Run(s, ts[..|ts|-1]);
      RunAccounts(s, ts[..|ts|-1]);
      NextAccounts(before.0, ts[|ts|-1]);
      var last := Next(before.0, ts[|ts|-1]);
      AccountsAppend(s.curr, before.1, before.0.curr, last.1, last.0.curr);
    }
  }

  /** What may end p's ownership. */
  predicate Releases(p: ScbId, x: Obs) {
    match x
    case Cleared(ShutdownOf(q)) => q == p
    case Cleared(_) => true
    case RemoveStarted(q) => q != p
    case _ => false
  }

  lemma StaysOwner(p: ScbId, x: Obs)
    requires Permitted(Some(p), x) && !Releases(p, x)
    ensures OwnerStep(Some(p), x) == Some(p)
  {
  }

  lemma {:induction false} OwnerUntilRelease(o: Option<ScbId>, xs: seq<Obs>, p: ScbId, i: nat, j: nat)
    requires i < j <= |xs| && xs[i] == Originate(p)
    requires forall k :: 0 <= k < |xs| ==> Permitted(OwnerAfter(o, xs[..k]), xs[k])
    requires forall k :: i < k < j ==> !Releases(p, xs[k])
    ensures OwnerAfter(o, xs[..j]) == Some(p)
    decreases j
  {
    assert xs[..j][..j-1] == xs[..j-1];
    if j > i + 1 {
      OwnerUntilRelease(o, xs, p, i, j - 1);
      assert Permitted(OwnerAfter(o, xs[..j-1]), xs[j-1]);
      StaysOwner(p, xs[j-1]);
    }
  }

  lemma ReleaseBetween(o: Option<ScbId>, xs: seq<Obs>, o': Option<ScbId>, p: ScbId, q: ScbId, i: nat, j: nat)
    requires Accounts(o, xs, o') && i < j < |xs| && p != q
    requires xs[i] == Originate(p) && xs[j] == Originate(q)
    ensures exists k :: i < k < j && Releases(p, xs[k])
  {
    assert Permitted(OwnerAfter(o, xs[..j]), xs[j]);
    if forall k :: i < k < j ==> !Releases(p, xs[k]) {
      OwnerUntilRelease(o, xs, p, i, j);
    }
  }

  /** Close before transfer: between originating an SCO for p and one for a different q, p has given
      up its ownership, by a close event, by its own shutdown, by a connection without a match, or
      because a disconnection was started on another block. */
  lemma TransferNeedsRelease(s: Sco, ts: seq<Step>, xs: seq<Obs>, p: ScbId, q: ScbId, i: nat, j: nat)
    requires ValidSco(s) && AllEnabled(|s.scb|, ts) && xs == Run(s, ts).1
    requires i < j < |xs| && p != q && xs[i] == Originate(p) && xs[j] == Originate(q)
    ensures exists k :: i < k < j && Releases(p, xs[k])
  {
    RunAccounts(s, ts);
    ReleaseBetween(s.curr, xs, Run(s, ts).0.curr, p, q, i, j);
  }

  // ---------------------------------------------------------------------------------------------
  // Where the machine falls short

  /** An owner in one of these states waits for its connection to open or to close. */
  predicate Waiting(s: Sco) { s.curr.Some? && s.st in {Opening, OpenCl, Closing, CloseOp, CloseXfer} }

  /** What applications and the service level do, short of a shutdown. */
  predicate IsRequest(t: Step) { t.ApiListen? || t.ApiOpen? || t.ApiClose? || t.Update? || t.Dealloc? }

  predicate OnlyListens(xs: seq<Obs>) { forall i :: 0 <= i < |xs| ==> xs[i].ListenOn? }

  lemma RequestWaits(s: Sco, t: Step)
    requires ValidSco(s) && Enabled(|s.scb|, t) && Waiting(s) && IsRequest(t)
    ensures var (s', xs) := Next(s, t); Waiting(s') && s'.curr == s.curr && OnlyListens(xs)
  {
  }

  /** While an owner waits, no sequence of requests, for whatever blocks, originates or removes an SCO or
      changes the owner. */
  lemma {:induction false} RequestsWait(s: Sco, ts: seq<Step>)
    requires ValidSco(s) && AllEnabled(|s.scb|, ts) && Waiting(s)
    requires forall i :: 0 <= i < |ts| ==> IsRequest(ts[i])
    ensures var (s', xs) := Run(s, ts); Waiting(s') && s'.curr == s.curr && OnlyListens(xs)
  {
    if ts != [] {
      RequestsWait(s, ts[..|ts|-1]);
      RequestWaits(Run(s, ts[..|ts|-1]).0, ts[|ts|-1]);
    }
  }

  /** An incoming connection that finds no current block always becomes the current one, but it is
      accepted only in three states. In all others a refused connection owns the audio, and however often
      any block then asks for the audio, nobody is called. */
  lemma IncomingOwnership(s: Sco, idx: nat, p: ScbId, b: Btm, ts: seq<Step>)
    requires ValidSco(s) && s.curr == None && p < |s.scb| && s.scb[p].inUse && s.scb[p].svcConn
    requires AllEnabled(|s.scb|, ts) && forall i :: 0 <= i < |ts| ==> IsRequest(ts[i])
    ensures var (s1, xs) := Next(s, CbRequest(idx, Some(p), b));
            var (s2, ys) := Run(s1, ts);
            && xs == [Respond(p, s.st in {Listen, OpenXfer, CloseXfer}), Adopted(p)]
            && s1.curr == Some(p) && s1.curIdx == idx && s1.scb[p].scoIdx == idx
            && s2.curr == Some(p) && OnlyListens(ys)
  {
    RequestsWait(Next(s, CbRequest(idx, Some(p), b)).0, ts);
  }

  predicate InTransfer(s: Sco) { s.st == OpenXfer || s.st == CloseXfer }

  /** The transfer pointer is set exactly while a transfer is under way. */
  predicate Marked(s: Sco) { s.xfer.Some? <==> InTransfer(s) }

  /** The steps that abandon a transfer without clearing the pointer. */
  predicate Strands(s: Sco, t: Step)
    requires ValidSco(s) && Enabled(|s.scb|, t)
  {
    match t
    case ApiClose(p, _) => s.st == OpenXfer && s.scb[p].scoIdx != INVALID_SCO
    case ApiShutdown(_, _) => s.st == OpenXfer
    case CbConn(_, peer) =>
      && InTransfer(s)
      && !(s.curr.Some? && s.scb[s.curr.value].inUse)
      && !(InUse(s, peer).Some? && s.scb[peer.value].svcConn)
    case CbDisc(_) => InTransfer(s) && s.curr.Some? && !s.scb[s.curr.value].inUse
    case CbRequest(_, peer, _) =>
      InTransfer(s) && s.curr.None? && InUse(s, peer).Some? && s.scb[peer.value].svcConn
    case _ => false
  }

  lemma TransferMarkEvent(s: Sco, p: ScbId, e: Event, b: Btm)
    requires ValidSco(s) && p < |s.scb| && Marked(s) && (e == XferE ==> s.curr.Some?)
    ensures Marked(ScoEvent(s, p, e, b).0) <==> !(s.st == OpenXfer && (e == CloseE || e == ShutdownE))
  {
  }

  lemma TransferMarkCallback(s: Sco, t: Step)
    requires ValidSco(s) && Marked(s) && (t.CbConn? || t.CbDisc? || t.CbRequest?)
    ensures Marked(Next(s, t).0) <==> !Strands(s, t)
  {
  }

  lemma TransferMarkRequest(s: Sco, t: Step)
    requires ValidSco(s) && Enabled(|s.scb|, t) && Marked(s) && !t.CbConn? && !t.CbDisc? && !t.CbRequest?
    ensures Marked(Next(s, t).0) <==> !Strands(s, t)
  {
    match t
    case ApiListen(p, b) => TransferMarkEvent(s, p, ListenE, b);
    case ApiOpen(p, b) =>
      TransferMarkEvent(s, p, if s.curr.Some? && s.curr != Some(p) then XferE else OpenE, b);
    case ApiClose(p, b) => TransferMarkEvent(s, p, CloseE, b);
    case ApiShutdown(p, b) => TransferMarkEvent(s, p, ShutdownE, b);
    case MsgConnOpen(p, b) => TransferMarkEvent(s, p, ConnOpenE, b);
    case MsgConnClose(p, b) =>
      TransferMarkEvent(SetScb(s, p, s.scb[p].(scoIdx := INVALID_SCO)).(curr := None), p, ConnCloseE, b);
    case _ =>
  }

  /** A step keeps pointer and state in agreement if and only if it does not strand a transfer. */
  lemma TransferMarkStep(s: Sco, t: Step)
    requires ValidSco(s) && Enabled(|s.scb|, t) && Marked(s)
    ensures Marked(Next(s, t).0) <==> !Strands(s, t)
  {
    if t.CbConn? || t.CbDisc? || t.CbRequest? { TransferMarkCallback(s, t); } else { TransferMarkRequest(s, t); }
  }

  /** The audio layer is told that a close is part of a transfer exactly when the pointer is set; a
      transfer really follows only in the two transfer states. */
  lemma AudioOffReport(s: Sco, p: ScbId, b: Btm)
    requires ValidSco(s) && p < |s.scb| && !(s.scb[p].retryScoOnly && s.scb[p].svcConn)
    ensures var (s', xs) := ConnClosed(s, p, b);
            && |xs| >= 2 && xs[1] == AudioOff(p, s.xfer.Some?)
            && (xs[1] == AudioOff(p, InTransfer(s)) <==> (InTransfer(s) || s.xfer == None))
            && (!InTransfer(s) ==> s'.xfer == s.xfer)
  {
  }

  /** A transfer nobody makes: whenever a close request overtakes an incoming transfer, the audio
      layer is told at the next close that a transfer is under way, while the machine goes back to
      listening and the waiting block is neither adopted nor called. */
  lemma StrandedTransfer(s: Sco, p: ScbId, b: Btm, q: ScbId, b': Btm)
    requires ValidSco(s) && s.st == OpenXfer && p < |s.scb| && q < |s.scb|
    requires s.scb[p].scoIdx != INVALID_SCO && !s.scb[q].retryScoOnly
    ensures var s1 := Next(s, ApiClose(p, b)).0;
            var (s2, xs) := Next(s1, MsgConnClose(q, b'));
            && s1.st == Closing && s1.xfer == s.xfer
            && |xs| >= 2 && xs[1] == AudioOff(q, true)
            && s2.st == Listen && s2.curr == None
            && forall r: ScbId :: Originate(r) !in xs && Adopted(r) !in xs
  {
    var s1 := CloseRequest(s, p, b).0;
    AudioOffReport(s1, q, b');
  }

  // ---------------------------------------------------------------------------------------------
  // That this really happens, from the very start

  const UP := Scb(INVALID_SCO, false, true, true, true, false)
  const FIRST := Btm(Some(1), Some(2), Gone, false)
  const STARTS := Btm(Some(1), Some(2), CmdStarted, false)

  /** Two headsets come up; the first gets its audio, then the second asks for the audio. */
  const TO_TRANSFER: seq<Step> := [
    Update(0, true, true, true, false), Update(1, true, true, true, false), ApiListen(0, FIRST),
    ApiOpen(0, FIRST), MsgConnOpen(0, FIRST), CbRequest(3, Some(1), STARTS)]

  /** The states they lead through. */
  function Milestone(k: nat): Sco {
    var idle := UP.(scoIdx := INVALID_SCO);
    if k == 0 then Initial(2)
    else if k == 1 then Initial(2).(scb := [idle, UNUSED])
    else if k == 2 then Initial(2).(scb := [idle, idle])
    else if k == 3 then Sco(Listen, None, None, INVALID_SCO, [UP.(scoIdx := 1), idle])
    else if k == 4 then Sco(Opening, Some(0), None, 2, [UP.(scoIdx := 2), idle])
    else if k == 5 then Sco(Open, Some(0), None, 2, [UP.(scoIdx := 2), idle])
    else Sco(OpenXfer, Some(0), Some(1), 2, [UP.(scoIdx := 2), UP.(scoIdx := 3)])
  }

  lemma OneMilestone(k: nat)
    requires k < 6
    ensures ValidSco(Milestone(k)) && |Milestone(k).scb| == 2 && Enabled(2, TO_TRANSFER[k])
    ensures Next(Milestone(k), TO_TRANSFER[k]).0 == Milestone(k + 1)
  {
    assert Next(Milestone(k), TO_TRANSFER[k]).0.scb == Milestone(k + 1).scb;
  }

  lemma {:induction false} ReachMilestone(k: nat)
    requires k <= 6
    ensures AllEnabled(2, TO_TRANSFER[..k])
    ensures ValidSco(Initial(2)) && Run(Initial(2), TO_TRANSFER[..k]).0 == Milestone(k)
  {
    if k > 0 {
      ReachMilestone(k - 1);
      OneMilestone(k - 1);
      assert TO_TRANSFER[..k][..k-1] == TO_TRANSFER[..k-1];
    }
  }

  /** From a gateway just started: six ordinary events lead to a transfer under way; a close request and
      the close then leave the audio layer waiting for a transfer that is not made. */
  lemma StrandedFromStart()
    ensures ValidSco(Initial(2)) && AllEnabled(2, TO_TRANSFER)
    ensures var s := Run(Initial(2), TO_TRANSFER).0;
            var s1 := Next(s, ApiClose(0, STARTS)).0;
            var (s2, xs) := Next(s1, MsgConnClose(0, FIRST));
            && s == Milestone(6) && s1.xfer == Some(1)
            && |xs| >= 2 && xs[1] == AudioOff(0, true) && s2.st == Listen && s2.curr == None
            && forall r: ScbId :: Originate(r) !in xs && Adopted(r) !in xs
  {
    ReachMilestone(6);
    assert TO_TRANSFER[..6] == TO_TRANSFER;
    StrandedTransfer(Milestone(6), 0, STARTS, 0, FIRST);
  }

  /** Two headsets come up; the first asks for the audio and shuts down while its connection opens. */
  const TO_REFUSAL: seq<Step> := [
    Update(0, true, true, true, false), Update(1, true, true, true, false), ApiListen(0, FIRST),
    ApiOpen(0, FIRST), ApiShutdown(0, FIRST)]

  /** OPENING without an owner. */
  const OWNERLESS := Sco(Opening, None, None, 2, [UP.(scoIdx := INVALID_SCO), UP.(scoIdx := INVALID_SCO)])

  lemma ReachOwnerless()
    ensures AllEnabled(2, TO_REFUSAL) && ValidSco(Initial(2)) && Run(Initial(2), TO_REFUSAL).0 == OWNERLESS
  {
    ReachMilestone(4);
    assert TO_REFUSAL[..4] == TO_TRANSFER[..4];
    assert Next(Milestone(4), TO_REFUSAL[4]).0 == OWNERLESS by {
      var s1 := SetScb(Milestone(4), 0, UP.(scoIdx := INVALID_SCO)).(curr := None);
      assert s1.scb == OWNERLESS.scb;
      assert OtherScbOpen(s1, 0) by { assert s1.scb[1].slcOpen; }
    }
  }

  /** From a gateway just started: after these five events an incoming connection of the second headset is
      refused and still owns the audio; no sequence of requests of either headset then leads to a call. */
  lemma RefusedFromStart(ts: seq<Step>)
    requires AllEnabled(2, ts) && forall i :: 0 <= i < |ts| ==> IsRequest(ts[i])
    ensures AllEnabled(2, TO_REFUSAL) && ValidSco(Initial(2)) && Run(Initial(2), TO_REFUSAL).0 == OWNERLESS
    ensures var (s1, xs) := Next(OWNERLESS, CbRequest(3, Some(1), FIRST));
            var (s2, ys) := Run(s1, ts);
            && xs == [Respond(1, false), Adopted(1)]
            && s2.curr == Some(1) && forall q: ScbId :: Originate(q) !in ys
  {
    ReachOwnerless();
    IncomingOwnership(OWNERLESS, 3, 1, FIRST, ts);
  }
}
