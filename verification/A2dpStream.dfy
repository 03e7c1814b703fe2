/**
 The A2DP output stream of the audio HAL (audio_a2dp_hw/audio_a2dp_hw.c, build without split A2DP).
 Each method below runs with the stream lock held; out_write drops the lock around the socket write,
 so it is two methods that may interleave with everything else. Outcomes of control commands and of
 socket calls are inputs.
 */
module A2dpStream {
  import opened A2dpControl

  datatype State = Starting | Started | Stopping | Stopped | Suspended | Standby

  datatype Stream = Stream(st: State, audioFd: int, rendered: nat, presented: nat)

  const INITIAL := Stream(Stopped, DISCONNECTED, 0, 0)

  // ---------------------------------------------------------------------------------------------
  // Specification

  /** start_audio_datapath: the state becomes STARTED only inside the branch that opens the data
      socket. */
  function Start(s: Stream, start: Ack, fd: int): (Stream, bool) {
    if start != Ok then (s, false)
    else if s.audioFd != DISCONNECTED then (s.(st := Starting), true)
    else if fd < 0 then (s.(audioFd := fd), false)
    else (s.(audioFd := fd, st := Started), true)
  }

  /** suspend_audio_datapath: an "in call" answer counts as success. */
  function Suspend(s: Stream, standby: bool, suspend: Ack): (Stream, seq<Cmd>) {
    if s.st == Stopping then (s, [])
    else if suspend == Err then (s, [CmdSuspend])
    else (s.(st := if standby then Standby else Suspended, audioFd := DISCONNECTED), [CmdSuspend])
  }

  function Count(s: Stream, frames: nat): Stream {
    s.(rendered := s.rendered + frames, presented := s.presented + frames)
  }

  /** First locked half of out_write; the flag says whether the write goes on to the socket. */
  function WriteBegins(s: Stream, frames: nat, start: Ack, fd: int): (Stream, bool, seq<Cmd>) {
    match s.st
    case Stopped =>
      var (s', go) := Start(s, start, fd);
      (if go then s' else Count(s', frames), go, [CmdStart])
    case Standby =>
      var (s', go) := Start(s, start, fd);
      (if go then s' else Count(s', frames), go, [CmdStart])
    case Started => (s, true, [])
    case _ => (Count(s, frames), false, [])
  }

  /** Second locked half: a failed write closes the socket and stops the stream unless it was
      suspended or told to stop meanwhile. */
  function WriteEnds(s: Stream, frames: nat, ok: bool): Stream {
    if ok then Count(s, frames)
    else
      Count(s.(audioFd := DISCONNECTED,
               st := if s.st == Suspended || s.st == Stopping then s.st else Stopped), frames)
  }

  function StandbyRequest(s: Stream, suspend: Ack): (Stream, seq<Cmd>) {
    var (s', cs) := if s.st != Suspended then Suspend(s, true, suspend) else (s, []);
    (s'.(rendered := 0), cs)
  }

  /** A2dpSuspended=true. */
  function SuspendRequest(s: Stream, check: Ack, suspend: Ack): (Stream, seq<Cmd>) {
    if s.st == Started then Suspend(s, false, suspend)
    else if check != Err then
      var (s', cs) := Suspend(s, false, suspend);
      (s', [CmdCheckStarted] + cs)
    else (s.(st := Suspended), [CmdCheckStarted])
  }

  /** Any other value of A2dpSuspended. */
  function ResumeRequest(s: Stream): Stream {
    if s.st == Suspended then s.(st := Standby) else s
  }

  datatype Step =
    | WriteBegin(frames: nat, start: Ack, fd: int)
    | WriteEnd(frames: nat, ok: bool)
    | GoStandby(suspend: Ack)
    | Closing
    | SuspendOn(check: Ack, suspend: Ack)
    | SuspendOff

  function Next(s: Stream, t: Step): (Stream, seq<Cmd>) {
    match t
    case WriteBegin(n, start, fd) => var (s', _, cs) := WriteBegins(s, n, start, fd); (s', cs)
    case WriteEnd(n, ok) => (WriteEnds(s, n, ok), [])
    case GoStandby(suspend) => StandbyRequest(s, suspend)
    case Closing => (s.(st := Stopping), [])
    case SuspendOn(check, suspend) => SuspendRequest(s, check, suspend)
    case SuspendOff => (ResumeRequest(s), [])
  }

  function Run(s: Stream, ts: seq<Step>): (Stream, seq<Cmd>) {
    if ts == [] then (s, [])
    else
      var before := Run(s, ts[..|ts|-1]);
      var last := Next(before.0, ts[|ts|-1]);
      (last.0, before.1 + last.1)
  }

  // ---------------------------------------------------------------------------------------------
  // The stream object

  class OutStream {
    var state: State
    var audioFd: int
    var framesRendered: nat
    var framesPresented: nat

    ghost function View(): Stream
      reads this
    {
      Stream(state, audioFd, framesRendered, framesPresented)
    }

    constructor ()
      ensures View() == INITIAL
    {
      state := Stopped;
      audioFd := DISCONNECTED;
      framesRendered, framesPresented := 0, 0;
    }

    method StartAudioDatapath(start: Ack, fd: int) returns (ok: bool)
      modifies this
      ensures (View(), ok) == Start(old(View()), start, fd)
    {
      var oldState := state;
      state := Starting;
      if start == Err || start == InCall {
        state := oldState;
        return false;
      }
      if audioFd == DISCONNECTED {
        audioFd := fd;
        if audioFd < 0 {
          state := oldState;
          return false;
        }
        state := Started;
      }
      ok := true;
    }

    method SuspendAudioDatapath(standby: bool, suspend: Ack) returns (cmds: seq<Cmd>)
      modifies this
      ensures (View(), cmds) == Suspend(old(View()), standby, suspend)
    {
      if state == Stopping { return []; }
      cmds := [CmdSuspend];
      if suspend == Err { return; }
      if standby {
        state := Standby;
      } else {
        state := Suspended;
      }
      audioFd := DISCONNECTED;
    }

    method OutWriteBegin(frames: nat, start: Ack, fd: int) returns (go: bool, cmds: seq<Cmd>)
      modifies this
      ensures (View(), go, cmds) == WriteBegins(old(View()), frames, start, fd)
    {
      go, cmds := false, [];
      if state != Suspended && state != Stopping {
        if state == Stopped || state == Standby {
          cmds := [CmdStart];
          go := StartAudioDatapath(start, fd);
        } else {
          go := state == Started;
        }
      }
      if !go { Finish(frames); }
    }

    method OutWriteEnd(frames: nat, ok: bool)
      modifies this
      ensures View() == WriteEnds(old(View()), frames, ok)
    {
      if !ok {
        audioFd := DISCONNECTED;
        if state != Suspended && state != Stopping {
          state := Stopped;
        }
      }
      Finish(frames);
    }

    method Finish(frames: nat)
      modifies this
      ensures View() == Count(old(View()), frames)
    {
      framesRendered := framesRendered + frames;
      framesPresented := framesPresented + frames;
    }

    method OutStandby(suspend: Ack) returns (cmds: seq<Cmd>)
      modifies this
      ensures (View(), cmds) == StandbyRequest(old(View()), suspend)
    {
      cmds := [];
      if state != Suspended {
        cmds := SuspendAudioDatapath(true, suspend);
      }
      framesRendered := 0;
    }

    method SetClosing()
      modifies this
      ensures View() == old(View()).(st := Stopping)
    {
      state := Stopping;
    }

    method SetSuspended(on: bool, check: Ack, suspend: Ack) returns (cmds: seq<Cmd>)
      modifies this
      ensures (View(), cmds) ==
              if on then SuspendRequest(old(View()), check, suspend) else (ResumeRequest(old(View())), [])
    {
      cmds := [];
      if on {
        if state == Started {
          cmds := SuspendAudioDatapath(false, suspend);
        } else {
          cmds := [CmdCheckStarted];
          if check != Err {
            var more := SuspendAudioDatapath(false, suspend);
            cmds := cmds + more;
          } else {
            state := Suspended;
          }
        }
      } else if state == Suspended {
        state := Standby;
      }
    }
  }

  /** Any interleaving of locked sections follows the specified run. */
  method Execute(o: OutStream, ts: seq<Step>) returns (cmds: seq<Cmd>)
    modifies o
    ensures (o.View(), cmds) == Run(old(o.View()), ts)
  {
    ghost var s0 := o.View();
    cmds := [];
    for i := 0 to |ts|
      invariant (o.View(), cmds) == Run(s0, ts[..i])
    {
      assert ts[..i+1][..i] == ts[..i];
      var cs: seq<Cmd> := [];
      match ts[i] {
        case WriteBegin(n, start, fd) =>
          var go;
          go, cs := o.OutWriteBegin(n, start, fd);
        case WriteEnd(n, ok) => o.OutWriteEnd(n, ok);
        case GoStandby(suspend) => cs := o.OutStandby(suspend);
        case Closing => o.SetClosing();
        case SuspendOn(check, suspend) => cs := o.SetSuspended(true, check, suspend);
        case SuspendOff => cs := o.SetSuspended(false, Err, Err);
      }
      cmds := cmds + cs;
    }
    assert ts[..|ts|] == ts;
  }

  // ---------------------------------------------------------------------------------------------
  // Safety over every interleaving

  /** Suspend holds: whatever interleaving of write halves, standby and parameter changes follows, no
      START is sent from SUSPENDED until A2dpSuspended is set to something other than "true". */
  lemma {:induction false} SuspendHolds(s: Stream, ts: seq<Step>)
    requires s.st == Suspended
    requires SuspendOff !in ts
    ensures Run(s, ts).0.st == Suspended || Run(s, ts).0.st == Stopping
    ensures CmdStart !in Run(s, ts).1
  {
    if ts != [] {
      SuspendHolds(s, ts[..|ts|-1]);
    }
  }

  /** Which commands a locked section sends, in order. */
  lemma CommandsExactly(s: Stream, t: Step)
    ensures Next(s, t).1 ==
            match t
            case WriteBegin(_, _, _) => (if s.st == Stopped || s.st == Standby then [CmdStart] else [])
            case GoStandby(_) => (if s.st == Suspended || s.st == Stopping then [] else [CmdSuspend])
            case SuspendOn(check, _) =>
              if s.st == Started then [CmdSuspend]
              else if s.st == Stopping || check == Err then [CmdCheckStarted]
              else [CmdCheckStarted, CmdSuspend]
            case _ => []
  {
  }

  /** How the stream comes to be SUSPENDED or to leave it: only A2dpSuspended=true leads there, unless the
      stack refuses or the stream is closing; only another value of it or a close request leads out. */
  lemma SuspendedStep(s: Stream, t: Step)
    ensures Next(s, t).0.st == Suspended <==>
              match t
              case SuspendOn(check, suspend) =>
                || s.st == Suspended || (s.st == Started && suspend != Err)
                || (s.st != Started && (check == Err || (suspend != Err && s.st != Stopping)))
              case SuspendOff => false
              case Closing => false
              case _ => s.st == Suspended
  {
  }

  /** A stream found SUSPENDED was so from the start or has been told to suspend. */
  lemma {:induction false} SuspendedWasTold(s: Stream, ts: seq<Step>)
    requires s.st != Suspended && Run(s, ts).0.st == Suspended
    ensures exists i :: 0 <= i < |ts| && ts[i].SuspendOn?
  {
    var init, t := ts[..|ts|-1], ts[|ts|-1];
    if Run(s, init).0.st == Suspended {
      SuspendedWasTold(s, init);
      var i :| 0 <= i < |init| && init[i].SuspendOn?;
      assert ts[i].SuspendOn?;
    } else {
      SuspendedStep(Run(s, init).0, t);
      assert ts[|ts|-1].SuspendOn?;
    }
  }

  /** Standby gives up the socket but not the stream: unless suspended, closing or refused by the stack, the
      stream waits in STANDBY, and the next write restarts it on a new socket with a single START. */
  lemma StandbyRestarts(s: Stream, suspend: Ack, n: nat, fd: int)
    requires s.st != Suspended && s.st != Stopping && suspend != Err && fd >= 0
    ensures var (s1, cs) := Next(s, GoStandby(suspend));
            var (s2, go, ds) := WriteBegins(s1, n, Ok, fd);
            && s1 == s.(st := Standby, audioFd := DISCONNECTED, rendered := 0) && cs == [CmdSuspend]
            && s2 == s1.(st := Started, audioFd := fd) && go && ds == [CmdStart]
            && Run(s, [GoStandby(suspend), WriteBegin(n, Ok, fd)]) == (s2, [CmdSuspend, CmdStart])
  {
    var a, b := GoStandby(suspend), WriteBegin(n, Ok, fd);
    assert [a, b][..1] == [a] && [a][..0] == [];
    assert Run(s, []) == (s, []) && [] + Next(s, a).1 == Next(s, a).1;
    assert Run(s, [a]) == Next(s, a) && [CmdSuspend] + [CmdStart] == [CmdSuspend, CmdStart];
  }

  /** The same after a suspend, once it is lifted; until then every write is refused and still counted. */
  lemma ResumeRestarts(s: Stream, n: nat, start: Ack, fd: int)
    requires s.st == Suspended && s.audioFd == DISCONNECTED && fd >= 0
    ensures WriteBegins(s, n, start, fd) == (Count(s, n), false, [])
    ensures var s1 := Next(s, SuspendOff).0;
            && s1 == s.(st := Standby)
            && WriteBegins(s1, n, Ok, fd) == (s.(st := Started, audioFd := fd), true, [CmdStart])
  {
  }

  /** Which writes go on to the socket: those of a playing stream and those that could start it. A refused
      start leaves the stream as it was, but for the frames counted and the number of the failed socket. */
  lemma GoesOnExactly(s: Stream, n: nat, start: Ack, fd: int)
    ensures var (s', go, _) := WriteBegins(s, n, start, fd);
            var idle := s.st == Stopped || s.st == Standby;
            && (go <==> s.st == Started || (idle && start == Ok && (s.audioFd != DISCONNECTED || fd >= 0)))
            && (!go ==> s'.st == s.st && s'.rendered == s.rendered + n && s'.presented == s.presented + n)
            && (!go ==> s'.audioFd == if idle && start == Ok && s.audioFd == DISCONNECTED then fd else s.audioFd)
            && (go ==> s'.rendered == s.rendered && s'.presented == s.presented)
            && (go && s.st != Started ==> s'.audioFd == if s.audioFd == DISCONNECTED then fd else s.audioFd)
            && (go && s.st == Started ==> s' == s)
  {
  }

  /** What the end of a write does: its frames count either way; a failure gives up the socket and stops the
      stream, but never undoes a suspend or a close request that came in between. */
  lemma WriteEndExactly(s: Stream, n: nat, ok: bool)
    ensures var s' := Next(s, WriteEnd(n, ok)).0;
            && s'.rendered == s.rendered + n && s'.presented == s.presented + n
            && (ok ==> s'.st == s.st && s'.audioFd == s.audioFd)
            && (!ok ==> s'.audioFd == DISCONNECTED && s'.st == if s.st in {Suspended, Stopping} then s.st else Stopped)
  {
  }

  /** A playing stream always has its data socket, even when a failed write of an earlier session
      finishes late. */
  lemma {:induction false} StartedHasSocket(s: Stream, ts: seq<Step>)
    requires s.st == Started ==> s.audioFd >= 0
    ensures Run(s, ts).0.st == Started ==> Run(s, ts).0.audioFd >= 0
  {
    if ts != [] {
      StartedHasSocket(s, ts[..|ts|-1]);
    }
  }

  /** A start that reports success leaves the stream STARTED if and only if no data socket was open
      before; and that is the only way a locked section can leave it STARTING. */
  lemma StartOutcome(s: Stream, t: Step)
    requires s.st != Starting
    ensures Next(s, t).0.st == Starting <==>
              && t.WriteBegin? && t.start == Ok && (s.st == Stopped || s.st == Standby)
              && s.audioFd != DISCONNECTED
    ensures t.WriteBegin? && (s.st == Stopped || s.st == Standby) && WriteBegins(s, t.frames, t.start, t.fd).1 ==>
              (Next(s, t).0.st == Started <==> s.audioFd == DISCONNECTED)
  {
  }

  /** What leaves a STARTING stream STARTING. */
  predicate StaysStarting(t: Step) {
    match t
    case WriteBegin(_, _, _) => true
    case WriteEnd(_, ok) => ok
    case GoStandby(suspend) => suspend == Err
    case Closing => false
    case SuspendOn(check, suspend) => check != Err && suspend == Err
    case SuspendOff => true
  }

  /** A write finds a data socket open although the stream does not play. */
  predicate EntersStarting(s: Stream, t: Step) {
    && t.WriteBegin? && t.start == Ok && (s.st == Stopped || s.st == Standby)
    && s.audioFd != DISCONNECTED
  }

  lemma StartingStep(s: Stream, t: Step)
    requires s.st == Starting
    ensures Next(s, t).0.st == Starting <==> StaysStarting(t)
  {
  }

  /** The i-th section leaves the stream STARTING and nothing after it gets it out. */
  predicate StartingSince(s: Stream, ts: seq<Step>, i: nat)
    requires i < |ts|
  {
    EntersStarting(Run(s, ts[..i]).0, ts[i]) && forall j :: i < j < |ts| ==> StaysStarting(ts[j])
  }

  lemma {:induction false} StillStarting(s: Stream, ts: seq<Step>, i: nat)
    requires i < |ts| && StartingSince(s, ts, i)
    ensures Run(s, ts).0.st == Starting
  {
    var init, t := ts[..|ts|-1], ts[|ts|-1];
    if i == |init| {
      StartOutcome(Run(s, init).0, t);
    } else {
      assert init[..i] == ts[..i];
      StillStarting(s, init, i);
      StartingStep(Run(s, init).0, t);
    }
  }

  lemma {:induction false} StartingPoint(s: Stream, ts: seq<Step>) returns (i: nat)
    requires s.st != Starting && Run(s, ts).0.st == Starting
    ensures i < |ts| && StartingSince(s, ts, i)
  {
    var init, t := ts[..|ts|-1], ts[|ts|-1];
    if Run(s, init).0.st == Starting {
      i := StartingPoint(s, init);
      StartingStep(Run(s, init).0, t);
      assert init[..i] == ts[..i];
    } else {
      StartOutcome(Run(s, init).0, t);
      i := |init|;
    }
  }

  /** A stream is found STARTING if and only if some write found a data socket open although the stream
      did not play, and nothing since has got it out. */
  lemma StartingExactly(s: Stream, ts: seq<Step>)
    requires s.st != Starting
    ensures Run(s, ts).0.st == Starting <==> exists i :: 0 <= i < |ts| && StartingSince(s, ts, i)
  {
    if Run(s, ts).0.st == Starting { var i := StartingPoint(s, ts); }
    if i :| 0 <= i < |ts| && StartingSince(s, ts, i) { StillStarting(s, ts, i); }
  }

  /** Exactly when is a socket open at a lock boundary: as long as the stream is not told to close,
      precisely while it is STARTED; then it is never found STARTING. */
  predicate Settled(s: Stream) {
    && s.st != Starting && s.st != Stopping
    && (s.st == Started <==> s.audioFd >= 0)
    && (s.audioFd < 0 ==> s.audioFd == DISCONNECTED)
  }

  predicate GoodFd(t: Step) { t.WriteBegin? ==> t.fd >= DISCONNECTED }

  lemma {:induction false} SettledUnlessClosing(s: Stream, ts: seq<Step>)
    requires Settled(s) && Closing !in ts && forall t :: t in ts ==> GoodFd(t)
    ensures Settled(Run(s, ts).0)
  {
    if ts != [] {
      SettledUnlessClosing(s, ts[..|ts|-1]);
      assert GoodFd(ts[|ts|-1]);
    }
  }

  lemma RunSnoc(s: Stream, ts: seq<Step>, t: Step)
    ensures Run(s, ts + [t]).0 == Next(Run(s, ts).0, t).0
  {
    assert (ts + [t])[..|ts|] == ts;
  }

  /** With a close request the invariant fails: from any playing stream, closing, a suspend that finds
      the stack idle, a resume and a write leave the stream STARTING with its old socket. */
  lemma StuckStarting(s: Stream, frames: nat, fd: int, suspend: Ack)
    requires s.st == Started && s.audioFd >= 0
    ensures Run(s, [Closing, SuspendOn(Err, suspend), SuspendOff, WriteBegin(frames, Ok, fd)]).0
            == s.(st := Starting)
  {
    var a, b, c, d := Closing, SuspendOn(Err, suspend), SuspendOff, WriteBegin(frames, Ok, fd);
    var t1, t2, t3 := [] + [a], [] + [a] + [b], [] + [a] + [b] + [c];
    RunSnoc(s, [], a);
    RunSnoc(s, t1, b);
    RunSnoc(s, t2, c);
    RunSnoc(s, t3, d);
    assert t3 + [d] == [a, b, c, d];
  }

  // ---------------------------------------------------------------------------------------------
  // Writes that end late

  /** The section closes the data socket. */
  predicate Shuts(s: Stream, t: Step) {
    match t
    case WriteEnd(_, ok) => !ok
    case GoStandby(suspend) => s.st != Suspended && s.st != Stopping && suspend != Err
    case SuspendOn(check, suspend) => suspend != Err && s.st != Stopping && (s.st == Started || check != Err)
    case _ => false
  }

  /** After every section the stream still has the same socket. */
  predicate SameSocket(s: Stream, ts: seq<Step>) {
    ts == [] || (SameSocket(s, ts[..|ts|-1]) && Run(s, ts).0.audioFd == s.audioFd)
  }

  predicate NoneShuts(s: Stream, ts: seq<Step>) {
    ts == [] || (NoneShuts(s, ts[..|ts|-1]) && !Shuts(Run(s, ts[..|ts|-1]).0, ts[|ts|-1]))
  }

  lemma ShutsStep(s: Stream, t: Step)
    requires s.audioFd >= 0
    ensures Next(s, t).0.audioFd == s.audioFd <==> !Shuts(s, t)
  {
  }

  /** From a write's first half on, the stream keeps the socket the write was meant for if and only if no
      section in between closes it. */
  lemma {:induction false} SocketKept(s: Stream, ts: seq<Step>)
    requires s.audioFd >= 0
    ensures SameSocket(s, ts) <==> NoneShuts(s, ts)
    ensures SameSocket(s, ts) ==> Run(s, ts).0.audioFd == s.audioFd
  {
    if ts != [] {
      var init := ts[..|ts|-1];
      SocketKept(s, init);
      if SameSocket(s, init) { ShutsStep(Run(s, init).0, ts[|ts|-1]); }
    }
  }

  /** If one does, a write that fails late ends the session after its own: with a suspend, a resume and a
      new write in between, the stream plays on a new socket, which the old write then closes. */
  lemma LateFailure(s: Stream, n: nat, m: nat, start: Ack, unused: int, check: Ack, fd: int)
    requires s.st == Started && s.audioFd >= 0 && fd >= 0
    ensures WriteBegins(s, n, start, unused).1
    ensures var ts := [WriteBegin(n, start, unused), SuspendOn(check, Ok), SuspendOff, WriteBegin(m, Ok, fd)];
            && Run(s, ts).0 == s.(audioFd := fd)
            && Run(s, ts + [WriteEnd(n, false)]).0 == Count(s.(st := Stopped, audioFd := DISCONNECTED), n)
  {
    var a, b, c, d := WriteBegin(n, start, unused), SuspendOn(check, Ok), SuspendOff, WriteBegin(m, Ok, fd);
    var t1, t2, t3 := [] + [a], [] + [a] + [b], [] + [a] + [b] + [c];
    RunSnoc(s, [], a);
    RunSnoc(s, t1, b);
    RunSnoc(s, t2, c);
    RunSnoc(s, t3, d);
    assert t3 + [d] == [a, b, c, d];
    RunSnoc(s, [a, b, c, d], WriteEnd(n, false));
  }

  predicate IsWrite(t: Step) { t.WriteBegin? || (t.WriteEnd? && t.ok) }

  /** A STARTING stream refuses every further write; only standby, a parameter change or a late write
      failure gets it out. */
  lemma {:induction false} StartingRefusesWrites(s: Stream, ts: seq<Step>)
    requires s.st == Starting && forall t :: t in ts ==> IsWrite(t)
    ensures Run(s, ts).0.st == Starting && Run(s, ts).1 == []
    ensures forall n, start, fd :: !WriteBegins(Run(s, ts).0, n, start, fd).1
  {
    if ts != [] {
      StartingRefusesWrites(s, ts[..|ts|-1]);
      assert IsWrite(ts[|ts|-1]);
    }
  }

  /** Frames handed in by the writes that a run completes. */
  function Written(s: Stream, ts: seq<Step>): nat {
    if ts == [] then 0
    else
      var init, t := ts[..|ts|-1], ts[|ts|-1];
      var here := match t
        case WriteBegin(n, start, fd) => (if WriteBegins(Run(s, init).0, n, start, fd).1 then 0 else n)
        case WriteEnd(n, _) => n
        case _ => 0;
      Written(s, init) + here
  }

  /** Every completed write is presented exactly once, whether or not it reached the socket. */
  lemma {:induction false} FramesConserved(s: Stream, ts: seq<Step>)
    requires s.rendered <= s.presented
    ensures Run(s, ts).0.presented == s.presented + Written(s, ts)
    ensures Run(s, ts).0.rendered <= Run(s, ts).0.presented
  {
    if ts != [] {
      FramesConserved(s, ts[..|ts|-1]);
    }
  }

  // ---------------------------------------------------------------------------------------------
  // The stream on its control channel

  /** A locked section before the stack has answered its commands. */
  datatype Act =
    | BeginWrite(frames: nat, fd: int) | EndWrite(frames: nat, ok: bool) | Rest | Close | Suspending | Resuming

  /** The section with the answers the channel gives to the commands it sends. */
  function Resolve(env: Env, s: Stream, c: Ctl, a: Act): Step {
    match a
    case BeginWrite(n, fd) =>
      WriteBegin(n, if s.st == Stopped || s.st == Standby then Command(env, c, CmdStart).1 else Err, fd)
    case EndWrite(n, ok) => WriteEnd(n, ok)
    case Rest => GoStandby(if s.st == Suspended || s.st == Stopping then Err else Command(env, c, CmdSuspend).1)
    case Close => Closing
    case Suspending =>
      if s.st == Started then SuspendOn(Err, Command(env, c, CmdSuspend).1)
      else
        var (c', check) := Command(env, c, CmdCheckStarted);
        SuspendOn(check, if check == Err || s.st == Stopping then Err else Command(env, c', CmdSuspend).1)
    case Resuming => SuspendOff
  }

  /** The channel after the commands of a section. */
  function Issue(env: Env, c: Ctl, cmds: seq<Cmd>): Ctl {
    if cmds == [] then c else Command(env, Issue(env, c, cmds[..|cmds|-1]), cmds[|cmds|-1]).0
  }

  function Perform(env: Env, s: Stream, c: Ctl, a: Act): (Stream, Ctl) {
    var (s', cmds) := Next(s, Resolve(env, s, c, a));
    (s', Issue(env, c, cmds))
  }

  function Together(env: Env, s: Stream, c: Ctl, acts: seq<Act>): (Stream, Ctl) {
    if acts == [] then (s, c)
    else
      var before := Together(env, s, c, acts[..|acts|-1]);
      Perform(env, before.0, before.1, acts[|acts|-1])
  }

  /** The locked sections that come about. */
  function Sections(env: Env, s: Stream, c: Ctl, acts: seq<Act>): seq<Step> {
    if acts == [] then []
    else
      var init := acts[..|acts|-1];
      var before := Together(env, s, c, init);
      Sections(env, s, c, init) + [Resolve(env, before.0, before.1, acts[|acts|-1])]
  }

  lemma IssueOne(env: Env, c: Ctl, x: Cmd)
    ensures Issue(env, c, [x]) == Command(env, c, x).0
  {
    assert [x][..0] == [];
  }

  lemma IssueTwo(env: Env, c: Ctl, x: Cmd, y: Cmd)
    ensures Issue(env, c, [x] + [y]) == Command(env, Command(env, c, x).0, y).0
  {
    assert ([x] + [y])[..1] == [x];
    IssueOne(env, c, x);
  }

  lemma {:induction false} IssueSends(env: Env, c: Ctl, cmds: seq<Cmd>, x: Cmd)
    requires x != CmdCheckReady
    ensures SentOf(c.log, x) <= SentOf(Issue(env, c, cmds).log, x) <= SentOf(c.log, x) + multiset(cmds)[x]
  {
    if cmds != [] {
      var init := cmds[..|cmds|-1];
      IssueSends(env, c, init, x);
      CommandSends(env, Issue(env, c, init), cmds[|cmds|-1], x);
      assert cmds == init + [cmds[|cmds|-1]];
    }
  }

  /** On its channel the stream goes through an ordinary run, and except for readiness probes no byte enters
      the channel more often than that run sends the command. */
  lemma {:induction false} ChannelFollows(env: Env, s: Stream, c: Ctl, acts: seq<Act>, x: Cmd)
    requires x != CmdCheckReady
    ensures var (s', cmds) := Run(s, Sections(env, s, c, acts));
            var (t, c') := Together(env, s, c, acts);
            t == s' && SentOf(c.log, x) <= SentOf(c'.log, x) <= SentOf(c.log, x) + multiset(cmds)[x]
  {
    if acts != [] {
      var init, a := acts[..|acts|-1], acts[|acts|-1];
      ChannelFollows(env, s, c, init, x);
      var before := Together(env, s, c, init);
      var steps, t := Sections(env, s, c, init), Resolve(env, before.0, before.1, a);
      assert (steps + [t])[..|steps|] == steps;
      IssueSends(env, before.1, Next(before.0, t).1, x);
      assert Run(s, steps + [t]).1 == Run(s, steps).1 + Next(before.0, t).1;
    }
  }

  lemma {:induction false} NoResume(env: Env, s: Stream, c: Ctl, acts: seq<Act>)
    requires Resuming !in acts
    ensures SuspendOff !in Sections(env, s, c, acts)
  {
    if acts != [] { NoResume(env, s, c, acts[..|acts|-1]); }
  }

  /** However the stack behaves, no START byte enters the channel of a suspended stream until
      A2dpSuspended is set to something else. */
  lemma SuspendedChannelQuiet(env: Env, s: Stream, c: Ctl, acts: seq<Act>)
    requires s.st == Suspended && Resuming !in acts
    ensures SentOf(Together(env, s, c, acts).1.log, CmdStart) == SentOf(c.log, CmdStart)
  {
    NoResume(env, s, c, acts);
    SuspendHolds(s, Sections(env, s, c, acts));
    ChannelFollows(env, s, c, acts, CmdStart);
  }

  /** Sends the commands of one locked section as the stream's state demands and lets the stream act on
      the answers. */
  method PerformAct(o: OutStream, ch: Channel, env: Env, a: Act)
    modifies o, ch
    ensures (o.View(), ch.View()) == Perform(env, old(o.View()), old(ch.View()), a)
  {
    var first, second, cmds := Err, Err, [];
    ghost var c := ch.View();
    IssueOne(env, c, CmdStart);
    IssueOne(env, c, CmdSuspend);
    IssueOne(env, c, CmdCheckStarted);
    IssueTwo(env, c, CmdCheckStarted, CmdSuspend);
    match a {
      case BeginWrite(n, fd) =>
        if o.state == Stopped || o.state == Standby { first := ch.SendCommand(env, CmdStart); }
        var go;
        go, cmds := o.OutWriteBegin(n, first, fd);
      case EndWrite(n, ok) => o.OutWriteEnd(n, ok);
      case Rest =>
        if o.state != Suspended && o.state != Stopping { second := ch.SendCommand(env, CmdSuspend); }
        cmds := o.OutStandby(second);
      case Close => o.SetClosing();
      case Suspending =>
        if o.state != Started { first := ch.SendCommand(env, CmdCheckStarted); }
        if o.state == Started || (first != Err && o.state != Stopping) {
          second := ch.SendCommand(env, CmdSuspend);
        }
        cmds := o.SetSuspended(true, first, second);
      case Resuming => cmds := o.SetSuspended(false, Err, Err);
    }
  }

  /** The stream and its channel follow the joint run; so a suspended stream sends no START byte. */
  method Play(o: OutStream, ch: Channel, env: Env, acts: seq<Act>)
    modifies o, ch
    ensures (o.View(), ch.View()) == Together(env, old(o.View()), old(ch.View()), acts)
    ensures old(o.state) == Suspended && Resuming !in acts ==> SentOf(ch.log, CmdStart) == SentOf(old(ch.log), CmdStart)
  {
    ghost var s, c := o.View(), ch.View();
    for i := 0 to |acts|
      invariant (o.View(), ch.View()) == Together(env, s, c, acts[..i])
    {
      assert acts[..i+1][..i] == acts[..i];
      PerformAct(o, ch, env, acts[i]);
    }
    assert acts[..|acts|] == acts;
    if s.st == Suspended && Resuming !in acts { SuspendedChannelQuiet(env, s, c, acts); }
  }
}
