/**
 The A2DP control channel and the polled socket write of the audio HAL
 (audio_a2dp_hw/audio_a2dp_hw.c). The stack at the other end is an arbitrary function of everything
 that has happened on the channel so far.
 */
module A2dpControl {
  import opened Common

  const DISCONNECTED := -1
  const RETRY_COUNT := 3
  const ACK_SUCCESS := 0
  const ACK_INCALL_FAILURE := 2

  type Fd = f: int | f >= DISCONNECTED

  datatype Cmd = CmdCheckReady | CmdCheckStarted | CmdStart | CmdStop | CmdSuspend

  /** Result of a2dp_command: acknowledged, acknowledged with "in call", or failed. */
  datatype Ack = Ok | InCall | Err

  /** One recv on the control socket. When the peer has closed, the caller reads an acknowledgement
      byte that was never written; `stale` is whatever that byte holds. */
  datatype Recv = Got(code: Byte) | Closed(stale: Byte) | Again | Failed

  datatype Io =
    | Begin(cmd: Cmd) | End(cmd: Cmd, ack: Ack)
    | Connect(fd: Fd) | Send(cmd: Cmd, ok: bool) | Receive(recv: Recv) | Disconnect | Sleep

  /** A channel history, latest event outermost. */
  datatype History = Empty | After(past: History, last: Io)

  datatype Env = Env(connect: History -> Fd, send: History -> bool, recv: History -> Recv)

  /** The control socket and everything done on it so far. */
  datatype Ctl = Ctl(fd: Fd, log: History)

  // ---------------------------------------------------------------------------------------------
  // What a piece of channel history used

  /** Connects, readiness probes sent, receives, sleeps, commands begun but not ended, and the deepest
      nesting of commands. */
  datatype Use = Use(connects: nat, probes: nat, receives: nat, sleeps: nat, net: int, peak: int)

  function Usage(log: History): Use {
    if log.Empty? then Use(0, 0, 0, 0, 0, 0) else Then(Usage(log.past), log.last)
  }

  function Then(u: Use, e: Io): Use {
    match e
    case Begin(_) => u.(net := u.net + 1, peak := if u.net + 1 > u.peak then u.net + 1 else u.peak)
    case End(_, _) => u.(net := u.net - 1)
    case Connect(_) => u.(connects := u.connects + 1)
    case Send(cmd, _) => u.(probes := u.probes + Probe(cmd))
    case Receive(_) => u.(receives := u.receives + 1)
    case Sleep => u.(sleeps := u.sleeps + 1)
    case Disconnect => u
  }

  function Probe(cmd: Cmd): nat { if cmd == CmdCheckReady then 1 else 0 }

  function Log(c: Ctl, e: Io): Ctl { c.(log := After(c.log, e)) }

  // ---------------------------------------------------------------------------------------------
  // Specification

  function Meaning(code: Byte): Ack {
    if code == ACK_INCALL_FAILURE then InCall else if code != ACK_SUCCESS then Err else Ok
  }

  function AckOf(r: Recv): Ack {
    match r
    case Got(code) => Meaning(code)
    case Closed(stale) => Meaning(stale)
    case _ => Err
  }

  /** skt_disconnect. */
  function Drop(c: Ctl): Ctl {
    if c.fd == DISCONNECTED then c else Log(c, Disconnect).(fd := DISCONNECTED)
  }

  /** The recv loop of a2dp_ctrl_receive from its i-th try on. */
  function Receives(env: Env, c: Ctl, i: nat): (Ctl, Recv)
    requires i < RETRY_COUNT
    decreases RETRY_COUNT - i
  {
    var r := env.recv(c.log);
    var c' := Log(c, Receive(r));
    if r.Again? && i < RETRY_COUNT - 1 then Receives(env, c', i + 1) else (c', r)
  }

  function Answer(env: Env, c: Ctl): (Ctl, Recv) {
    var (c', r) := Receives(env, c, 0);
    (if r.Got? then c' else Drop(c'), r)
  }

  /** The exchange once the channel is open. */
  function Exchange(env: Env, c: Ctl, cmd: Cmd): (Ctl, Ack) {
    if !env.send(c.log) then (Log(Drop(Log(c, Send(cmd, false))), End(cmd, Err)), Err)
    else
      var (c', r) := Answer(env, Log(c, Send(cmd, true)));
      (Log(c', End(cmd, AckOf(r))), AckOf(r))
  }

  /** A command on an open channel. */
  function Direct(env: Env, c: Ctl, cmd: Cmd): (Ctl, Ack) { Exchange(env, Log(c, Begin(cmd)), cmd) }

  /** One connect and readiness probe; the flag says whether the stack reported ready. */
  function Attempt(env: Env, c: Ctl): (Ctl, bool) {
    var fd := env.connect(c.log);
    var o := Log(c.(fd := fd), Connect(fd));
    if fd <= 0 then (Log(o, Sleep), false)
    else
      var (p, ack) := Direct(env, o, CmdCheckReady);
      if ack != Err then (p, true) else (Log(Drop(Log(p, Sleep)), Sleep), false)
  }

  function Attempts(env: Env): Ctl -> (Ctl, bool) { c => Attempt(env, c) }

  /** The retry loop from its i-th attempt on. */
  function Retry(attempt: Ctl -> (Ctl, bool), c: Ctl, i: nat): Ctl
    requires i <= RETRY_COUNT
    decreases RETRY_COUNT - i
  {
    if i == RETRY_COUNT then c
    else
      var (c', ready) := attempt(c);
      if ready then c' else Retry(attempt, c', i + 1)
  }

  /** a2dp_open_ctrl_path. */
  function Opening(env: Env, c: Ctl): Ctl { Retry(Attempts(env), c, 0) }

  /** a2dp_command. Its recovery probes with commands of its own, but those find the channel open. */
  function Command(env: Env, c: Ctl, cmd: Cmd): (Ctl, Ack) {
    if c.fd != DISCONNECTED then Direct(env, c, cmd)
    else
      var o := Opening(env, Log(c, Begin(cmd)));
      if o.fd == DISCONNECTED then (Log(o, End(cmd, Err)), Err) else Exchange(env, o, cmd)
  }

  // ---------------------------------------------------------------------------------------------
  // Imperative form

  class Channel {
    var ctrlFd: Fd
    var log: History

    ghost function View(): Ctl
      reads this
    {
      Ctl(ctrlFd, log)
    }

    constructor ()
      ensures View() == Ctl(DISCONNECTED, Empty)
    {
      ctrlFd, log := DISCONNECTED, Empty;
    }

    method DisconnectSocket()
      modifies this
      ensures View() == Drop(old(View()))
    {
      if ctrlFd != DISCONNECTED { log := After(log, Disconnect); }
      ctrlFd := DISCONNECTED;
    }

    method CtrlReceive(env: Env) returns (r: Recv)
      modifies this
      ensures (View(), r) == Answer(env, old(View()))
    {
      ghost var all := Receives(env, View(), 0);
      var i := 0;
      while true
        invariant 0 <= i < RETRY_COUNT && Receives(env, View(), i) == all
        decreases RETRY_COUNT - i
      {
        r := env.recv(log);
        log := After(log, Receive(r));
        if !r.Again? || i == RETRY_COUNT - 1 { break; }
        i := i + 1;
      }
      if !r.Got? { DisconnectSocket(); }
    }

    method SendCommand(env: Env, cmd: Cmd) returns (ack: Ack)
      modifies this
      ensures (View(), ack) == Command(env, old(View()), cmd)
      decreases if ctrlFd == DISCONNECTED then 2 else 0, 0
    {
      log := After(log, Begin(cmd));
      if ctrlFd == DISCONNECTED {
        OpenCtrlPath(env);
        if ctrlFd == DISCONNECTED {
          log := After(log, End(cmd, Err));
          return Err;
        }
      }
      ack := SendByte(env, cmd);
    }

    method SendByte(env: Env, cmd: Cmd) returns (ack: Ack)
      modifies this
      ensures (View(), ack) == Exchange(env, old(View()), cmd)
    {
      var sent := env.send(log);
      log := After(log, Send(cmd, sent));
      if !sent {
        DisconnectSocket();
        log := After(log, End(cmd, Err));
        return Err;
      }
      var r := CtrlReceive(env);
      ack := AckOf(r);
      log := After(log, End(cmd, ack));
    }

    method CheckReady(env: Env) returns (ready: bool)
      requires ctrlFd != DISCONNECTED
      modifies this
      ensures var (c, ack) := Direct(env, old(View()), CmdCheckReady);
              View() == c && ready == (ack != Err)
      decreases 0, 1
    {
      var ack := SendCommand(env, CmdCheckReady);
      ready := ack != Err;
    }

    method OpenCtrlPath(env: Env)
      modifies this
      ensures View() == Opening(env, old(View()))
      decreases 1, 1
    {
      ghost var all := Opening(env, View());
      var i := 0;
      while i < RETRY_COUNT
        invariant 0 <= i <= RETRY_COUNT && Retry(Attempts(env), View(), i) == all
      {
        var ready := TryOnce(env);
        if ready { return; }
        i := i + 1;
      }
    }

    /** The body of the retry loop. */
    method TryOnce(env: Env) returns (ready: bool)
      modifies this
      ensures (View(), ready) == Attempt(env, old(View()))
      decreases 1, 0
    {
      ready := false;
      ctrlFd := env.connect(log);
      log := After(log, Connect(ctrlFd));
      if ctrlFd > 0 {
        ready := CheckReady(env);
        if ready { return; }
        log := After(log, Sleep);
        DisconnectSocket();
      }
      log := After(log, Sleep);
    }
  }

  // ---------------------------------------------------------------------------------------------
  // Bounds on recovery

  /** From `u` to `v` at most so many connects, probes, receives and sleeps were added, the number of
      unfinished commands changed by `net`, and at most `deep` further commands were nested. */
  predicate Added(u: Use, v: Use, connects: nat, probes: nat, receives: nat, sleeps: nat, net: int, deep: nat) {
    && v.connects <= u.connects + connects && v.probes <= u.probes + probes
    && v.receives <= u.receives + receives && v.sleeps <= u.sleeps + sleeps
    && v.net == u.net + net && (v.peak <= u.peak || v.peak <= u.net + deep)
  }

  lemma {:induction false} ReceivesUsage(env: Env, c: Ctl, i: nat)
    requires i < RETRY_COUNT
    ensures Added(Usage(c.log), Usage(Receives(env, c, i).0.log), 0, 0, RETRY_COUNT - i, 0, 0, 0)
    ensures Receives(env, c, i).0.fd == c.fd
    decreases RETRY_COUNT - i
  {
    var r := env.recv(c.log);
    if r.Again? && i < RETRY_COUNT - 1 {
      ReceivesUsage(env, Log(c, Receive(r)), i + 1);
    }
  }

  lemma AnswerUsage(env: Env, c: Ctl)
    ensures Added(Usage(c.log), Usage(Answer(env, c).0.log), 0, 0, 3, 0, 0, 0)
  {
    ReceivesUsage(env, c, 0);
  }

  lemma ExchangeUsage(env: Env, c: Ctl, cmd: Cmd)
    ensures Added(Usage(c.log), Usage(Exchange(env, c, cmd).0.log), 0, Probe(cmd), 3, 0, -1, 0)
  {
    if env.send(c.log) {
      var s := Log(c, Send(cmd, true));
      AnswerUsage(env, s);
      var (a, r) := Answer(env, s);
      assert Usage(Log(a, End(cmd, AckOf(r))).log).net == Usage(a.log).net - 1;
    } else {
      var d := Drop(Log(c, Send(cmd, false)));
      assert Usage(Log(d, End(cmd, Err)).log).net == Usage(d.log).net - 1;
    }
  }

  /** On an open channel a command neither connects nor nests. */
  lemma DirectUsage(env: Env, c: Ctl, cmd: Cmd)
    ensures Added(Usage(c.log), Usage(Direct(env, c, cmd).0.log), 0, Probe(cmd), 3, 0, 0, 1)
  {
    ExchangeUsage(env, Log(c, Begin(cmd)), cmd);
  }

  lemma AttemptUsage(env: Env, c: Ctl)
    ensures Added(Usage(c.log), Usage(Attempt(env, c).0.log), 1, 1, 3, 2, 0, 1)
  {
    var fd := env.connect(c.log);
    if fd > 0 {
      var o := Log(c.(fd := fd), Connect(fd));
      DirectUsage(env, o, CmdCheckReady);
      RetryUsage(Direct(env, o, CmdCheckReady).0);
    }
  }

  lemma RetryUsage(c: Ctl)
    ensures Added(Usage(c.log), Usage(Log(Drop(Log(c, Sleep)), Sleep).log), 0, 0, 0, 2, 0, 0)
  {
    var d := Drop(Log(c, Sleep));
    assert Usage(d.log) == Then(Usage(c.log), Sleep);
  }

  /** What k attempts may add. */
  predicate AddedBy(u: Use, v: Use, k: nat) { Added(u, v, k, k, 3 * k, 2 * k, 0, 1) }

  lemma {:induction false} RetryLoopUsage(attempt: Ctl -> (Ctl, bool), c: Ctl, i: nat)
    requires i <= RETRY_COUNT
    requires forall d: Ctl :: AddedBy(Usage(d.log), Usage(attempt(d).0.log), 1)
    ensures AddedBy(Usage(c.log), Usage(Retry(attempt, c, i).log), RETRY_COUNT - i)
    decreases RETRY_COUNT - i
  {
    if i < RETRY_COUNT && !attempt(c).1 {
      RetryLoopUsage(attempt, attempt(c).0, i + 1);
    }
  }

  lemma OpeningUsage(env: Env, c: Ctl)
    ensures AddedBy(Usage(c.log), Usage(Opening(env, c).log), RETRY_COUNT)
  {
    forall d: Ctl ensures AddedBy(Usage(d.log), Usage(Attempts(env)(d).0.log), 1) { AttemptUsage(env, d); }
    RetryLoopUsage(Attempts(env), c, 0);
  }

  /** Recovery is bounded however the stack behaves: at most two commands nest, at most three connects
      and three probes beyond the command itself, at most twelve receives and six quarter-second
      sleeps; every command begun is ended. On an open channel nothing is reopened at all. */
  lemma CommandBounds(env: Env, c: Ctl, cmd: Cmd)
    ensures var (u, v) := (Usage(c.log), Usage(Command(env, c, cmd).0.log));
            && Added(u, v, 3, 3 + Probe(cmd), 12, 6, 0, 2)
            && (c.fd != DISCONNECTED ==> Added(u, v, 0, Probe(cmd), 3, 0, 0, 1))
  {
    if c.fd != DISCONNECTED {
      DirectUsage(env, c, cmd);
    } else {
      var b := Log(c, Begin(cmd));
      OpeningUsage(env, b);
      ExchangeUsage(env, Opening(env, b), cmd);
    }
  }

  /** After the command byte, a reply is a run of "try again" and then the decisive receive. */
  predicate Replied(log: History, cmd: Cmd, r: Recv) {
    log.After? && log.last == Receive(r) && Sent(log.past, cmd)
  }

  /** The log ends with the command byte followed by fruitless receives. */
  predicate Sent(log: History, cmd: Cmd) {
    log.After? && (log.last == Send(cmd, true) || (log.last == Receive(Again) && Sent(log.past, cmd)))
  }

  lemma {:induction false} ReceivesReplied(env: Env, c: Ctl, i: nat, cmd: Cmd)
    requires i < RETRY_COUNT && Sent(c.log, cmd)
    ensures var (c', r) := Receives(env, c, i); Replied(c'.log, cmd, r) && c'.fd == c.fd
    decreases RETRY_COUNT - i
  {
    var r := env.recv(c.log);
    var c' := Log(c, Receive(r));
    if r.Again? && i < RETRY_COUNT - 1 {
      ReceivesReplied(env, c', i + 1, cmd);
    }
  }

  /** The latest event is not a receive. */
  predicate NoReply(log: History) { log.After? && !log.last.Receive? }

  lemma {:induction false} RetryEnds(attempt: Ctl -> (Ctl, bool), c: Ctl, i: nat)
    requires i <= RETRY_COUNT && NoReply(c.log)
    requires forall d: Ctl :: NoReply(attempt(d).0.log)
    ensures NoReply(Retry(attempt, c, i).log)
    decreases RETRY_COUNT - i
  {
    if i < RETRY_COUNT && !attempt(c).1 { RetryEnds(attempt, attempt(c).0, i + 1); }
  }

  /** Opening the channel never ends on a receive. */
  lemma OpeningEnds(env: Env, c: Ctl)
    requires NoReply(c.log)
    ensures NoReply(Opening(env, c).log)
  {
    forall d: Ctl ensures NoReply(Attempts(env)(d).0.log) { assert Attempts(env)(d) == Attempt(env, d); }
    RetryEnds(Attempts(env), c, 0);
  }

  /** What the exchange leaves behind. */
  lemma ExchangeStatus(env: Env, c: Ctl, cmd: Cmd)
    requires c.fd != DISCONNECTED
    ensures var (c', ack) := Exchange(env, c, cmd);
            && c'.log.After? && c'.log.last == End(cmd, ack)
            && (c'.fd != DISCONNECTED <==> exists code :: Replied(c'.log.past, cmd, Got(code)))
            && (forall code :: Replied(c'.log.past, cmd, Got(code)) ==> Meaning(code) == ack)
            && (c'.fd == DISCONNECTED && ack != Err ==>
                  exists stale :: Meaning(stale) == ack && c'.log.past.After? && c'.log.past.last == Disconnect
                                  && Replied(c'.log.past.past, cmd, Closed(stale)))
  {
    if env.send(c.log) { ReceivesReplied(env, Log(c, Send(cmd, true)), 0, cmd); }
  }

  /** What a returned status is worth. The channel is still open afterwards if and only if the status was
      read from the socket as the answer to this very command; a success on a channel that is now closed is
      whatever the unwritten byte held when the peer closed. */
  lemma CommandStatus(env: Env, c: Ctl, cmd: Cmd)
    ensures var (c', ack) := Command(env, c, cmd);
            && c'.log.After? && c'.log.last == End(cmd, ack)
            && (c'.fd != DISCONNECTED <==> exists code :: Replied(c'.log.past, cmd, Got(code)))
            && (forall code :: Replied(c'.log.past, cmd, Got(code)) ==> Meaning(code) == ack)
            && (c'.fd == DISCONNECTED && ack != Err ==>
                  exists stale :: Meaning(stale) == ack && c'.log.past.After? && c'.log.past.last == Disconnect
                                  && Replied(c'.log.past.past, cmd, Closed(stale)))
  {
    var b := Log(c, Begin(cmd));
    if c.fd != DISCONNECTED {
      ExchangeStatus(env, b, cmd);
    } else {
      OpeningEnds(env, b);
      var o := Opening(env, b);
      if o.fd != DISCONNECTED { ExchangeStatus(env, o, cmd); }
    }
  }

  // ---------------------------------------------------------------------------------------------
  // Which bytes enter the channel

  /** How often the byte of a command was offered to the socket. */
  function SentOf(log: History, x: Cmd): nat {
    if log.Empty? then 0 else SentOf(log.past, x) + (if log.last.Send? && log.last.cmd == x then 1 else 0)
  }

  lemma LogSends(c: Ctl, e: Io, x: Cmd)
    ensures SentOf(Log(c, e).log, x) == SentOf(c.log, x) + (if e.Send? && e.cmd == x then 1 else 0)
    ensures SentOf(Drop(c).log, x) == SentOf(c.log, x)
  {
  }

  lemma {:induction false} ReceivesSend(env: Env, c: Ctl, i: nat, x: Cmd)
    requires i < RETRY_COUNT
    ensures SentOf(Receives(env, c, i).0.log, x) == SentOf(c.log, x)
    decreases RETRY_COUNT - i
  {
    var r := env.recv(c.log);
    if r.Again? && i < RETRY_COUNT - 1 { ReceivesSend(env, Log(c, Receive(r)), i + 1, x); }
  }

  lemma ExchangeSends(env: Env, c: Ctl, cmd: Cmd, x: Cmd)
    ensures SentOf(Exchange(env, c, cmd).0.log, x) == SentOf(c.log, x) + (if x == cmd then 1 else 0)
  {
    if env.send(c.log) {
      var s := Log(c, Send(cmd, true));
      ReceivesSend(env, s, 0, x);
      var (a, r) := Answer(env, s);
      LogSends(Receives(env, s, 0).0, Disconnect, x);
      LogSends(a, End(cmd, AckOf(r)), x);
    } else {
      var s := Log(c, Send(cmd, false));
      LogSends(s, Disconnect, x);
      LogSends(Drop(s), End(cmd, Err), x);
    }
  }

  lemma AttemptSends(env: Env, c: Ctl, x: Cmd)
    requires x != CmdCheckReady
    ensures SentOf(Attempt(env, c).0.log, x) == SentOf(c.log, x)
  {
    var fd := env.connect(c.log);
    var o := Log(c.(fd := fd), Connect(fd));
    if fd > 0 {
      ExchangeSends(env, Log(o, Begin(CmdCheckReady)), CmdCheckReady, x);
      var p := Direct(env, o, CmdCheckReady).0;
      assert SentOf(Log(p, Sleep).log, x) == SentOf(p.log, x);
    }
  }

  lemma {:induction false} RetrySends(attempt: Ctl -> (Ctl, bool), c: Ctl, i: nat, x: Cmd)
    requires i <= RETRY_COUNT
    requires forall d: Ctl :: SentOf(attempt(d).0.log, x) == SentOf(d.log, x)
    ensures SentOf(Retry(attempt, c, i).log, x) == SentOf(c.log, x)
    decreases RETRY_COUNT - i
  {
    if i < RETRY_COUNT && !attempt(c).1 { RetrySends(attempt, attempt(c).0, i + 1, x); }
  }

  /** However much recovery it takes, a command puts its own byte on the channel at most once, and beside it
      only readiness probes. */
  lemma CommandSends(env: Env, c: Ctl, cmd: Cmd, x: Cmd)
    requires x != CmdCheckReady
    ensures SentOf(c.log, x) <= SentOf(Command(env, c, cmd).0.log, x) <= SentOf(c.log, x) + (if x == cmd then 1 else 0)
  {
    var b := Log(c, Begin(cmd));
    if c.fd != DISCONNECTED {
      ExchangeSends(env, b, cmd, x);
    } else {
      forall d: Ctl ensures SentOf(Attempts(env)(d).0.log, x) == SentOf(d.log, x) { AttemptSends(env, d, x); }
      RetrySends(Attempts(env), b, 0, x);
      ExchangeSends(env, Opening(env, b), cmd, x);
    }
  }

  // ---------------------------------------------------------------------------------------------
  // Recovery succeeds where it can

  /** The stack connects, takes every byte and answers it with the code. */
  ghost predicate Serves(env: Env, fd: Fd, code: Byte) {
    forall h :: env.connect(h) == fd && env.send(h) && env.recv(h) == Got(code)
  }

  /** One exchange with it. */
  function Exchanged(h: History, cmd: Cmd, code: Byte): History {
    After(After(After(h, Send(cmd, true)), Receive(Got(code))),
          End(cmd, if code == 0 then Ok else if code == 2 then InCall else Err))
  }

  /** Connecting to it and probing. */
  function Probed(h: History, fd: Fd, code: Byte): History {
    Exchanged(After(After(h, Connect(fd)), Begin(CmdCheckReady)), CmdCheckReady, code)
  }

  /** An attempt that finds it not ready. */
  function TriedInVain(h: History, fd: Fd, code: Byte): History {
    After(After(After(Probed(h, fd, code), Sleep), Disconnect), Sleep)
  }

  lemma ServedExchange(env: Env, c: Ctl, cmd: Cmd, fd: Fd, code: Byte)
    requires Serves(env, fd, code)
    ensures var (c', ack) := Exchange(env, c, cmd);
            && c' == c.(log := Exchanged(c.log, cmd, code))
            && ack == (if code == 0 then Ok else if code == 2 then InCall else Err)
  {
  }

  lemma ServedAttempt(env: Env, c: Ctl, fd: Fd, code: Byte)
    requires Serves(env, fd, code) && fd > 0
    ensures Attempt(env, c) == if code in {0, 2} then (Ctl(fd, Probed(c.log, fd, code)), true)
                               else (Ctl(DISCONNECTED, TriedInVain(c.log, fd, code)), false)
  {
    var o := Log(c.(fd := fd), Connect(fd));
    ServedExchange(env, Log(o, Begin(CmdCheckReady)), CmdCheckReady, fd, code);
  }

  /** A connect that fails is followed by a pause and leaves the number it returned. */
  lemma ConnectFails(env: Env, c: Ctl)
    requires env.connect(c.log) <= 0
    ensures var fd := env.connect(c.log); Attempt(env, c) == (Ctl(fd, After(After(c.log, Connect(fd)), Sleep)), false)
  {
  }

  /** On a closed channel a stack that is ready gets one connect, one readiness probe and the command byte,
      once; its acknowledgement is what the caller gets, zero for success and two for "in call". One that
      answers but is not ready is tried three times, and the command byte is never sent. */
  lemma ServedClosed(env: Env, c: Ctl, cmd: Cmd, fd: Fd, code: Byte)
    requires Serves(env, fd, code) && fd > 0 && c.fd == DISCONNECTED
    ensures var begun := After(c.log, Begin(cmd));
            Command(env, c, cmd) ==
            if code in {0, 2}
            then (Ctl(fd, Exchanged(Probed(begun, fd, code), cmd, code)), if code == 0 then Ok else InCall)
            else
              var tried := TriedInVain(TriedInVain(TriedInVain(begun, fd, code), fd, code), fd, code);
              (Ctl(DISCONNECTED, After(tried, End(cmd, Err))), Err)
  {
    var c0 := Log(c, Begin(cmd));
    ServedAttempt(env, c0, fd, code);
    var c1 := Attempt(env, c0).0;
    ServedAttempt(env, c1, fd, code);
    var c2 := Attempt(env, c1).0;
    ServedAttempt(env, c2, fd, code);
    var c3 := Attempt(env, c2).0;
    RetryThree(Attempts(env), c0);
    ServedExchange(env, c1, cmd, fd, code);
  }

  /** The attempts are made until one succeeds, three at most. */
  lemma RetryThree(attempt: Ctl -> (Ctl, bool), c: Ctl)
    ensures var (c1, a) := attempt(c);
            var (c2, b) := attempt(c1);
            Retry(attempt, c, 0) == if a then c1 else if b then c2 else attempt(c2).0
  {
    var c1 := attempt(c).0;
    var c2 := attempt(c1).0;
    assert Retry(attempt, attempt(c2).0, 3) == attempt(c2).0;
    assert Retry(attempt, c2, 2) == attempt(c2).0;
    assert Retry(attempt, c1, 1) == if attempt(c1).1 then c2 else Retry(attempt, c2, 2);
  }

  /** The answer is the first of three receives that is not "try again", or the third. */
  lemma ReceivesThree(env: Env, c: Ctl)
    ensures var h1 := After(c.log, Receive(env.recv(c.log)));
            var h2 := After(h1, Receive(env.recv(h1)));
            Receives(env, c, 0) ==
            if !env.recv(c.log).Again? then (c.(log := h1), env.recv(c.log))
            else if !env.recv(h1).Again? then (c.(log := h2), env.recv(h1))
            else (c.(log := After(h2, Receive(env.recv(h2)))), env.recv(h2))
  {
    var c1 := Log(c, Receive(env.recv(c.log)));
    var c2 := Log(c1, Receive(env.recv(c1.log)));
    assert Receives(env, c2, 2) == (Log(c2, Receive(env.recv(c2.log))), env.recv(c2.log));
    assert env.recv(c1.log).Again? ==> Receives(env, c1, 1) == Receives(env, c2, 2);
  }

  // ---------------------------------------------------------------------------------------------
  // The polled write

  const SEND_TIMEOUT_MS := 2000
  const WRITE_POLL_MS := 20

  datatype SendResult = Accepted(n: nat) | WouldBlock | Broken

  /** The answers of a socket to successive send calls of the given sizes; a non-blocking send takes at
      least one byte and no more than offered. */
  type Sender = (nat, nat) -> SendResult

  ghost predicate Socketlike(send: Sender) {
    forall k, room :: room > 0 ==> match send(k, room) case Accepted(n) => 1 <= n <= room case _ => true
  }

  /** Writes `data`; `handed` is what the socket took. */
  method SktWrite(send: Sender, data: seq<Byte>) returns (ret: int, handed: seq<Byte>, sleeps: nat, calls: nat)
    requires Socketlike(send)
    ensures handed <= data
    ensures ret == |data| <==> handed == data
    ensures ret == |data| || ret == -1
    ensures sleeps <= 100 && calls <= |data| + 101
    ensures ret == -1 ==> calls > 0 && (send(calls - 1, |data| - |handed|) == Broken
                                        || (send(calls - 1, |data| - |handed|) == WouldBlock && sleeps == 100))
  {
    var msTimeout := SEND_TIMEOUT_MS;
    var count := 0;
    handed, sleeps, calls := [], 0, 0;
    while count < |data|
      invariant 0 <= count <= |data| && handed == data[..count]
      invariant 0 <= msTimeout && msTimeout + WRITE_POLL_MS * sleeps == SEND_TIMEOUT_MS
      invariant calls <= count + sleeps
      decreases |data| - count, msTimeout
    {
      var sent := send(calls, |data| - count);
      calls := calls + 1;
      match sent {
        case Broken => return -1, handed, sleeps, calls;
        case WouldBlock =>
          if msTimeout >= WRITE_POLL_MS {
            sleeps := sleeps + 1;
            msTimeout := msTimeout - WRITE_POLL_MS;
          } else {
            return -1, handed, sleeps, calls;
          }
        case Accepted(n) =>
          handed := handed + data[count..count + n];
          count := count + n;
      }
    }
    ret := count;
  }
}
