/**
 The Cap'n Proto exchange: the client opens a fresh request service and streams chunks to it, then
 calls `done` with a reply callback; the server runs the handler, streams chunks back, calls the
 callback's `done`, and only when that has returned does its own `done` return.

 When the connection breaks, the last calls in flight are lost, any number of them, and so is
 whatever either end sends from then on. Both ends go on handling what still arrives.

 Calls in one direction arrive in order. Returns travel on their own. A streaming call lets its
 continuation run while fewer than `window` chunks are unacknowledged.
 */
module CapnpExchange {
  import opened Options
  import opened Exchange

  datatype CallMsg = Open | Chunk(data: Bytes) | Done

  datatype Client = Sending(next: nat) | Waiting | Succeeded

  datatype Server =
    | Absent
    | Receiving
    | Replying(snd: seq<Bytes>, next: nat)
    | Closing(snd: seq<Bytes>)      // the callback's `done` has been called
    | Closed(snd: seq<Bytes>)       // it has returned, and so has the request's `done`
    | Aborted

  datatype Session = Session(
    client: Client,
    server: Server,
    upCalls: seq<CallMsg>,
    downCalls: seq<CallMsg>,
    unackedUp: nat,        // chunks the client has sent and got no return for
    acksUp: nat,           // returns of those on the way to the client
    unackedDown: nat,
    acksDown: nat,
    replyDone: bool,       // the callback's `done` has been handled
    replyReturn: bool,     // its return is on the way to the server
    requestReturn: bool,   // the return of the request's `done` is on the way to the client
    rcv: seq<Bytes>,
    reply: seq<Bytes>,
    broken: bool,          // the connection has failed, or the server has died
    threw: bool)           // `sendReq` has thrown

  const OPENED := Session(Sending(0), Absent, [Open], [], 0, 0, 0, 0, false, false, false, [], [], false, false)

  datatype Step = SendChunk | SendDone | HandleUp | TakeAckUp | ReplyChunk | ReplyDone | HandleDown | TakeAckDown
                | TakeReplyReturn | TakeRequestReturn | Break(up: nat, down: nat) | GiveUp

  datatype Setup = Setup(request: seq<Bytes>, handler: Handler, window: nat)

  /** A call or a return leaves one end; over a broken connection it is lost. */
  function Sent(s: Session, calls: seq<CallMsg>, call: CallMsg): seq<CallMsg> {
    if s.broken then calls else calls + [call]
  }

  function ClientNext(c: Setup, s: Session, step: Step): Option<Session>
    requires step.SendChunk? || step.SendDone?
  {
    if s.threw || !s.client.Sending? || (!s.broken && s.unackedUp >= c.window) then None
    else if step == SendChunk then
      if s.client.next < |c.request| then
        Some(s.(upCalls := Sent(s, s.upCalls, Chunk(c.request[s.client.next])), unackedUp := s.unackedUp + 1,
                client := Sending(s.client.next + 1)))
      else None
    else if s.client.next == |c.request| then Some(s.(upCalls := Sent(s, s.upCalls, Done), client := Client.Waiting))
    else None
  }

  function ServerNext(c: Setup, s: Session, step: Step): Option<Session>
    requires step.ReplyChunk? || step.ReplyDone?
  {
    if !s.server.Replying? || (!s.broken && s.unackedDown >= c.window) then None else
    var Replying(snd, next) := s.server;
    if step == ReplyChunk then
      if next < |snd| then
        Some(s.(downCalls := Sent(s, s.downCalls, Chunk(snd[next])), unackedDown := s.unackedDown + 1,
                server := Replying(snd, next + 1)))
      else None
    else if next == |snd| then Some(s.(downCalls := Sent(s, s.downCalls, Done), server := Closing(snd)))
    else None
  }

  function Next(c: Setup, s: Session, step: Step): Option<Session> {
    match step
    case SendChunk => ClientNext(c, s, step)
    case SendDone => ClientNext(c, s, step)
    case ReplyChunk => ServerNext(c, s, step)
    case ReplyDone => ServerNext(c, s, step)
    case HandleUp => if s.upCalls == [] then None else HandleUpCall(c, s.(upCalls := s.upCalls[1..]), s.upCalls[0])
    case HandleDown =>
      if s.downCalls == [] then None else HandleDownCall(s.(downCalls := s.downCalls[1..]), s.downCalls[0])
    case TakeAckUp =>
      if s.acksUp > 0 && s.unackedUp > 0
      then Some(s.(acksUp := s.acksUp - 1, unackedUp := s.unackedUp - 1)) else None
    case TakeAckDown =>
      if s.acksDown > 0 && s.unackedDown > 0
      then Some(s.(acksDown := s.acksDown - 1, unackedDown := s.unackedDown - 1)) else None
    case TakeReplyReturn =>
      if s.replyReturn && s.server.Closing?
      then Some(s.(replyReturn := false, server := Closed(s.server.snd), requestReturn := !s.broken)) else None
    case TakeRequestReturn =>
      if s.requestReturn && s.client.Waiting? && !s.threw
      then Some(s.(requestReturn := false, client := Succeeded)) else None
    case Break(up, down) =>
      if up <= |s.upCalls| && down <= |s.downCalls|
      then Some(s.(broken := true, upCalls := s.upCalls[..up], downCalls := s.downCalls[..down])) else None
    case GiveUp => if s.broken && !s.client.Succeeded? && !s.threw then Some(s.(threw := true)) else None
  }

  /** A call reaches the server; one the service cannot take is a failure of the connection's user. */
  function HandleUpCall(c: Setup, s: Session, call: CallMsg): Option<Session> {
    match call
    case Open => if s.server.Absent? then Some(s.(server := Receiving)) else None
    case Chunk(data) => if s.server.Receiving? then Some(s.(rcv := s.rcv + [data], acksUp := s.acksUp + 1)) else None
    case Done =>
      if !s.server.Receiving? then None else
      match c.handler(s.rcv)
      case Some(snd) => Some(s.(server := Replying(snd, 0)))
      case None => Some(s.(server := Aborted, broken := true))
  }

  /** A call reaches the reply callback. */
  function HandleDownCall(s: Session, call: CallMsg): Option<Session> {
    match call
    case Open => None
    case Chunk(data) => Some(s.(reply := s.reply + [data], acksDown := s.acksDown + 1))
    case Done => Some(s.(replyDone := true, replyReturn := !s.broken))
  }

  function Run(c: Setup, s: Session, steps: seq<Step>): Option<Session>
    decreases |steps|
  {
    if steps == [] then Some(s) else
    var next := Next(c, s, steps[0]);
    if next.None? then None else Run(c, next.value, steps[1..])
  }

  // ---------- The invariant ----------

  /** The k-th call of a stream of `bufs`. */
  function CallAt(bufs: seq<Bytes>, k: nat): CallMsg {
    if k < |bufs| then Chunk(bufs[k]) else Done
  }

  /**
   `calls` are the calls of the stream of `bufs` from the `from`-th on: up to and without the
   `to`-th, or some of those where the others have been lost.
   */
  predicate InFlight(broken: bool, calls: seq<CallMsg>, bufs: seq<Bytes>, from: nat, to: nat) {
    && (if broken then from + |calls| <= to else from + |calls| == to)
    && forall k :: 0 <= k < |calls| ==> calls[k] == CallAt(bufs, from + k)
  }

  lemma TakeFirst(broken: bool, calls: seq<CallMsg>, bufs: seq<Bytes>, from: nat, to: nat)
    requires InFlight(broken, calls, bufs, from, to) && calls != []
    ensures calls[0] == CallAt(bufs, from) && InFlight(broken, calls[1..], bufs, from + 1, to)
  {
    forall k | 0 <= k < |calls[1..]| ensures calls[1..][k] == CallAt(bufs, from + 1 + k) {
      assert calls[1..][k] == calls[k + 1];
    }
  }

  lemma AddLast(calls: seq<CallMsg>, bufs: seq<Bytes>, from: nat, to: nat)
    requires InFlight(false, calls, bufs, from, to)
    ensures InFlight(false, calls + [CallAt(bufs, to)], bufs, from, to + 1)
  {}

  lemma LoseLast(broken: bool, calls: seq<CallMsg>, bufs: seq<Bytes>, from: nat, to: nat, kept: nat)
    requires InFlight(broken, calls, bufs, from, to) && kept <= |calls|
    ensures InFlight(true, calls[..kept], bufs, from, to)
  {}

  function SentUp(c: Setup, s: Session): nat {
    if s.client.Sending? then s.client.next else |c.request| + 1
  }

  function SentDown(snd: seq<Bytes>, server: Server): nat {
    if server.Replying? then server.next else |snd| + 1
  }

  /** The chunks among the first `calls` calls of a stream of `n` buffers. */
  function ChunksOf(calls: nat, n: nat): nat {
    if calls <= n then calls else n
  }

  predicate HasReply(server: Server) {
    server.Replying? || server.Closing? || server.Closed?
  }

  /** The handler has been run. */
  predicate Handled(server: Server) {
    !server.Absent? && !server.Receiving?
  }

  ghost predicate UpGood(c: Setup, s: Session) {
    && (s.client.Sending? ==> s.client.next <= |c.request|)
    && (s.server.Absent? ==>
          && s.rcv == [] && (s.upCalls == [] ==> s.broken)
          && (s.upCalls != [] ==>
                s.upCalls[0] == Open && InFlight(s.broken, s.upCalls[1..], c.request, 0, SentUp(c, s))))
    && (s.server.Receiving? ==>
          s.rcv <= c.request && InFlight(s.broken, s.upCalls, c.request, |s.rcv|, SentUp(c, s)))
    && (Handled(s.server) ==> s.rcv == c.request && s.upCalls == [] && !s.client.Sending?)
    && (!s.broken ==> s.unackedUp + |s.rcv| == s.acksUp + ChunksOf(SentUp(c, s), |c.request|))
  }

  ghost predicate DownGood(c: Setup, s: Session) {
    && (HasReply(s.server) ==>
          var snd := s.server.snd;
          && c.handler(c.request) == Some(snd)
          && s.reply <= snd
          && (s.server.Replying? ==> s.server.next <= |snd|)
          && InFlight(s.broken, s.downCalls, snd, |s.reply| + (if s.replyDone then 1 else 0), SentDown(snd, s.server))
          && (s.replyDone ==> s.reply == snd)
          && (!s.broken ==> s.unackedDown + |s.reply| == s.acksDown + ChunksOf(SentDown(snd, s.server), |snd|)))
    && (!HasReply(s.server) ==>
          s.downCalls == [] && s.reply == [] && s.unackedDown == 0 && s.acksDown == 0 && !s.replyDone)
    && (s.server.Aborted? ==> c.handler(c.request) == None)
  }

  /** Who has returned to whom. */
  predicate ReturnsGood(c: Setup, s: Session) {
    && (s.replyReturn ==> s.replyDone && s.server.Closing?)
    && (s.replyDone ==> s.server.Closing? || s.server.Closed?)
    && (s.server.Closed? ==> s.replyDone)
    && (s.requestReturn || s.client.Succeeded? ==> s.server.Closed?)
    && (!s.broken ==>
          && (s.replyDone && s.server.Closing? ==> s.replyReturn)
          && (s.server.Closed? ==> s.requestReturn || s.client.Succeeded?))
    && !(s.requestReturn && s.client.Succeeded?)
    && (s.threw || s.server.Aborted? ==> s.broken)
    && !(s.threw && s.client.Succeeded?)
  }

  ghost predicate Inv(c: Setup, s: Session) {
    UpGood(c, s) && DownGood(c, s) && ReturnsGood(c, s)
  }

  // ---------- The request's direction ----------

  lemma OpenKeepsUp(c: Setup, s: Session)
    requires UpGood(c, s) && s.server.Absent? && s.upCalls != []
    ensures UpGood(c, s.(upCalls := s.upCalls[1..], server := Receiving))
  {
  }

  /** The call that reaches the server next is the next one of the request's stream. */
  lemma ChunkKeepsUp(c: Setup, s: Session, data: Bytes)
    requires UpGood(c, s) && s.server.Receiving? && s.upCalls != [] && s.upCalls[0] == Chunk(data)
    ensures UpGood(c, s.(upCalls := s.upCalls[1..], rcv := s.rcv + [data], acksUp := s.acksUp + 1))
  {
    TakeFirst(s.broken, s.upCalls, c.request, |s.rcv|, SentUp(c, s));
    assert s.rcv + [data] == c.request[..|s.rcv| + 1];
  }

  lemma DoneIsLast(c: Setup, s: Session)
    requires UpGood(c, s) && s.server.Receiving? && s.upCalls != [] && s.upCalls[0] == Done
    ensures s.rcv == c.request && s.upCalls[1..] == [] && !s.client.Sending?
  {
    TakeFirst(s.broken, s.upCalls, c.request, |s.rcv|, SentUp(c, s));
  }

  lemma DoneKeepsUp(c: Setup, s: Session)
    requires UpGood(c, s) && s.server.Receiving? && s.upCalls != [] && s.upCalls[0] == Done
    ensures var after := HandleUpCall(c, s.(upCalls := s.upCalls[1..]), Done);
      after.Some? && UpGood(c, after.value)
  {
    DoneIsLast(c, s);
  }

  lemma HandleCallKeepsUp(c: Setup, s: Session, call: CallMsg)
    requires UpGood(c, s) && s.upCalls != [] && s.upCalls[0] == call
    requires HandleUpCall(c, s.(upCalls := s.upCalls[1..]), call).Some?
    ensures UpGood(c, HandleUpCall(c, s.(upCalls := s.upCalls[1..]), call).value)
  {
    match call
    case Open => OpenKeepsUp(c, s);
    case Chunk(data) => ChunkKeepsUp(c, s, data);
    case Done => DoneKeepsUp(c, s);
  }

  lemma HandleUpKeepsUp(c: Setup, s: Session)
    requires UpGood(c, s) && Next(c, s, HandleUp).Some?
    ensures UpGood(c, Next(c, s, HandleUp).value)
  {
    HandleCallKeepsUp(c, s, s.upCalls[0]);
  }

  /** A call that is not lost goes behind those in flight. */
  lemma SentKeepsInFlight(broken: bool, calls: seq<CallMsg>, bufs: seq<Bytes>, from: nat, to: nat, after: seq<CallMsg>)
    requires InFlight(broken, calls, bufs, from, to)
    requires after == if broken then calls else calls + [CallAt(bufs, to)]
    ensures InFlight(broken, after, bufs, from, to + 1)
  {
    if !broken { AddLast(calls, bufs, from, to); }
  }

  lemma SendKeepsUp(c: Setup, s: Session, step: Step)
    requires UpGood(c, s) && (step.SendChunk? || step.SendDone?) && Next(c, s, step).Some?
    ensures UpGood(c, Next(c, s, step).value)
  {
    var after := Next(c, s, step).value.upCalls;
    if s.server.Absent? && s.upCalls != [] {
      SentKeepsInFlight(s.broken, s.upCalls[1..], c.request, 0, SentUp(c, s), after[1..]);
    } else if s.server.Receiving? {
      SentKeepsInFlight(s.broken, s.upCalls, c.request, |s.rcv|, SentUp(c, s), after);
    }
  }

  lemma BreakKeepsUp(c: Setup, s: Session, up: nat, down: nat)
    requires UpGood(c, s) && Next(c, s, Break(up, down)).Some?
    ensures UpGood(c, Next(c, s, Break(up, down)).value)
  {
    if s.server.Absent? && up > 0 {
      LoseLast(s.broken, s.upCalls[1..], c.request, 0, SentUp(c, s), up - 1);
      assert s.upCalls[..up][1..] == s.upCalls[1..][..up - 1];
    } else if s.server.Receiving? {
      LoseLast(s.broken, s.upCalls, c.request, |s.rcv|, SentUp(c, s), up);
    }
  }

  lemma ReturnsKeepUp(c: Setup, s: Session, step: Step)
    requires UpGood(c, s) && (step.TakeReplyReturn? || step.TakeRequestReturn?) && Next(c, s, step).Some?
    ensures UpGood(c, Next(c, s, step).value)
  {}

  lemma RepliesKeepUp(c: Setup, s: Session, step: Step)
    requires UpGood(c, s) && (step.ReplyChunk? || step.ReplyDone?) && Next(c, s, step).Some?
    ensures UpGood(c, Next(c, s, step).value)
  {}

  lemma HandleDownCallKeepsUp(c: Setup, s: Session, call: CallMsg)
    requires UpGood(c, s) && HandleDownCall(s, call).Some?
    ensures UpGood(c, HandleDownCall(s, call).value)
  {}

  lemma HandleDownKeepsUp(c: Setup, s: Session)
    requires UpGood(c, s) && Next(c, s, HandleDown).Some?
    ensures UpGood(c, Next(c, s, HandleDown).value)
  {
    HandleDownCallKeepsUp(c, s.(downCalls := s.downCalls[1..]), s.downCalls[0]);
  }

  lemma NextKeepsUp(c: Setup, s: Session, step: Step)
    requires UpGood(c, s) && Next(c, s, step).Some?
    ensures UpGood(c, Next(c, s, step).value)
  {
    match step
    case SendChunk => SendKeepsUp(c, s, step);
    case SendDone => SendKeepsUp(c, s, step);
    case HandleUp => HandleUpKeepsUp(c, s);
    case Break(up, down) => BreakKeepsUp(c, s, up, down);
    case TakeReplyReturn => ReturnsKeepUp(c, s, step);
    case TakeRequestReturn => ReturnsKeepUp(c, s, step);
    case ReplyChunk => RepliesKeepUp(c, s, step);
    case ReplyDone => RepliesKeepUp(c, s, step);
    case HandleDown => HandleDownKeepsUp(c, s);
    case TakeAckUp =>
    case TakeAckDown =>
    case GiveUp =>
  }

  // ---------- The reply's direction ----------

  lemma ReplyKeepsDown(c: Setup, s: Session, step: Step)
    requires DownGood(c, s) && ReturnsGood(c, s) && (step.ReplyChunk? || step.ReplyDone?) && Next(c, s, step).Some?
    ensures DownGood(c, Next(c, s, step).value)
  {
    var snd := s.server.snd;
    SentKeepsInFlight(s.broken, s.downCalls, snd, |s.reply|, s.server.next, Next(c, s, step).value.downCalls);
  }

  /** The call that reaches the callback next is the next one of the reply's stream. */
  lemma HandleDownKeepsDown(c: Setup, s: Session)
    requires DownGood(c, s) && ReturnsGood(c, s) && Next(c, s, HandleDown).Some?
    ensures DownGood(c, Next(c, s, HandleDown).value) && ReturnsGood(c, Next(c, s, HandleDown).value)
  {
    var snd, server := s.server.snd, s.server;
    TakeFirst(s.broken, s.downCalls, snd, |s.reply| + if s.replyDone then 1 else 0, SentDown(snd, server));
    assert !s.replyDone;
    if s.downCalls[0].Chunk? {
      assert s.reply + [s.downCalls[0].data] == snd[..|s.reply| + 1];
    } else {
      assert s.reply == snd && s.downCalls[1..] == [];
    }
  }

  /** What the server does with a call leaves the reply stream as it is, or starts it. */
  lemma HandleUpKeepsDown(c: Setup, s: Session)
    requires UpGood(c, s) && DownGood(c, s) && ReturnsGood(c, s) && Next(c, s, HandleUp).Some?
    ensures DownGood(c, Next(c, s, HandleUp).value)
  {
    if s.upCalls[0].Done? { DoneIsLast(c, s); }
  }

  lemma BreakKeepsDown(c: Setup, s: Session, up: nat, down: nat)
    requires DownGood(c, s) && Next(c, s, Break(up, down)).Some?
    ensures DownGood(c, Next(c, s, Break(up, down)).value)
  {
    if HasReply(s.server) {
      var snd := s.server.snd;
      LoseLast(s.broken, s.downCalls, snd, |s.reply| + (if s.replyDone then 1 else 0), SentDown(snd, s.server), down);
    }
  }

  lemma ReturnKeepsDown(c: Setup, s: Session, step: Step)
    requires DownGood(c, s) && ReturnsGood(c, s) && Next(c, s, step).Some?
    requires !step.HandleUp? && !step.HandleDown? && !step.ReplyChunk? && !step.ReplyDone? && !step.Break?
    ensures DownGood(c, Next(c, s, step).value)
  {
  }

  lemma NextKeepsReturns(c: Setup, s: Session, step: Step)
    requires DownGood(c, s) && ReturnsGood(c, s) && Next(c, s, step).Some? && !step.HandleDown?
    ensures ReturnsGood(c, Next(c, s, step).value)
  {
  }

  lemma NextKeepsInv(c: Setup, s: Session, step: Step)
    requires Inv(c, s) && Next(c, s, step).Some?
    ensures Inv(c, Next(c, s, step).value)
  {
    NextKeepsUp(c, s, step);
    if step.HandleDown? {
      HandleDownKeepsDown(c, s);
    } else {
      NextKeepsReturns(c, s, step);
      if step.ReplyChunk? || step.ReplyDone? { ReplyKeepsDown(c, s, step); }
      else if step.HandleUp? { HandleUpKeepsDown(c, s); }
      else if step.Break? { BreakKeepsDown(c, s, step.up, step.down); }
      else { ReturnKeepsDown(c, s, step); }
    }
  }

  lemma {:induction false} RunKeepsInv(c: Setup, s: Session, steps: seq<Step>)
    requires Inv(c, s) && Run(c, s, steps).Some?
    ensures Inv(c, Run(c, s, steps).value)
    decreases |steps|
  {
    if steps != [] {
      NextKeepsInv(c, s, steps[0]);
      RunKeepsInv(c, Next(c, s, steps[0]).value, steps[1..]);
    }
  }

  predicate InWindow(c: Setup, s: Session) {
    !s.broken ==> s.unackedUp <= c.window && s.unackedDown <= c.window
  }

  lemma NextKeepsWindow(c: Setup, s: Session, step: Step)
    requires InWindow(c, s) && Next(c, s, step).Some?
    ensures InWindow(c, Next(c, s, step).value)
  {}

  lemma {:induction false} RunKeepsWindow(c: Setup, s: Session, steps: seq<Step>)
    requires InWindow(c, s) && Run(c, s, steps).Some?
    ensures InWindow(c, Run(c, s, steps).value)
    decreases |steps|
  {
    if steps != [] {
      NextKeepsWindow(c, s, steps[0]);
      RunKeepsWindow(c, Next(c, s, steps[0]).value, steps[1..]);
    }
  }

  /**
   Over an unbroken connection at most a window of chunks is unacknowledged in either direction, and
   the calls and returns in flight are those chunks, the call that opens the request and `done`.
   */
  lemma WindowIsKept(c: Setup, steps: seq<Step>, s: Session)
    requires Run(c, OPENED, steps) == Some(s) && !s.broken
    ensures s.unackedUp <= c.window && |s.upCalls| + s.acksUp <= s.unackedUp + 2
    ensures s.unackedDown <= c.window && |s.downCalls| + s.acksDown <= s.unackedDown + 1
  {
    RunKeepsWindow(c, OPENED, steps);
    RunKeepsInv(c, OPENED, steps);
  }

  /** The exchange is atomic: when `sendReq` returns, the client holds the reply to exactly its request. */
  lemma SuccessIsExact(c: Setup, steps: seq<Step>, s: Session)
    requires Run(c, OPENED, steps) == Some(s) && s.client.Succeeded?
    ensures s.rcv == c.request && c.handler(c.request) == Some(s.reply)
  {
    RunKeepsInv(c, OPENED, steps);
  }

  /**
   Whatever is lost and whenever, the handler never runs on less than the whole request: `done` is
   the last call of a stream in which nothing overtakes anything.
   */
  lemma HandlerInput(c: Setup, steps: seq<Step>, s: Session)
    requires Run(c, OPENED, steps) == Some(s) && Handled(s.server)
    ensures s.rcv == c.request
  {
    RunKeepsInv(c, OPENED, steps);
  }

  lemma NoDoneAppears(c: Setup, s: Session, step: Step)
    requires s.broken && !Handled(s.server) && Done !in s.upCalls && Next(c, s, step).Some?
    ensures var s' := Next(c, s, step).value;
      s'.broken && !Handled(s'.server) && Done !in s'.upCalls
  {
    if step.HandleUp? { assert s.upCalls[0] in s.upCalls; }
  }

  /** Without a `done` in flight nothing is handled after a break. */
  lemma {:induction false} NothingWithoutDone(c: Setup, s: Session, steps: seq<Step>)
    requires s.broken && !Handled(s.server) && Done !in s.upCalls && Run(c, s, steps).Some?
    ensures !Handled(Run(c, s, steps).value.server)
    decreases |steps|
  {
    if steps != [] {
      NoDoneAppears(c, s, steps[0]);
      NothingWithoutDone(c, Next(c, s, steps[0]).value, steps[1..]);
    }
  }

  lemma {:induction false} DoneIsHandled(c: Setup, s: Session) returns (steps: seq<Step>)
    requires Inv(c, s) && !Handled(s.server) && Done in s.upCalls
    ensures Run(c, s, steps).Some? && Handled(Run(c, s, steps).value.server)
    decreases |s.upCalls|
  {
    if s.server.Receiving? { assert s.upCalls[0] == CallAt(c.request, |s.rcv|); }
    var s' := Next(c, s, HandleUp).value;
    NextKeepsInv(c, s, HandleUp);
    steps := [HandleUp];
    assert steps[1..] == [];
    if !Handled(s'.server) {
      var rest := DoneIsHandled(c, s');
      steps := [HandleUp] + rest;
      assert steps[1..] == rest;
    }
  }

  /** Some way of going on from `s` has the handler run. */
  ghost predicate CanBeServed(c: Setup, s: Session) {
    exists steps: seq<Step> :: Run(c, s, steps).Some? && Handled(Run(c, s, steps).value.server)
  }

  /** After a break the request is still served, whole, if and only if its `done` has not been lost. */
  lemma ServedAfterBreak(c: Setup, steps: seq<Step>, s: Session)
    requires Run(c, OPENED, steps) == Some(s) && s.broken && !Handled(s.server)
    ensures CanBeServed(c, s) <==> Done in s.upCalls
  {
    RunKeepsInv(c, OPENED, steps);
    if Done in s.upCalls {
      var more := DoneIsHandled(c, s);
    } else {
      forall more: seq<Step> | Run(c, s, more).Some? ensures !Handled(Run(c, s, more).value.server) {
        NothingWithoutDone(c, s, more);
      }
    }
  }

  // ---------- Refinement of the one-step exchange ----------

  function Abstract(s: Session): Phase {
    Phase(
      if Handled(s.server) then Some(s.rcv) else None,
      if s.client.Succeeded? then Outcome.Returned(s.reply)
      else if s.threw then Outcome.Threw
      else Outcome.Waiting,
      s.broken)
  }

  lemma HandleUpRefines(c: Setup, s: Session)
    requires UpGood(c, s) && Next(c, s, HandleUp).Some?
    ensures SpecStutter(true, c.handler, c.request, Abstract(s), Abstract(Next(c, s, HandleUp).value))
  {
    if s.upCalls[0].Done? { DoneIsLast(c, s); }
  }

  lemma HandleDownRefines(c: Setup, s: Session)
    requires DownGood(c, s) && ReturnsGood(c, s) && Next(c, s, HandleDown).Some?
    ensures SpecStutter(true, c.handler, c.request, Abstract(s), Abstract(Next(c, s, HandleDown).value))
  {
    var snd := s.server.snd;
    TakeFirst(s.broken, s.downCalls, snd, |s.reply| + (if s.replyDone then 1 else 0), SentDown(snd, s.server));
  }

  /** Every step of the session is a step of the atomic specification, or invisible to it. */
  lemma RefinesExchange(c: Setup, s: Session, step: Step)
    requires Inv(c, s) && Next(c, s, step).Some?
    ensures SpecStutter(true, c.handler, c.request, Abstract(s), Abstract(Next(c, s, step).value))
  {
    if step.HandleUp? { HandleUpRefines(c, s); }
    if step.HandleDown? { HandleDownRefines(c, s); }
  }

  lemma {:induction false} RunPrefix(c: Setup, s: Session, steps: seq<Step>, i: nat)
    requires Run(c, s, steps).Some? && i < |steps|
    ensures Run(c, s, steps[..i]).Some?
    ensures Next(c, Run(c, s, steps[..i]).value, steps[i]).Some?
    ensures Run(c, s, steps[..i + 1]) == Next(c, Run(c, s, steps[..i]).value, steps[i])
    decreases |steps|
  {
    if i == 0 {
      assert steps[..0] == [] && steps[..1][1..] == [];
    } else {
      assert steps[..i][1..] == steps[1..][..i - 1] && steps[..i + 1][1..] == steps[1..][..i];
      RunPrefix(c, Next(c, s, steps[0]).value, steps[1..], i - 1);
    }
  }

  /** The state after the first `i` steps of a run. */
  function StateAfter(c: Setup, steps: seq<Step>, i: nat): Session
    requires i <= |steps|
  {
    var s := Run(c, OPENED, steps[..i]);
    if s.Some? then s.value else OPENED
  }

  /** The phases that the specification sees along a run. */
  function Phases(c: Setup, steps: seq<Step>): (phases: seq<Phase>)
    ensures |phases| == |steps| + 1
    ensures forall i :: 0 <= i <= |steps| ==> phases[i] == Abstract(StateAfter(c, steps, i))
  {
    seq(|steps| + 1, i requires 0 <= i <= |steps| => Abstract(StateAfter(c, steps, i)))
  }

  lemma PhasesStutter(c: Setup, steps: seq<Step>, i: nat)
    requires Run(c, OPENED, steps).Some? && i < |steps|
    ensures SpecStutter(true, c.handler, c.request, Phases(c, steps)[i], Phases(c, steps)[i + 1])
  {
    RunPrefix(c, OPENED, steps, i);
    RunKeepsInv(c, OPENED, steps[..i]);
    RefinesExchange(c, StateAfter(c, steps, i), steps[i]);
  }

  /** Every run is a run of the specification, from the beginning to the state it reaches. */
  lemma RunRefinesExchange(c: Setup, steps: seq<Step>)
    requires Run(c, OPENED, steps).Some?
    ensures SpecRun(true, c.handler, c.request, Phases(c, steps))
    ensures Phases(c, steps)[|steps|] == Abstract(Run(c, OPENED, steps).value)
  {
    var phases := Phases(c, steps);
    assert steps[..0] == [] && steps[..|steps|] == steps;
    forall i | 0 <= i < |phases| - 1
      ensures SpecStutter(true, c.handler, c.request, phases[i], phases[i + 1])
    {
      PhasesStutter(c, steps, i);
    }
  }

  // ---------- No deadlock, and termination ----------

  predicate NoBreak(steps: seq<Step>) {
    forall i :: 0 <= i < |steps| ==> !steps[i].Break?
  }

  /** Steps still to take at most: each chunk is sent, handled and acknowledged. */
  function Left(c: Setup, s: Session, snd: seq<Bytes>): int {
    var sentUp, sentDown := SentUp(c, s), if HasReply(s.server) then SentDown(snd, s.server) else 0;
    3 * (|c.request| + 1 - sentUp) + 2 * |s.upCalls| + s.acksUp
    + 3 * (|snd| + 1 - sentDown) + 2 * |s.downCalls| + s.acksDown
    + (if s.replyReturn then 1 else 0)
    + (if s.server.Closed? then 0 else 2)
    + (if s.requestReturn then 1 else 0)
    + (if s.client.Succeeded? then 0 else 1)
  }

  lemma SendsCountDown(c: Setup, s: Session, step: Step, snd: seq<Bytes>)
    requires Inv(c, s) && c.handler(c.request) == Some(snd) && !s.broken && Next(c, s, step).Some?
    requires step.SendChunk? || step.SendDone? || step.ReplyChunk? || step.ReplyDone?
    ensures !Next(c, s, step).value.broken && Left(c, Next(c, s, step).value, snd) < Left(c, s, snd)
  {}

  lemma CallsCountDown(c: Setup, s: Session, step: Step, snd: seq<Bytes>)
    requires Inv(c, s) && c.handler(c.request) == Some(snd) && !s.broken && Next(c, s, step).Some?
    requires step.HandleUp? || step.HandleDown?
    ensures !Next(c, s, step).value.broken && Left(c, Next(c, s, step).value, snd) < Left(c, s, snd)
  {
    if step.HandleUp? && s.upCalls[0].Done? { DoneIsLast(c, s); }
  }

  lemma StepsCountDown(c: Setup, s: Session, step: Step, snd: seq<Bytes>)
    requires Inv(c, s) && c.handler(c.request) == Some(snd) && !step.Break? && !s.broken && Next(c, s, step).Some?
    ensures !Next(c, s, step).value.broken && Left(c, Next(c, s, step).value, snd) < Left(c, s, snd)
  {
    match step
    case HandleUp => CallsCountDown(c, s, step, snd);
    case HandleDown => CallsCountDown(c, s, step, snd);
    case SendChunk => SendsCountDown(c, s, step, snd);
    case SendDone => SendsCountDown(c, s, step, snd);
    case ReplyChunk => SendsCountDown(c, s, step, snd);
    case ReplyDone => SendsCountDown(c, s, step, snd);
    case TakeAckUp =>
    case TakeAckDown =>
    case TakeReplyReturn =>
    case TakeRequestReturn =>
    case GiveUp =>
  }

  lemma LeftIsPositive(c: Setup, s: Session, snd: seq<Bytes>)
    requires Inv(c, s) && c.handler(c.request) == Some(snd)
    ensures 0 <= Left(c, s, snd)
  {}

  /** Unless it has succeeded, an unbroken session can go on, for every positive window. */
  lemma NoDeadlock(c: Setup, s: Session) returns (step: Step)
    requires Inv(c, s) && c.window > 0 && c.handler(c.request).Some? && !s.broken && !s.client.Succeeded?
    ensures !step.Break? && Next(c, s, step).Some?
  {
    if s.upCalls != [] {
      step := HandleUp;
      if s.server.Receiving? {
        assert s.upCalls[0] == CallAt(c.request, |s.rcv|);
        if s.upCalls[0].Done? { assert s.rcv == c.request; }
      }
    }
    else if s.downCalls != [] {
      step := HandleDown;
      assert s.downCalls[0] == CallAt(s.server.snd, |s.reply| + if s.replyDone then 1 else 0);
    }
    else if s.acksUp > 0 { step := TakeAckUp; }
    else if s.acksDown > 0 { step := TakeAckDown; }
    else if s.replyReturn { step := TakeReplyReturn; }
    else if s.requestReturn { step := TakeRequestReturn; }
    else if s.client.Sending? { step := if s.client.next < |c.request| then SendChunk else SendDone; }
    else {
      assert s.server.Receiving? ==> |s.rcv| == |c.request| + 1;
      step := if s.server.next < |s.server.snd| then ReplyChunk else ReplyDone;
    }
  }

  /** For every positive window an unbroken run ends, within a bound, and only with success. */
  lemma {:induction false} EveryRunIsBounded(c: Setup, s: Session, steps: seq<Step>, snd: seq<Bytes>)
    requires Inv(c, s) && c.handler(c.request) == Some(snd) && !s.broken && NoBreak(steps) && Run(c, s, steps).Some?
    ensures var end := Run(c, s, steps).value;
      Inv(c, end) && !end.broken && |steps| + Left(c, end, snd) <= Left(c, s, snd)
    decreases |steps|
  {
    if steps != [] {
      NextKeepsInv(c, s, steps[0]);
      StepsCountDown(c, s, steps[0], snd);
      EveryRunIsBounded(c, Next(c, s, steps[0]).value, steps[1..], snd);
    }
  }

  /** An unbroken run is bounded, and where it cannot go on it has succeeded. */
  lemma BoundedAndLive(c: Setup, steps: seq<Step>, s: Session, snd: seq<Bytes>)
    requires c.window > 0 && c.handler(c.request) == Some(snd) && NoBreak(steps) && Run(c, OPENED, steps) == Some(s)
    ensures |steps| <= 3 * |c.request| + 3 * |snd| + 11
    ensures (forall step: Step :: !step.Break? ==> Next(c, s, step).None?) ==> s.client.Succeeded?
  {
    EveryRunIsBounded(c, OPENED, steps, snd);
    LeftIsPositive(c, s, snd);
    if !s.client.Succeeded? {
      var step := NoDeadlock(c, s);
    }
  }

  /** From every unbroken state reached, some way of going on ends with success. */
  lemma {:induction false} CanFinish(c: Setup, s: Session, snd: seq<Bytes>) returns (steps: seq<Step>)
    requires Inv(c, s) && c.window > 0 && c.handler(c.request) == Some(snd) && !s.broken
    ensures NoBreak(steps) && Run(c, s, steps).Some? && Run(c, s, steps).value.client.Succeeded?
    decreases Left(c, s, snd)
  {
    steps := [];
    if !s.client.Succeeded? {
      var step := NoDeadlock(c, s);
      NextKeepsInv(c, s, step);
      StepsCountDown(c, s, step, snd);
      LeftIsPositive(c, s, snd);
      var rest := CanFinish(c, Next(c, s, step).value, snd);
      steps := [step] + rest;
      assert steps[1..] == rest;
    }
  }

  // ---------- What a caller sees ----------

  lemma {:induction false} RunAppend(c: Setup, s: Session, steps: seq<Step>, more: seq<Step>)
    requires Run(c, s, steps).Some?
    ensures Run(c, s, steps + more) == Run(c, Run(c, s, steps).value, more)
    decreases |steps|
  {
    if steps == [] {
      assert steps + more == more;
    } else {
      assert (steps + more)[1..] == steps[1..] + more;
      RunAppend(c, Next(c, s, steps[0]).value, steps[1..], more);
    }
  }

  lemma Then(c: Setup, s: Session, steps: seq<Step>, u: Session, step: Step, v: Session) returns (longer: seq<Step>)
    requires Run(c, s, steps) == Some(u) && NoBreak(steps) && Next(c, u, step) == Some(v) && !step.Break?
    ensures Run(c, s, longer) == Some(v) && NoBreak(longer)
  {
    longer := steps + [step];
    RunAppend(c, s, steps, [step]);
    assert [step][1..] == [];
  }

  /** The session with the first `k` chunks sent, handled and acknowledged. */
  function Uploaded(c: Setup, k: nat): Session
    requires k <= |c.request|
  {
    OPENED.(upCalls := [], server := Receiving, client := Sending(k), rcv := c.request[..k])
  }

  lemma {:induction false} Upload(c: Setup, k: nat) returns (steps: seq<Step>)
    requires c.window > 0 && k <= |c.request|
    ensures Run(c, OPENED, steps) == Some(Uploaded(c, k)) && NoBreak(steps)
  {
    if k == 0 {
      assert [Open][1..] == [] && c.request[..0] == [];
      steps := Then(c, OPENED, [], OPENED, HandleUp, Uploaded(c, 0));
    } else {
      var s0, chunk := Uploaded(c, k - 1), Chunk(c.request[k - 1]);
      var s1 := s0.(upCalls := [chunk], unackedUp := 1, client := Sending(k));
      var s2 := s1.(upCalls := [], rcv := s0.rcv + [c.request[k - 1]], acksUp := 1);
      assert s0.upCalls + [chunk] == s1.upCalls && s1.upCalls[1..] == [];
      assert s0.rcv + [c.request[k - 1]] == c.request[..k];
      steps := Upload(c, k - 1);
      steps := Then(c, OPENED, steps, s0, SendChunk, s1);
      steps := Then(c, OPENED, steps, s1, HandleUp, s2);
      steps := Then(c, OPENED, steps, s2, TakeAckUp, Uploaded(c, k));
    }
  }

  /** A handler that throws takes the server with it, and the client throws. */
  lemma ThrowingHandlerRun(c: Setup) returns (steps: seq<Step>, s: Session)
    requires c.window > 0 && c.handler(c.request).None?
    ensures Run(c, OPENED, steps) == Some(s) && NoBreak(steps) && s.server.Aborted? && s.threw && s.reply == []
  {
    var n := |c.request|;
    var s0 := Uploaded(c, n);
    var s1 := s0.(upCalls := [Done], client := Client.Waiting);
    var s2 := s1.(upCalls := [], server := Aborted, broken := true);
    assert c.request[..n] == c.request && s0.upCalls + [Done] == s1.upCalls && s1.upCalls[1..] == [];
    steps := Upload(c, n);
    steps := Then(c, OPENED, steps, s0, SendDone, s1);
    steps := Then(c, OPENED, steps, s1, HandleUp, s2);
    s := s2.(threw := true);
    steps := Then(c, OPENED, steps, s2, GiveUp, s);
  }

  /** What a caller sees of an unbroken exchange, and a run that shows it. */
  lemma UnbrokenRun(c: Setup) returns (steps: seq<Step>, s: Session)
    requires c.window > 0
    ensures Run(c, OPENED, steps) == Some(s) && NoBreak(steps)
    ensures match c.handler(c.request)
      case Some(snd) => s.client.Succeeded? && s.reply == snd
      case None => s.threw && s.server.Aborted? && s.reply == []
  {
    match c.handler(c.request)
    case Some(snd) =>
      steps := CanFinish(c, OPENED, snd);
      s := Run(c, OPENED, steps).value;
      SuccessIsExact(c, steps, s);
    case None =>
      steps, s := ThrowingHandlerRun(c);
  }
}
