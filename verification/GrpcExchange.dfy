/**
 The gRPC exchange: the client writes every buffer and half-closes, the server reads to the end,
 runs the handler and writes the reply, the client reads to the end and checks the status. Each
 direction is a FIFO channel that holds at most a window of messages.
 */
module GrpcExchange {
  import opened Options
  import opened Exchange

  datatype Client = Writing(next: nat) | Reading | Succeeded | Threw

  datatype Server = Receiving | Replying(snd: seq<Bytes>, next: nat) | Finished(snd: seq<Bytes>) | Aborted

  datatype Stream = Stream(
    client: Client,
    server: Server,
    up: seq<Bytes>,        // on the way to the server
    upClosed: bool,        // half-closed by the client
    down: seq<Bytes>,      // on the way to the client
    rcv: seq<Bytes>,       // what the server has received
    reply: seq<Bytes>,     // what the client has received
    broken: bool)          // the call has failed: network, deadline or server death

  const OPENED := Stream(Writing(0), Receiving, [], false, [], [], [], false)

  datatype Step = ClientWrite | WritesDone | ServerRead | ServerHandle | ServerWrite | ServerReturn
                | ClientRead | ClientFinish | Break

  /** The parties' fixed data: the request, the handler, and how many messages fit into a channel. */
  datatype Setup = Setup(request: seq<Bytes>, handler: Handler, window: nat)

  /** Writing to a broken stream loses the message; the result of `Write` is ignored on both sides. */
  function Next(c: Setup, s: Stream, step: Step): Option<Stream> {
    match step
    case ClientWrite =>
      if s.client.Writing? && s.client.next < |c.request| && (s.broken || |s.up| < c.window) then
        var sent := if s.broken then s.up else s.up + [c.request[s.client.next]];
        Some(s.(up := sent, client := Writing(s.client.next + 1)))
      else None
    case WritesDone =>
      if s.client == Writing(|c.request|) then Some(s.(upClosed := true, client := Reading)) else None
    case ServerRead =>
      if s.server.Receiving? && s.up != [] then Some(s.(up := s.up[1..], rcv := s.rcv + [s.up[0]])) else None
    case ServerHandle =>
      // `Read` returns false: at the end of the request, or because the stream is broken
      if s.server.Receiving? && (s.broken || (s.up == [] && s.upClosed)) then
        match c.handler(s.rcv)
        case Some(snd) => Some(s.(server := Replying(snd, 0)))
        case None => Some(s.(server := Aborted, broken := true))
      else None
    case ServerWrite =>
      if s.server.Replying? && s.server.next < |s.server.snd| && (s.broken || |s.down| < c.window) then
        var sent := if s.broken then s.down else s.down + [s.server.snd[s.server.next]];
        Some(s.(down := sent, server := Replying(s.server.snd, s.server.next + 1)))
      else None
    case ServerReturn =>
      if s.server.Replying? && s.server.next == |s.server.snd| then Some(s.(server := Finished(s.server.snd))) else None
    case ClientRead =>
      if s.client.Reading? && s.down != [] then Some(s.(down := s.down[1..], reply := s.reply + [s.down[0]])) else None
    case ClientFinish =>
      if !s.client.Reading? then None
      else if s.broken then Some(s.(client := Client.Threw))
      else if s.down == [] && s.server.Finished? then Some(s.(client := Succeeded))
      else None
    case Break =>
      if s.client.Succeeded? then None else Some(s.(broken := true))
  }

  function Run(c: Setup, s: Stream, steps: seq<Step>): Option<Stream>
    decreases |steps|
  {
    if steps == [] then Some(s) else
    var next := Next(c, s, steps[0]);
    if next.None? then None else Run(c, next.value, steps[1..])
  }

  // ---------- The invariant ----------

  /** The buffers the client has handed to the stream. */
  function Written(c: Setup, s: Stream): nat {
    if s.client.Writing? then s.client.next else |c.request|
  }

  ghost predicate Inv(c: Setup, s: Stream) {
    && (s.client.Writing? ==> s.client.next <= |c.request| && s.reply == [])
    && (s.upClosed <==> !s.client.Writing?)
    && (s.client.Threw? ==> s.broken)
    && (s.client.Succeeded? ==> !s.broken && s.server.Finished? && s.down == [])
    && s.rcv + s.up <= c.request
    && (s.server.Aborted? ==> s.broken && c.handler(s.rcv) == None)
    && (s.server.Replying? || s.server.Finished? ==> c.handler(s.rcv) == Some(s.server.snd))
    && (s.server.Replying? ==> s.server.next <= |s.server.snd|)
    && (s.server.Receiving? ==> s.down == [] && s.reply == [])
    && (!s.broken ==>
          && s.rcv + s.up == c.request[..Written(c, s)]
          && (!s.server.Receiving? ==> s.rcv == c.request && s.upClosed)
          && (s.server.Replying? ==> s.reply + s.down == s.server.snd[..s.server.next])
          && (s.server.Finished? ==> s.reply + s.down == s.server.snd))
  }

  lemma ClientKeepsInv(c: Setup, s: Stream, step: Step)
    requires Inv(c, s) && Next(c, s, step).Some?
    requires step.ClientWrite? || step.WritesDone? || step.ClientRead? || step.ClientFinish?
    ensures Inv(c, Next(c, s, step).value)
  {
    var s' := Next(c, s, step).value;
    if step.ClientWrite? && !s.broken {
      assert s'.rcv + s'.up == (s.rcv + s.up) + [c.request[s.client.next]];
    } else {
      assert s'.rcv + s'.up == s.rcv + s.up;
    }
    assert s'.reply + s'.down == s.reply + s.down;
  }

  lemma ServerReadKeepsInv(c: Setup, s: Stream, step: Step)
    requires Inv(c, s) && Next(c, s, step).Some? && (step.ServerRead? || step.ServerHandle?)
    ensures Inv(c, Next(c, s, step).value)
  {
    var s' := Next(c, s, step).value;
    assert s'.rcv + s'.up == s.rcv + s.up;
    if step.ServerHandle? {
      assert s.up == [] ==> s.rcv + s.up == s.rcv;
      assert s'.reply + s'.down == [];
    }
  }

  lemma ServerWriteKeepsInv(c: Setup, s: Stream, step: Step)
    requires Inv(c, s) && Next(c, s, step).Some? && (step.ServerWrite? || step.ServerReturn?)
    ensures Inv(c, Next(c, s, step).value)
  {
    var s' := Next(c, s, step).value;
    if step.ServerWrite? && !s.broken {
      assert s'.reply + s'.down == (s.reply + s.down) + [s.server.snd[s.server.next]];
    }
  }

  lemma NextKeepsInv(c: Setup, s: Stream, step: Step)
    requires Inv(c, s) && Next(c, s, step).Some?
    ensures Inv(c, Next(c, s, step).value)
  {
    match step
    case ClientWrite => ClientKeepsInv(c, s, step);
    case WritesDone => ClientKeepsInv(c, s, step);
    case ClientRead => ClientKeepsInv(c, s, step);
    case ClientFinish => ClientKeepsInv(c, s, step);
    case ServerRead => ServerReadKeepsInv(c, s, step);
    case ServerHandle => ServerReadKeepsInv(c, s, step);
    case ServerWrite => ServerWriteKeepsInv(c, s, step);
    case ServerReturn => ServerWriteKeepsInv(c, s, step);
    case Break =>
  }

  lemma {:induction false} RunKeepsInv(c: Setup, s: Stream, steps: seq<Step>)
    requires Inv(c, s) && Run(c, s, steps).Some?
    ensures Inv(c, Run(c, s, steps).value)
    decreases |steps|
  {
    if steps != [] {
      NextKeepsInv(c, s, steps[0]);
      RunKeepsInv(c, Next(c, s, steps[0]).value, steps[1..]);
    }
  }

  /** Neither direction ever holds more than a window of messages, broken or not. */
  lemma {:induction false} WindowIsKept(c: Setup, s: Stream, steps: seq<Step>)
    requires |s.up| <= c.window && |s.down| <= c.window && Run(c, s, steps).Some?
    ensures |Run(c, s, steps).value.up| <= c.window && |Run(c, s, steps).value.down| <= c.window
    decreases |steps|
  {
    if steps != [] {
      WindowIsKept(c, Next(c, s, steps[0]).value, steps[1..]);
    }
  }

  /** When `sendReq` returns, the client holds the handler's reply to exactly its request, in order. */
  lemma SuccessIsExact(c: Setup, steps: seq<Step>, s: Stream)
    requires Run(c, OPENED, steps) == Some(s) && s.client.Succeeded?
    ensures s.rcv == c.request && c.handler(c.request) == Some(s.reply)
  {
    RunKeepsInv(c, OPENED, steps);
    assert s.reply + s.down == s.reply;
  }

  /** The handler runs on the whole request, or the stream is broken and it may run on a prefix. */
  lemma HandlerInput(c: Setup, steps: seq<Step>, s: Stream)
    requires Run(c, OPENED, steps) == Some(s) && !s.server.Receiving?
    ensures s.rcv <= c.request && (s.rcv != c.request ==> s.broken)
  {
    RunKeepsInv(c, OPENED, steps);
  }

  // ---------- What a broken stream serves ----------

  lemma {:induction false} RunAppend(c: Setup, s: Stream, steps: seq<Step>, more: seq<Step>)
    requires Run(c, s, steps).Some?
    ensures Run(c, s, steps + more) == Run(c, Run(c, s, steps).value, more)
    decreases |steps|
  {
    if steps == [] {
      assert steps + more == more;
    } else {
      assert (steps + more)[1..] == steps[1..] + more;
      RunAppend(c, Next(c, s, steps[0]).value, steps[1..], more);
    }
  }

  lemma RunOne(c: Setup, s: Stream, steps: seq<Step>, step: Step)
    requires Run(c, s, steps).Some? && Next(c, Run(c, s, steps).value, step).Some?
    ensures Run(c, s, steps + [step]) == Next(c, Run(c, s, steps).value, step)
  {
    RunAppend(c, s, steps, [step]);
    assert [step][1..] == [];
  }

  /** What the server is after its handler has been run on `input`. */
  function Handled(c: Setup, input: seq<Bytes>): Server {
    match c.handler(input) case Some(snd) => Replying(snd, 0) case None => Aborted
  }

  /** The first `k` buffers written and read one by one. */
  lemma {:induction false} Deliver(c: Setup, k: nat) returns (steps: seq<Step>)
    requires c.window > 0 && k <= |c.request|
    ensures Break !in steps
    ensures Run(c, OPENED, steps) == Some(OPENED.(client := Writing(k), rcv := c.request[..k]))
  {
    steps := [];
    if k == 0 {
      assert c.request[..0] == [];
    } else {
      var before := Deliver(c, k - 1);
      var s0 := OPENED.(client := Writing(k - 1), rcv := c.request[..k - 1]);
      var s1 := s0.(client := Writing(k), up := [c.request[k - 1]]);
      assert s0.up + [c.request[k - 1]] == s1.up && s1.up[1..] == s0.up;
      assert Next(c, s0, ClientWrite) == Some(s1);
      RunOne(c, OPENED, before, ClientWrite);
      RunOne(c, OPENED, before + [ClientWrite], ServerRead);
      assert c.request[..k] == c.request[..k - 1] + [c.request[k - 1]];
      steps := before + [ClientWrite] + [ServerRead];
    }
  }

  /** Whatever the request, the handler and the window, the handler may be run on any prefix, the empty one included. */
  lemma AnyPrefixCanBeServed(c: Setup, k: nat) returns (steps: seq<Step>, s: Stream)
    requires c.window > 0 && k <= |c.request|
    ensures Run(c, OPENED, steps) == Some(s) && s.rcv == c.request[..k] && s.server == Handled(c, c.request[..k])
  {
    steps := Deliver(c, k);
    RunOne(c, OPENED, steps, Break);
    steps := steps + [Break];
    RunOne(c, OPENED, steps, ServerHandle);
    steps := steps + [ServerHandle];
    s := Run(c, OPENED, steps).value;
  }

  /** Some way of going on from `s` has the handler run on `input`. */
  ghost predicate CanServe(c: Setup, s: Stream, input: seq<Bytes>) {
    exists steps: seq<Step> :: ServesBy(c, s, steps, input)
  }

  predicate ServesBy(c: Setup, s: Stream, steps: seq<Step>, input: seq<Bytes>) {
    var end := Run(c, s, steps);
    end.Some? && !end.value.server.Receiving? && end.value.rcv == input
  }

  lemma {:induction false} ServedOnce(c: Setup, s: Stream, steps: seq<Step>)
    requires !s.server.Receiving? && Run(c, s, steps).Some?
    ensures Run(c, s, steps).value.rcv == s.rcv
    decreases |steps|
  {
    if steps != [] { ServedOnce(c, Next(c, s, steps[0]).value, steps[1..]); }
  }

  /** On a broken stream the handler gets what has been read and some of what is on its way. */
  lemma {:induction false} ServesFromChannel(c: Setup, s: Stream, steps: seq<Step>, input: seq<Bytes>) returns (j: nat)
    requires s.broken && s.server.Receiving? && ServesBy(c, s, steps, input)
    ensures j <= |s.up| && input == s.rcv + s.up[..j]
    decreases |steps|
  {
    var s1 := Next(c, s, steps[0]).value;
    if steps[0] == ServerHandle {
      ServedOnce(c, s1, steps[1..]);
      j := 0;
    } else {
      j := ServesFromChannel(c, s1, steps[1..], input);
      if steps[0] == ServerRead {
        j := j + 1;
        assert s.up[..j] == [s.up[0]] + s.up[1..][..j - 1];
      }
    }
  }

  /** And it may get any such part of it. */
  lemma {:induction false} ChannelCanBeServed(c: Setup, s: Stream, j: nat) returns (steps: seq<Step>)
    requires s.broken && s.server.Receiving? && j <= |s.up|
    ensures ServesBy(c, s, steps, s.rcv + s.up[..j])
    decreases j
  {
    if j == 0 {
      steps := [ServerHandle];
      assert steps[1..] == [] && s.rcv + s.up[..0] == s.rcv;
    } else {
      var s1 := Next(c, s, ServerRead).value;
      var rest := ChannelCanBeServed(c, s1, j - 1);
      steps := [ServerRead] + rest;
      assert steps[1..] == rest;
      assert s1.rcv + s1.up[..j - 1] == s.rcv + s.up[..j];
    }
  }

  /** Exactly what the handler can be run on once the stream is broken. */
  lemma InputsAfterBreak(c: Setup, s: Stream, input: seq<Bytes>)
    requires s.broken && s.server.Receiving?
    ensures CanServe(c, s, input) <==> exists j :: 0 <= j <= |s.up| && input == s.rcv + s.up[..j]
  {
    if steps :| ServesBy(c, s, steps, input) {
      var j := ServesFromChannel(c, s, steps, input);
    }
    if j: nat :| j <= |s.up| && input == s.rcv + s.up[..j] {
      var steps := ChannelCanBeServed(c, s, j);
    }
  }

  /**
   When a request whose stream broke before the handler ran is still served whole: always, if and
   only if its last buffer was read before the break; possibly, if and only if it was written before.
   */
  lemma WholeAfterBreak(c: Setup, steps: seq<Step>, s: Stream)
    requires Run(c, OPENED, steps) == Some(s) && s.broken && s.server.Receiving?
    ensures (forall input :: CanServe(c, s, input) ==> input == c.request) <==> s.rcv == c.request
    ensures CanServe(c, s, c.request) <==> s.rcv + s.up == c.request
  {
    RunKeepsInv(c, OPENED, steps);
    assert s.up[..|s.up|] == s.up && s.rcv + s.up[..0] == s.rcv;
    InputsAfterBreak(c, s, s.rcv);
    InputsAfterBreak(c, s, c.request);
    if s.rcv == c.request {
      assert |s.rcv + s.up| <= |c.request|;
      forall input | CanServe(c, s, input) ensures input == c.request { InputsAfterBreak(c, s, input); }
    }
    if CanServe(c, s, c.request) {
      var j :| 0 <= j <= |s.up| && c.request == s.rcv + s.up[..j];
      assert |s.rcv + s.up| <= |c.request|;
    }
  }

  /** A client that opens a stream and drops it has the handler run on nothing at all. */
  lemma DroppedStreamIsServed(c: Setup)
    ensures Run(c, OPENED, [Break, ServerHandle]) ==
      Some(OPENED.(broken := true, server := Handled(c, [])))
  {
    RunOne(c, OPENED, [], Break);
    RunOne(c, OPENED, [] + [Break], ServerHandle);
    assert [] + [Break] + [ServerHandle] == [Break, ServerHandle];
  }

  // ---------- Refinement of the one-step exchange ----------

  function Abstract(s: Stream): Phase {
    Phase(
      if s.server.Receiving? then None else Some(s.rcv),
      if s.client.Succeeded? then Outcome.Returned(s.reply)
      else if s.client.Threw? then Outcome.Threw
      else Outcome.Waiting,
      s.broken)
  }

  lemma WholeRequest(c: Setup, s: Stream)
    requires Inv(c, s) && !s.broken && s.up == [] && s.upClosed
    ensures s.rcv == c.request
  {
    assert s.rcv + s.up == s.rcv;
  }

  /** Every step of the stream is a step of the specification that is not atomic, or invisible to it. */
  lemma RefinesExchange(c: Setup, s: Stream, step: Step)
    requires Inv(c, s) && Next(c, s, step).Some?
    ensures SpecStutter(false, c.handler, c.request, Abstract(s), Abstract(Next(c, s, step).value))
  {
    if step.ClientFinish? { assert s.reply + [] == s.reply; }
    if step.ServerHandle? && !s.broken { WholeRequest(c, s); }
  }

  lemma {:induction false} RunPrefix(c: Setup, s: Stream, steps: seq<Step>, i: nat)
    requires Run(c, s, steps).Some? && i < |steps|
    ensures Run(c, s, steps[..i]).Some?
    ensures Next(c, Run(c, s, steps[..i]).value, steps[i]).Some?
    ensures Run(c, s, steps[..i + 1]) == Next(c, Run(c, s, steps[..i]).value, steps[i])
    decreases |steps|
  {
    if i == 0 {
      assert steps[..0] == [] && steps[..1][1..] == [];
    } else {
      assert steps[..i][1..] == steps[1..][..i - 1] && steps[..i + 1][1..] == steps[1..][..i];
      RunPrefix(c, Next(c, s, steps[0]).value, steps[1..], i - 1);
    }
  }

  /** The state after the first `i` steps of a run. */
  function StateAfter(c: Setup, steps: seq<Step>, i: nat): Stream
    requires i <= |steps|
  {
    var s := Run(c, OPENED, steps[..i]);
    if s.Some? then s.value else OPENED
  }

  /** The phases that the specification sees along a run. */
  function Phases(c: Setup, steps: seq<Step>): (phases: seq<Phase>)
    ensures |phases| == |steps| + 1
    ensures forall i :: 0 <= i <= |steps| ==> phases[i] == Abstract(StateAfter(c, steps, i))
  {
    seq(|steps| + 1, i requires 0 <= i <= |steps| => Abstract(StateAfter(c, steps, i)))
  }

  lemma PhasesStutter(c: Setup, steps: seq<Step>, i: nat)
    requires Run(c, OPENED, steps).Some? && i < |steps|
    ensures SpecStutter(false, c.handler, c.request, Phases(c, steps)[i], Phases(c, steps)[i + 1])
  {
    RunPrefix(c, OPENED, steps, i);
    RunKeepsInv(c, OPENED, steps[..i]);
    RefinesExchange(c, StateAfter(c, steps, i), steps[i]);
  }

  /** Every run is a run of the specification, from the beginning to the state it reaches. */
  lemma RunRefinesExchange(c: Setup, steps: seq<Step>)
    requires Run(c, OPENED, steps).Some?
    ensures SpecRun(false, c.handler, c.request, Phases(c, steps))
    ensures Phases(c, steps)[|steps|] == Abstract(Run(c, OPENED, steps).value)
  {
    var phases := Phases(c, steps);
    assert steps[..0] == [] && steps[..|steps|] == steps;
    forall i | 0 <= i < |phases| - 1
      ensures SpecStutter(false, c.handler, c.request, phases[i], phases[i + 1])
    {
      PhasesStutter(c, steps, i);
    }
  }

  // ---------- No deadlock, and the exact length of every run ----------

  /** Steps still to take when nothing breaks: unsent, in-flight and unread buffers, and phases. */
  function Left(c: Setup, s: Stream, snd: seq<Bytes>): int {
    2 * (|c.request| - Written(c, s)) + |s.up|
    + (if s.client.Writing? then 1 else 0)
    + (match s.server
       case Receiving => 2 + 2 * |snd|
       case Replying(_, next) => 1 + 2 * (|snd| - next) + |s.down|
       case _ => |s.down|)
    + (if s.client.Succeeded? then 0 else 1)
  }

  lemma StepsCount(c: Setup, s: Stream, step: Step, snd: seq<Bytes>)
    requires Inv(c, s) && c.handler(c.request) == Some(snd) && !s.broken && step != Break && Next(c, s, step).Some?
    ensures !Next(c, s, step).value.broken && Left(c, Next(c, s, step).value, snd) == Left(c, s, snd) - 1
  {
    if step.ServerHandle? { WholeRequest(c, s); }
  }

  /** Unless it has succeeded, an unbroken exchange can go on, for every positive window. */
  lemma NoDeadlock(c: Setup, s: Stream) returns (step: Step)
    requires Inv(c, s) && c.window > 0 && c.handler(c.request).Some? && !s.broken && !s.client.Succeeded?
    ensures step != Break && Next(c, s, step).Some?
  {
    if s.up != [] && s.server.Receiving? { step := ServerRead; }
    else if s.client.Writing? { step := if s.client.next < |c.request| then ClientWrite else WritesDone; }
    else if s.server.Receiving? { step := ServerHandle; }
    else if s.down != [] { step := ClientRead; }
    else if s.server.Replying? { step := if s.server.next < |s.server.snd| then ServerWrite else ServerReturn; }
    else { step := ClientFinish; }
  }

  /**
   For every positive window an unbroken run cannot go on for ever and cannot stop early: after
   exactly 2 steps per buffer of the request and of the reply and 4 more, and not before, it has
   succeeded.
   */
  lemma {:induction false} EveryRunSucceeds(c: Setup, s: Stream, steps: seq<Step>, snd: seq<Bytes>)
    requires Inv(c, s) && c.handler(c.request) == Some(snd) && !s.broken && Break !in steps && Run(c, s, steps).Some?
    ensures var end := Run(c, s, steps).value;
      && Inv(c, end) && !end.broken
      && |steps| + Left(c, end, snd) == Left(c, s, snd) && 0 <= Left(c, end, snd)
      && (end.client.Succeeded? <==> |steps| == Left(c, s, snd))
    decreases |steps|
  {
    if steps == [] {
      if s.client.Succeeded? { assert s.up == [] by { assert |s.rcv + s.up| == |c.request|; } }
    } else {
      NextKeepsInv(c, s, steps[0]);
      StepsCount(c, s, steps[0], snd);
      EveryRunSucceeds(c, Next(c, s, steps[0]).value, steps[1..], snd);
    }
  }

  lemma ExactLength(c: Setup, steps: seq<Step>, s: Stream, snd: seq<Bytes>)
    requires c.handler(c.request) == Some(snd) && Break !in steps && Run(c, OPENED, steps) == Some(s)
    ensures |steps| <= 2 * |c.request| + 2 * |snd| + 4
    ensures s.client.Succeeded? <==> |steps| == 2 * |c.request| + 2 * |snd| + 4
  {
    EveryRunSucceeds(c, OPENED, steps, snd);
  }

  /** From every unbroken state reached, some way of going on ends with success. */
  lemma {:induction false} CanFinish(c: Setup, s: Stream, snd: seq<Bytes>) returns (steps: seq<Step>)
    requires Inv(c, s) && c.window > 0 && c.handler(c.request) == Some(snd) && !s.broken
    ensures Break !in steps && Run(c, s, steps).Some? && Run(c, s, steps).value.client.Succeeded?
    decreases Left(c, s, snd)
  {
    steps := [];
    if !s.client.Succeeded? {
      var step := NoDeadlock(c, s);
      NextKeepsInv(c, s, step);
      StepsCount(c, s, step, snd);
      EveryRunSucceeds(c, s, [], snd);
      var rest := CanFinish(c, Next(c, s, step).value, snd);
      steps := [step] + rest;
      assert steps[1..] == rest;
    }
  }

  /** A handler that throws takes the server with it, and the client throws. */
  lemma ThrowingHandlerRun(c: Setup) returns (steps: seq<Step>, s: Stream)
    requires c.window > 0 && c.handler(c.request).None?
    ensures Run(c, OPENED, steps) == Some(s) && Break !in steps && s.server.Aborted? && s.client.Threw? && s.reply == []
  {
    var n := |c.request|;
    assert c.request[..n] == c.request;
    steps := Deliver(c, n);
    RunOne(c, OPENED, steps, WritesDone);
    steps := steps + [WritesDone];
    RunOne(c, OPENED, steps, ServerHandle);
    steps := steps + [ServerHandle];
    RunOne(c, OPENED, steps, ClientFinish);
    steps := steps + [ClientFinish];
    s := Run(c, OPENED, steps).value;
  }

  /** What a caller sees of an unbroken exchange, and a run that shows it. */
  lemma UnbrokenRun(c: Setup) returns (steps: seq<Step>, s: Stream)
    requires c.window > 0
    ensures Run(c, OPENED, steps) == Some(s) && Break !in steps
    ensures match c.handler(c.request)
      case Some(snd) => s.client.Succeeded? && s.reply == snd
      case None => s.client.Threw? && s.server.Aborted? && s.reply == []
  {
    match c.handler(c.request)
    case Some(snd) =>
      steps := CanFinish(c, OPENED, snd);
      s := Run(c, OPENED, steps).value;
      SuccessIsExact(c, steps, s);
    case None =>
      steps, s := ThrowingHandlerRun(c);
  }
}
