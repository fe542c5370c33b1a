/**
 The two greeter programs can always be drained: from every reachable state, with at least one
 server thread and without any further call or failure, some way of going on answers every call,
 prints every line and frees every call object.
 */
module GreeterDrain {
  import opened Options
  import opened GreeterServer
  import opened GreeterCounts
  import opened GreeterCalls

  // ---------- The work left ----------

  /** The statements that a frame still leads to, its replies and their delivery included. */
  function FrameWork(heap: Heap, f: Frame): nat {
    match f.line
    case TEST =>
      if StatusOf(heap, f.self) == CREATE then 3 else if StatusOf(heap, f.self) == PROCESS then 12 else 2
    case SET_PROCESS => 2
    case REQUEST => 1
    case SPAWN => 11
    case SET_REPLY => 7
    case SET_FINISH => 6
    case REPLY => 5
    case DELETE => 1
  }

  function StackWork(heap: Heap, stack: seq<Frame>): nat {
    (if |stack| > 0 then FrameWork(heap, stack[0]) else 0) + (if |stack| > 1 then FrameWork(heap, stack[1]) else 0)
  }

  function ThreadWork(heap: Heap, th: Thread): nat {
    match th
    case Boot => 4
    case Booting(f) => FrameWork(heap, f)
    case Serving(stack) => StackWork(heap, stack)
  }

  function OpWork(op: Op): nat {
    match op
    case Waiting => 0
    case Matched(_) => 13
    case Sending(_, _) => 4
    case Sent(_) => 3
  }

  function RpcWork(rpc: Rpc): nat {
    if rpc.net.Prepared? then 15 else if Reaching(rpc) then 14 else 0
  }

  function NetWorks(rpcs: seq<Rpc>): (ws: seq<nat>)
    ensures |ws| == |rpcs| && forall r :: 0 <= r < |rpcs| ==> ws[r] == RpcWork(rpcs[r])
  {
    seq(|rpcs|, r requires 0 <= r < |rpcs| => RpcWork(rpcs[r]))
  }

  function SenderWork(sender: Sender): nat {
    match sender
    case Idle => 0
    case Prepare(_, _) => 22
    case StartCall(_) => 6
    case Finish(_) => 5
  }

  function ReaderWork(reader: Reader): nat {
    match reader
    case AwaitTag => 0
    case Print(_) => 2
    case Delete(_) => 1
  }

  function ExpectationWork(e: Expectation): nat {
    if e.Expected? then 4 else 3
  }

  ghost function ServerWork(s: Server): nat {
    Total(s, ThreadWork) + MapSum(s.ops, OpWork)
  }

  ghost function Work(w: World): nat {
    SenderWork(w.sender) + ReaderWork(w.reader) + MapSum(w.expected, ExpectationWork)
    + ServerWork(w.server) + Sum(NetWorks(w.rpcs))
  }

  // ---------- The server's statements use it up ----------

  lemma StatementWork(heap: Heap, ops: map<Addr, Op>, f: Frame, pick: Addr)
    requires FrameGood(heap, f) && f.self !in ops && Statement(heap, ops, f, pick).Ok?
    ensures var e := Statement(heap, ops, f, pick).value;
      && |e.frames| <= 2
      && StackWork(e.heap, e.frames) + MapSum(e.ops, OpWork) < FrameWork(heap, f) + MapSum(ops, OpWork)
  {
    var e := Statement(heap, ops, f, pick).value;
    if f.line == REQUEST || f.line == REPLY { MapSumAdd(ops, OpWork, f.self, e.ops[f.self]); }
  }

  lemma OthersWork(s: Server, s': Server, i: nat)
    requires OnlyThread(s, s', i) && Inv(s)
    ensures forall j :: 0 <= j < |s.threads| && j != i ==>
      ThreadWork(s'.heap, s.threads[j]) == ThreadWork(s.heap, s.threads[j])
  {
    forall j | 0 <= j < |s.threads| && j != i
      ensures ThreadWork(s'.heap, s.threads[j]) == ThreadWork(s.heap, s.threads[j])
    {
      var th := s.threads[j];
      match th
      case Boot =>
      case Booting(f) => assert Holds(th, f.self);
      case Serving(stack) =>
        if |stack| > 0 { assert Holds(th, stack[0].self); }
        if |stack| > 1 { assert Holds(th, stack[1].self); }
    }
  }

  /** One statement of a thread: its own work and the runtime's go down together. */
  lemma ThreadStepWork(s: Server, i: nat, pick: Addr)
    requires Inv(s) && Exec(s, i, pick).Ok?
    ensures var s' := Exec(s, i, pick).value;
      i < |s.threads| == |s'.threads|
      && ThreadWork(s'.heap, s'.threads[i]) + MapSum(s'.ops, OpWork)
         < ThreadWork(s.heap, s.threads[i]) + MapSum(s.ops, OpWork)
  {
    var s' := Exec(s, i, pick).value;
    var th := s.threads[i];
    assert ThreadGood(s.heap, th);
    match th
    case Boot =>
    case Booting(f) =>
      assert Holds(th, f.self);
      StatementWork(s.heap, s.ops, f, pick);
    case Serving(stack) =>
      if stack == [] {
        MapSumRemove(s.ops, OpWork, pick);
        assert OpGood(s.heap[pick], s.ops[pick]);
      } else {
        assert Holds(th, stack[0].self);
        StackStepWork(s.heap, s.ops, stack, pick);
      }
  }

  lemma StackStepWork(heap: Heap, ops: map<Addr, Op>, stack: seq<Frame>, pick: Addr)
    requires ThreadGood(heap, Thread.Serving(stack)) && stack != [] && stack[0].self !in ops
    requires Statement(heap, ops, stack[0], pick).Ok?
    ensures var e := Statement(heap, ops, stack[0], pick).value;
      StackWork(e.heap, e.frames + stack[1..]) + MapSum(e.ops, OpWork) < StackWork(heap, stack) + MapSum(ops, OpWork)
  {
    var e := Statement(heap, ops, stack[0], pick).value;
    StatementWork(heap, ops, stack[0], pick);
    if |stack| == 1 {
      assert e.frames + stack[1..] == e.frames;
    } else {
      StatementIsLocal(heap, ops, stack[0], pick);
      assert |e.frames| <= 1 && stack[1..] == [stack[1]] && stack[1].line == SET_REPLY;
    }
  }

  lemma ExecUsesWork(s: Server, i: nat, pick: Addr)
    requires Inv(s) && Exec(s, i, pick).Ok?
    ensures ServerWork(Exec(s, i, pick).value) < ServerWork(s)
  {
    var s' := Exec(s, i, pick).value;
    assert OnlyThread(s, s', i) by { ExecIsOnlyThread(s, i, pick); }
    OthersWork(s, s', i);
    ShiftOne(s, s', i, ThreadWork);
    ThreadStepWork(s, i, pick);
  }

  lemma ExecIsOnlyThread(s: Server, i: nat, pick: Addr)
    requires Inv(s) && Exec(s, i, pick).Ok?
    ensures OnlyThread(s, Exec(s, i, pick).value, i)
  {
    if s.threads[i].Boot? { BootKeepsInv(s, i, pick); }
    else if s.threads[i].Booting? { BootingKeepsInv(s, i, pick); }
    else if s.threads[i].stack == [] { DequeueKeepsInv(s, i, pick); }
    else { ProceedKeepsInv(s, i, pick); }
    LocalIsOnlyThread(s, Exec(s, i, pick).value, i);
  }

  // ---------- So does every other event but a new call and a failure ----------

  /** An event that drains: no new call is made and none fails. */
  predicate Drains(w: World, ev: Event) {
    !ev.Break? && (ev.Send? ==> !w.sender.Idle?)
  }

  lemma ReachUsesWork(w: World, tag: Addr, r: nat)
    requires Inv(w.server) && ReachNext(w, tag, r).Ok?
    ensures Work(ReachNext(w, tag, r).value) < Work(w)
  {
    var w' := ReachNext(w, tag, r).value;
    assert forall a :: StatusOf(w'.server.heap, a) == StatusOf(w.server.heap, a);
    SameTotal(w.server, w'.server, ThreadWork);
    MapSumUpdate(w.server.ops, OpWork, tag, Matched(r));
    assert NetWorks(w'.rpcs) == NetWorks(w.rpcs)[r := 0];
    SumUpdate(NetWorks(w.rpcs), r, 0);
  }

  lemma FlushUsesWork(w: World, tag: Addr)
    requires Inv(w.server) && FlushNext(w, tag).Ok?
    ensures Work(FlushNext(w, tag).value) < Work(w)
  {
    var w' := FlushNext(w, tag).value;
    SameTotal(w.server, w'.server, ThreadWork);
    MapSumUpdate(w.server.ops, OpWork, tag, Sent(w.server.ops[tag].rpc));
    assert NetWorks(w'.rpcs) == NetWorks(w.rpcs);
  }

  lemma SendUsesWork(w: World, name: string, pick: Addr)
    requires Owners(w) && CallStates(w) && !w.sender.Idle? && SendNext(w, name, pick).Ok?
    ensures Work(SendNext(w, name, pick).value) < Work(w)
  {
    var w' := SendNext(w, name, pick).value;
    match w.sender
    case Prepare(a, user) =>
      assert NetWorks(w'.rpcs) == NetWorks(w.rpcs) + [15];
      SumAppend(NetWorks(w.rpcs), 15);
    case StartCall(a) =>
      assert CallGood(w, a, w.calls[a]);
      var r := w.calls[a].rpc.value;
      assert NetWorks(w'.rpcs) == NetWorks(w.rpcs)[r := 14];
      SumUpdate(NetWorks(w.rpcs), r, 14);
    case Finish(a) =>
      MapSumAdd(w.expected, ExpectationWork, a, w'.expected[a]);
  }

  lemma ReceiveUsesWork(w: World, pick: Addr)
    requires ReceiveNext(w, pick).Ok?
    ensures Work(ReceiveNext(w, pick).value) < Work(w)
  {
    var w' := ReceiveNext(w, pick).value;
    assert NetWorks(w'.rpcs) == NetWorks(w.rpcs);
    if w.reader.AwaitTag? { MapSumRemove(w.expected, ExpectationWork, pick); }
  }

  lemma LearnUsesWork(w: World, tag: Addr)
    requires LearnNext(w, tag).Ok?
    ensures Work(LearnNext(w, tag).value) < Work(w)
  {
    MapSumUpdate(w.expected, ExpectationWork, tag, Ready(w.expected[tag].rpc));
  }

  lemma EventUsesWork(w: World, ev: Event)
    requires Inv(w.server) && Owners(w) && CallStates(w) && Drains(w, ev) && Advance(w, ev).Ok?
    ensures Work(Advance(w, ev).value) < Work(w)
  {
    match ev
    case Send(name, pick) => SendUsesWork(w, name, pick);
    case Receive(pick) => ReceiveUsesWork(w, pick);
    case Learn(tag) => LearnUsesWork(w, tag);
    case Reach(tag, r) => ReachUsesWork(w, tag, r);
    case Flushed(tag) => FlushUsesWork(w, tag);
    case Serve(i, pick) => ExecUsesWork(w.server, i, pick);
  }

  // ---------- A call at the server is in somebody's hands ----------

  /** The frame is on its way to the reply of call `r`. */
  predicate PendingFrame(heap: Heap, f: Frame, r: nat) {
    && f.self in heap && heap[f.self].rpc == Some(r)
    && (f.line == SPAWN || f.line == SET_REPLY || f.line == SET_FINISH || f.line == REPLY
        || (f.line == TEST && heap[f.self].status == PROCESS))
  }

  predicate PendingStack(heap: Heap, stack: seq<Frame>, r: nat) {
    exists k :: 0 <= k < |stack| && PendingFrame(heap, stack[k], r)
  }

  predicate PendingOp(op: Op, r: nat) {
    (op.Matched? || op.Sending?) && op.rpc == r
  }

  predicate PendingOps(ops: map<Addr, Op>, r: nat) {
    exists a :: a in ops && PendingOp(ops[a], r)
  }

  predicate PendingThread(heap: Heap, th: Thread, r: nat) {
    th.Serving? && PendingStack(heap, th.stack, r)
  }

  predicate PendingThreads(heap: Heap, threads: seq<Thread>, r: nat) {
    exists i :: 0 <= i < |threads| && PendingThread(heap, threads[i], r)
  }

  predicate Pending(s: Server, r: nat) {
    PendingOps(s.ops, r) || PendingThreads(s.heap, s.threads, r)
  }

  /** A statement hands its call on to the next one, or to the runtime. */
  lemma TopStaysPending(heap: Heap, ops: map<Addr, Op>, f: Frame, pick: Addr, r: nat)
    requires FrameGood(heap, f) && f.self !in ops && PendingFrame(heap, f, r) && Statement(heap, ops, f, pick).Ok?
    ensures var e := Statement(heap, ops, f, pick).value;
      PendingStack(e.heap, e.frames, r) || PendingOps(e.ops, r)
  {
    var e := Statement(heap, ops, f, pick).value;
    if f.line == REPLY {
      assert PendingOp(e.ops[f.self], r);
    } else if f.line == SPAWN {
      assert PendingFrame(e.heap, e.frames[1], r);
    } else {
      assert PendingFrame(e.heap, e.frames[0], r);
    }
  }

  /** What one statement makes of a stack. */
  lemma StackAfter(s: Server, i: nat, pick: Addr)
    requires Inv(s) && i < |s.threads| && s.threads[i].Serving? && s.threads[i].stack != []
    requires Exec(s, i, pick).Ok?
    ensures var stack := s.threads[i].stack;
      && FrameGood(s.heap, stack[0]) && stack[0].self !in s.ops
      && Statement(s.heap, s.ops, stack[0], pick).Ok?
      && var e := Statement(s.heap, s.ops, stack[0], pick).value;
         var s' := Exec(s, i, pick).value;
         && i < |s'.threads| && s'.heap == e.heap && s'.ops == e.ops
         && s'.threads[i] == Thread.Serving(e.frames + stack[1..])
  {
    var th := s.threads[i];
    assert ThreadGood(s.heap, th) && Holds(th, th.stack[0].self);
    StatementIsLocal(s.heap, s.ops, th.stack[0], pick);
  }

  lemma TopOfStackStaysPending(s: Server, i: nat, pick: Addr, r: nat)
    requires Inv(s) && i < |s.threads| && s.threads[i].Serving? && s.threads[i].stack != []
    requires PendingFrame(s.heap, s.threads[i].stack[0], r) && Exec(s, i, pick).Ok?
    ensures Pending(Exec(s, i, pick).value, r)
  {
    var s', stack := Exec(s, i, pick).value, s.threads[i].stack;
    StackAfter(s, i, pick);
    TopStaysPending(s.heap, s.ops, stack[0], pick, r);
    var e := Statement(s.heap, s.ops, stack[0], pick).value;
    if PendingStack(e.heap, e.frames, r) {
      var j :| 0 <= j < |e.frames| && PendingFrame(e.heap, e.frames[j], r);
      assert (e.frames + stack[1..])[j] == e.frames[j];
      assert PendingThread(s'.heap, s'.threads[i], r);
    }
  }

  lemma FrameBelowStaysPending(s: Server, i: nat, pick: Addr, k: nat, r: nat)
    requires Inv(s) && i < |s.threads| && s.threads[i].Serving? && 0 < k < |s.threads[i].stack|
    requires PendingFrame(s.heap, s.threads[i].stack[k], r) && Exec(s, i, pick).Ok?
    ensures Pending(Exec(s, i, pick).value, r)
  {
    var s', stack := Exec(s, i, pick).value, s.threads[i].stack;
    StackAfter(s, i, pick);
    assert ThreadGood(s.heap, s.threads[i]);
    StatementIsLocal(s.heap, s.ops, stack[0], pick);
    var e := Statement(s.heap, s.ops, stack[0], pick).value;
    assert (e.frames + stack[1..])[|e.frames| + k - 1] == stack[k];
    assert PendingFrame(s'.heap, stack[k], r);
    assert PendingThread(s'.heap, s'.threads[i], r);
  }

  lemma StackStaysPending(s: Server, i: nat, pick: Addr, r: nat)
    requires Inv(s) && i < |s.threads| && s.threads[i].Serving? && s.threads[i].stack != []
    requires PendingStack(s.heap, s.threads[i].stack, r) && Exec(s, i, pick).Ok?
    ensures Pending(Exec(s, i, pick).value, r)
  {
    var k :| 0 <= k < |s.threads[i].stack| && PendingFrame(s.heap, s.threads[i].stack[k], r);
    if k == 0 { TopOfStackStaysPending(s, i, pick, r); } else { FrameBelowStaysPending(s, i, pick, k, r); }
  }

  lemma OtherStaysPending(s: Server, i: nat, pick: Addr, j: nat, r: nat)
    requires Inv(s) && Exec(s, i, pick).Ok? && i < |s.threads|
    requires j < |s.threads| && j != i && PendingThread(s.heap, s.threads[j], r)
    ensures Pending(Exec(s, i, pick).value, r)
  {
    var s' := Exec(s, i, pick).value;
    var th := s.threads[j];
    var k :| 0 <= k < |th.stack| && PendingFrame(s.heap, th.stack[k], r);
    assert Holds(th, th.stack[k].self);
    ExecLeavesOthers(s, i, pick, j, th.stack[k].self);
    assert PendingFrame(s'.heap, th.stack[k], r);
    assert PendingThread(s'.heap, s'.threads[j], r);
  }

  lemma ExecLeavesOthers(s: Server, i: nat, pick: Addr, j: nat, a: Addr)
    requires Inv(s) && Exec(s, i, pick).Ok? && i < |s.threads| && j < |s.threads| && j != i && Holds(s.threads[j], a)
    ensures var s' := Exec(s, i, pick).value;
      |s'.threads| == |s.threads| && s'.threads[j] == s.threads[j] && a in s'.heap && s'.heap[a] == s.heap[a]
  {
    assert !Holds(s.threads[i], a);
    if s.threads[i].Boot? { BootKeepsInv(s, i, pick); }
    else if s.threads[i].Booting? { BootingKeepsInv(s, i, pick); }
    else if s.threads[i].stack == [] { DequeueKeepsInv(s, i, pick); }
    else { ProceedKeepsInv(s, i, pick); }
  }

  lemma OpStaysPending(s: Server, i: nat, pick: Addr, a: Addr, r: nat)
    requires Inv(s) && Exec(s, i, pick).Ok? && i < |s.threads|
    requires a in s.ops && PendingOp(s.ops[a], r)
    ensures Pending(Exec(s, i, pick).value, r)
  {
    var s' := Exec(s, i, pick).value;
    if s.threads[i] == Thread.Serving([]) && pick == a {
      assert OpGood(s.heap[a], s.ops[a]);
      assert PendingFrame(s'.heap, s'.threads[i].stack[0], r);
      assert PendingThread(s'.heap, s'.threads[i], r);
    } else {
      assert a in s'.ops && s'.ops[a] == s.ops[a] by { ExecKeepsOp(s, i, pick, a); }
    }
  }

  lemma StatementKeepsOps(heap: Heap, ops: map<Addr, Op>, f: Frame, pick: Addr, a: Addr)
    requires f.self !in ops && Statement(heap, ops, f, pick).Ok? && a in ops
    ensures var ops' := Statement(heap, ops, f, pick).value.ops;
      a in ops' && ops'[a] == ops[a]
  {}

  lemma ExecKeepsOp(s: Server, i: nat, pick: Addr, a: Addr)
    requires Inv(s) && Exec(s, i, pick).Ok? && i < |s.threads| && a in s.ops
    requires s.threads[i] != Thread.Serving([]) || pick != a
    ensures var ops' := Exec(s, i, pick).value.ops;
      a in ops' && ops'[a] == s.ops[a]
  {
    match s.threads[i]
    case Boot =>
    case Booting(f) =>
      assert Holds(s.threads[i], f.self);
      StatementKeepsOps(s.heap, s.ops, f, pick, a);
    case Serving(stack) =>
      if stack != [] {
        StackAfter(s, i, pick);
        StatementKeepsOps(s.heap, s.ops, stack[0], pick, a);
      }
  }

  lemma ExecKeepsPending(s: Server, i: nat, pick: Addr, r: nat)
    requires Inv(s) && Exec(s, i, pick).Ok? && Pending(s, r)
    ensures Pending(Exec(s, i, pick).value, r)
  {
    if PendingOps(s.ops, r) {
      var a :| a in s.ops && PendingOp(s.ops[a], r);
      OpStaysPending(s, i, pick, a, r);
    } else {
      var j :| 0 <= j < |s.threads| && PendingThread(s.heap, s.threads[j], r);
      if j == i { StackStaysPending(s, i, pick, r); } else { OtherStaysPending(s, i, pick, j, r); }
    }
  }

  /** The runtime's steps leave the threads' objects alone. */
  lemma EnvironmentKeepsThreads(s: Server, step: Step, r: nat)
    requires Inv(s) && !step.Run? && Next(s, step).Ok? && PendingThreads(s.heap, s.threads, r)
    ensures PendingThreads(Next(s, step).value.heap, Next(s, step).value.threads, r)
  {
    var s' := Next(s, step).value;
    var j :| 0 <= j < |s.threads| && PendingThread(s.heap, s.threads[j], r);
    var stack := s.threads[j].stack;
    var k :| 0 <= k < |stack| && PendingFrame(s.heap, stack[k], r);
    assert Holds(s.threads[j], stack[k].self);
    assert PendingFrame(s'.heap, stack[k], r);
    assert PendingThread(s'.heap, s'.threads[j], r);
  }

  lemma MatchKeepsPending(s: Server, tag: Addr, q: nat, name: string, r: nat)
    requires Inv(s) && Match(s, tag, q, name).Ok? && (r == q || Pending(s, r))
    ensures Pending(Match(s, tag, q, name).value, r)
  {
    var s' := Match(s, tag, q, name).value;
    assert s' == Next(s, Arrive(tag, q, name)).value;
    if r == q {
      assert PendingOp(s'.ops[tag], r);
    } else if PendingOps(s.ops, r) {
      var a :| a in s.ops && PendingOp(s.ops[a], r);
      assert PendingOp(s'.ops[a], r);
    } else {
      EnvironmentKeepsThreads(s, Arrive(tag, q, name), r);
    }
  }

  lemma FlushKeepsPending(s: Server, tag: Addr, r: nat)
    requires Inv(s) && Flush(s, tag).Ok? && r != s.ops[tag].rpc && Pending(s, r)
    ensures Pending(Flush(s, tag).value, r)
  {
    var s' := Flush(s, tag).value;
    assert s' == Next(s, Depart(tag)).value;
    if PendingOps(s.ops, r) {
      var a :| a in s.ops && PendingOp(s.ops[a], r);
      assert PendingOp(s'.ops[a], r);
    } else {
      EnvironmentKeepsThreads(s, Depart(tag), r);
    }
  }

  // ---------- The invariant ----------

  /** A call that is not on its way yet is the sender's; one that is at the server is pending there. */
  ghost predicate Placed(w: World) {
    forall r :: 0 <= r < |w.rpcs| ==> PlacedCall(w, r)
  }

  ghost predicate PlacedCall(w: World, r: nat)
    requires r < |w.rpcs|
  {
    && (w.rpcs[r].net.Prepared? ==>
          w.sender.StartCall? && w.sender.self in w.calls && w.calls[w.sender.self].rpc == Some(r))
    && (w.rpcs[r].net.AtServer? ==> Pending(w.server, r))
  }

  ghost predicate Good(w: World) {
    ServerSide(w) && ClientSide(w) && Counts(w.server) && Placed(w)
  }

  lemma ServerEventKeepsPlaced(w: World, ev: Event)
    requires Inv(w.server) && Placed(w) && !OfClient(ev) && Advance(w, ev).Ok?
    ensures Placed(Advance(w, ev).value)
  {
    var w' := Advance(w, ev).value;
    forall r | 0 <= r < |w'.rpcs| ensures PlacedCall(w', r) {
      assert PlacedCall(w, r);
      if w'.rpcs[r].net.AtServer? {
        match ev
        case Serve(i, pick) => ExecKeepsPending(w.server, i, pick, r);
        case Reach(tag, q) => MatchKeepsPending(w.server, tag, q, w.rpcs[q].name, r);
        case Flushed(tag) => FlushKeepsPending(w.server, tag, r);
        case Break(_) =>
      }
    }
  }

  lemma SendKeepsPlaced(w: World, name: string, pick: Addr)
    requires Owners(w) && CallStates(w) && Placed(w) && SendNext(w, name, pick).Ok?
    ensures Placed(SendNext(w, name, pick).value)
  {
    var w' := SendNext(w, name, pick).value;
    forall r | 0 <= r < |w'.rpcs| ensures PlacedCall(w', r) {
      if r < |w.rpcs| { assert PlacedCall(w, r); }
    }
  }

  lemma ReaderKeepsPlaced(w: World, ev: Event)
    requires Owners(w) && Placed(w) && (ev.Receive? || ev.Learn?) && Advance(w, ev).Ok?
    ensures Placed(Advance(w, ev).value)
  {
    var w' := Advance(w, ev).value;
    forall r | 0 <= r < |w'.rpcs| ensures PlacedCall(w', r) {
      assert PlacedCall(w, r);
    }
  }

  lemma AdvanceKeepsGood(w: World, ev: Event)
    requires Good(w) && Advance(w, ev).Ok?
    ensures Good(Advance(w, ev).value)
  {
    AdvanceKeeps(w, ev);
    ServerStepKeepsCounts(w, ev);
    if ev.Send? { SendKeepsPlaced(w, ev.name, ev.pick); }
    else if OfClient(ev) { ReaderKeepsPlaced(w, ev); }
    else { ServerEventKeepsPlaced(w, ev); }
  }

  lemma {:induction false} ReachableGood(w: World, evs: seq<Event>)
    requires Good(w) && AdvanceAll(w, evs).Ok?
    ensures Good(AdvanceAll(w, evs).value)
    decreases |evs|
  {
    if evs != [] {
      AdvanceKeepsGood(w, evs[0]);
      ReachableGood(Advance(w, evs[0]).value, evs[1..]);
    }
  }

  // ---------- No deadlock ----------

  lemma FreshAddr(addrs: set<Addr>) returns (a: Addr)
    ensures a !in addrs
  {
    a := 0;
    var rest := addrs;
    while rest != {}
      invariant rest <= addrs
      invariant forall b :: b in addrs && b !in rest ==> b < a
      decreases |rest|
    {
      var b :| b in rest;
      if a <= b { a := b + 1; }
      rest := rest - {b};
    }
  }

  /** Nothing is left to do: no call is under way, nothing is queued, and every call object is freed. */
  ghost predicate Quiet(w: World) {
    w.sender.Idle? && w.reader.AwaitTag? && Drained(w.server) && w.calls == map[]
  }

  lemma BusyThreadRuns(s: Server, i: nat, pick: Addr)
    requires Inv(s) && i < |s.threads| && s.threads[i] != Thread.Serving([]) && pick !in s.heap
    ensures Exec(s, i, pick).Ok?
  {
    ExecKeepsInv(s, i, pick);
  }

  lemma BusyThreadGoesOn(w: World, i: nat) returns (ev: Event)
    requires Inv(w.server) && i < |w.server.threads| && w.server.threads[i] != Thread.Serving([])
    ensures Drains(w, ev) && Advance(w, ev).Ok?
  {
    var pick := FreshAddr(w.server.heap.Keys);
    BusyThreadRuns(w.server, i, pick);
    ev := Serve(i, pick);
  }

  lemma ReplyGoesOut(w: World, a: Addr)
    requires ServerSide(w) && a in w.server.ops && w.server.ops[a].Sending?
    ensures FlushNext(w, a).Ok?
  {
    FlushKeeps(w, a);
  }

  lemma TagIsTaken(w: World, a: Addr)
    requires Inv(w.server) && |w.server.threads| > 0 && w.server.threads[0] == Thread.Serving([])
    requires InQueue(w.server.ops, a)
    ensures Exec(w.server, 0, a).Ok?
  {}

  lemma OpGoesOn(w: World, a: Addr) returns (ev: Event)
    requires ServerSide(w) && |w.server.threads| > 0 && w.server.threads[0] == Thread.Serving([])
    requires a in w.server.ops && !w.server.ops[a].Waiting?
    ensures Drains(w, ev) && Advance(w, ev).Ok?
  {
    if w.server.ops[a].Sending? {
      ReplyGoesOut(w, a);
      ev := Flushed(a);
    } else {
      TagIsTaken(w, a);
      ev := Serve(0, a);
    }
  }

  /** With every thread in `Next` and nothing queued, some object waits for a call. */
  lemma AcceptorWaits(s: Server) returns (tag: Addr)
    requires Inv(s) && Counts(s) && Drained(s) && |s.threads| > 0
    ensures tag in s.ops && s.ops[tag].Waiting?
  {
    SumOfZeros(Each(s.heap, s.threads, Unreplaced));
    SumOfOnes(Each(s.heap, s.threads, IsServing));
    assert Accepting(s.ops) != {};
    tag :| tag in Accepting(s.ops);
  }

  lemma NothingPending(s: Server, r: nat)
    requires Drained(s)
    ensures !Pending(s, r)
  {}

  lemma CallIsTaken(w: World, r: nat) returns (tag: Addr)
    requires Inv(w.server) && Counts(w.server) && Drained(w.server) && |w.server.threads| > 0
    requires r < |w.rpcs| && w.rpcs[r].net.OnWire?
    ensures ReachNext(w, tag, r).Ok?
  {
    tag := AcceptorWaits(w.server);
  }

  lemma ExpectedCall(w: World, a: Addr)
    requires Owners(w) && CallStates(w) && a in w.expected
    ensures a in w.calls && w.expected[a].rpc < |w.rpcs|
  {
    assert CallGood(w, a, w.calls[a]);
  }

  /** With everything else done a call is on its way, or its end is known. */
  lemma CallIsPlaced(w: World, r: nat)
    requires Placed(w) && r < |w.rpcs| && w.sender.Idle? && Drained(w.server)
    ensures w.rpcs[r].net.OnWire? || Final(w.rpcs[r].net)
  {
    assert PlacedCall(w, r);
    NothingPending(w.server, r);
  }

  /** The client waits for a call, and everything else is done. */
  lemma CallGoesOn(w: World, a: Addr) returns (ev: Event)
    requires Inv(w.server) && Counts(w.server) && Owners(w) && CallStates(w) && Placed(w)
    requires |w.server.threads| > 0 && w.sender.Idle? && w.reader.AwaitTag? && Drained(w.server)
    requires a in w.expected
    ensures Drains(w, ev) && Advance(w, ev).Ok?
  {
    if w.expected[a].Ready? {
      ev := Receive(a);
    } else {
      var r := w.expected[a].rpc;
      ExpectedCall(w, a);
      CallIsPlaced(w, r);
      if w.rpcs[r].net.OnWire? {
        var tag := CallIsTaken(w, r);
        ev := Reach(tag, r);
      } else {
        ev := Learn(a);
      }
    }
  }

  lemma SenderGoesOn(w: World)
    requires Owners(w) && CallStates(w) && !w.sender.Idle?
    ensures SendNext(w, "", 0).Ok?
  {
    SendKeepsOwners(w, "", 0);
  }

  lemma ReaderGoesOn(w: World)
    requires Owners(w) && CallStates(w) && !w.reader.AwaitTag?
    ensures ReceiveNext(w, 0).Ok?
  {
    ReceiveKeepsOwners(w, 0);
  }

  lemma NoDeadlock(w: World) returns (ev: Event)
    requires Good(w) && |w.server.threads| > 0 && !Quiet(w)
    ensures Drains(w, ev) && Advance(w, ev).Ok?
  {
    if !w.sender.Idle? {
      SenderGoesOn(w);
      ev := Send("", 0);
    } else if !w.reader.AwaitTag? {
      ReaderGoesOn(w);
      ev := Receive(0);
    } else if i :| 0 <= i < |w.server.threads| && w.server.threads[i] != Thread.Serving([]) {
      ev := BusyThreadGoesOn(w, i);
    } else if a :| a in w.server.ops && !w.server.ops[a].Waiting? {
      ev := OpGoesOn(w, a);
    } else {
      var a :| a in w.calls;
      ev := CallGoesOn(w, a);
    }
  }

  // ---------- Draining ----------

  lemma OneStep(w: World) returns (ev: Event, w': World)
    requires Good(w) && |w.server.threads| > 0 && !Quiet(w)
    ensures !ev.Break? && Advance(w, ev) == Ok(w') && Good(w') && Work(w') < Work(w)
    ensures |w'.server.threads| == |w.server.threads|
  {
    ev := NoDeadlock(w);
    w' := Advance(w, ev).value;
    AdvanceKeepsGood(w, ev);
    EventUsesWork(w, ev);
    ThreadsStay(w, ev);
  }

  /** `ev` goes on from `w` within `good`, and uses up work. */
  ghost predicate Goes(good: World -> bool, w: World, ev: Event) {
    && !ev.Break? && Advance(w, ev).Ok?
    && good(Advance(w, ev).value) && Work(Advance(w, ev).value) < Work(w)
  }

  ghost predicate Progress(good: World -> bool) {
    forall w {:trigger Quiet(w)} :: good(w) && !Quiet(w) ==> exists ev :: Goes(good, w, ev)
  }

  lemma {:induction false} DrainWithin(good: World -> bool, w: World) returns (evs: seq<Event>, end: World)
    requires good(w) && Progress(good)
    ensures AdvanceAll(w, evs) == Ok(end) && good(end) && Quiet(end)
    ensures forall k :: 0 <= k < |evs| ==> !evs[k].Break?
    decreases Work(w)
  {
    evs, end := [], w;
    if !Quiet(w) {
      var ev :| Goes(good, w, ev);
      var rest;
      rest, end := DrainWithin(good, Advance(w, ev).value);
      evs := [ev] + rest;
      assert evs[1..] == rest;
    }
  }

  lemma DrainFrom(w: World) returns (evs: seq<Event>, end: World)
    requires Good(w) && |w.server.threads| > 0
    ensures AdvanceAll(w, evs) == Ok(end) && Good(end) && Quiet(end)
    ensures forall k :: 0 <= k < |evs| ==> !evs[k].Break?
  {
    var good: World -> bool := v => Good(v) && |v.server.threads| > 0;
    forall v | good(v) && !Quiet(v) ensures exists ev :: Goes(good, v, ev) {
      var ev, v' := OneStep(v);
      assert Goes(good, v, ev);
    }
    evs, end := DrainWithin(good, w);
  }

  lemma ThreadsStay(w: World, ev: Event)
    requires Advance(w, ev).Ok?
    ensures |Advance(w, ev).value.server.threads| == |w.server.threads|
  {}

  lemma StartGood(threads: nat)
    ensures Good(Start(threads))
  {
    StartKeeps(threads);
  }

  /**
   From every reachable state some way of going on, in which nothing fails, ends with every call
   printed once and freed once, and with two completion events used for each that reached the server.
   */
  lemma CanDrain(threads: nat, evs: seq<Event>, w: World) returns (more: seq<Event>, end: World)
    requires threads > 0 && AdvanceAll(Start(threads), evs) == Ok(w)
    ensures AdvanceAll(w, more) == Ok(end) && Quiet(end)
    ensures forall k :: 0 <= k < |more| ==> !more[k].Break?
    ensures forall r :: 0 <= r < |end.rpcs| ==> end.rpcs[r].frees == 1 && end.rpcs[r].line.Some?
    ensures end.server.dequeued == 2 * Sum(Arrivals(end.rpcs))
  {
    StartGood(threads);
    ReachableGood(Start(threads), evs);
    SameThreads(Start(threads), evs);
    more, end := DrainFrom(w);
    AdvanceAppend(Start(threads), evs, more);
    DrainedCallsUseTwoEventsEach(threads, evs + more, end);
    forall r | 0 <= r < |end.rpcs| ensures end.rpcs[r].frees == 1 && end.rpcs[r].line.Some? {
      assert RecordGood(end, r);
    }
  }

  lemma EndedCall(threads: nat, evs: seq<Event>, w: World, r: nat)
    requires AdvanceAll(Start(threads), evs) == Ok(w) && w.calls == map[] && r < |w.rpcs|
    ensures Final(w.rpcs[r].net) && RpcGood(w.rpcs[r])
  {
    Reachable(threads, evs);
    assert RecordGood(w, r);
  }

  /** Where nothing has failed and nothing is left to do, every call has been answered. */
  lemma QuietCallsAreAnswered(threads: nat, evs: seq<Event>, w: World, r: nat)
    requires AdvanceAll(Start(threads), evs) == Ok(w) && Quiet(w) && r < |w.rpcs|
    requires forall k :: 0 <= k < |evs| ==> !evs[k].Break?
    ensures w.rpcs[r].net == Replied("Hello " + w.rpcs[r].name)
  {
    EndedCall(threads, evs, w, r);
    NothingFails(Start(threads), evs);
  }

  /** Without a failure on the way no call fails. */
  lemma {:induction false} NothingFails(w: World, evs: seq<Event>)
    requires AdvanceAll(w, evs).Ok? && forall k :: 0 <= k < |evs| ==> !evs[k].Break?
    requires forall r :: 0 <= r < |w.rpcs| ==> !w.rpcs[r].net.Broken?
    ensures forall r :: 0 <= r < |AdvanceAll(w, evs).value.rpcs| ==> !AdvanceAll(w, evs).value.rpcs[r].net.Broken?
    decreases |evs|
  {
    if evs != [] {
      EventFailsNothing(w, evs[0]);
      NothingFails(Advance(w, evs[0]).value, evs[1..]);
    }
  }

  lemma EventFailsNothing(w: World, ev: Event)
    requires Advance(w, ev).Ok? && !ev.Break?
    requires forall r :: 0 <= r < |w.rpcs| ==> !w.rpcs[r].net.Broken?
    ensures forall r :: 0 <= r < |Advance(w, ev).value.rpcs| ==> !Advance(w, ev).value.rpcs[r].net.Broken?
  {}

  lemma {:induction false} SameThreads(w: World, evs: seq<Event>)
    requires AdvanceAll(w, evs).Ok?
    ensures |AdvanceAll(w, evs).value.server.threads| == |w.server.threads|
    decreases |evs|
  {
    if evs != [] {
      ThreadsStay(w, evs[0]);
      SameThreads(Advance(w, evs[0]).value, evs[1..]);
    }
  }

  lemma {:induction false} AdvanceAppend(w: World, evs: seq<Event>, more: seq<Event>)
    requires AdvanceAll(w, evs).Ok?
    ensures AdvanceAll(w, evs + more) == AdvanceAll(AdvanceAll(w, evs).value, more)
    decreases |evs|
  {
    if evs == [] {
      assert evs + more == more;
    } else {
      assert (evs + more)[1..] == evs[1..] + more;
      AdvanceAppend(Advance(w, evs[0]).value, evs[1..], more);
    }
  }
}
