/**
 The asynchronous greeter server at the grain of single statements: any number of threads in
 `HandleRpcs`, heap objects that publish their own address as a tag and delete themselves, and
 a runtime that matches requests and delivers tags in any order.

 The heap is explicit and an address may be used again once it has been freed, so a stale tag
 would reach somebody else's object. Touching an address that is not live, publishing a tag
 twice and failing the assertion before `delete` are faults.
 */
module GreeterServer {
  import opened Options

  type Addr = nat

  datatype Status = CREATE | PROCESS | FINISH

  /** `rpc` is the call that the context and the responder of the object are bound to. */
  datatype CallData = CallData(status: Status, rpc: Option<nat>, name: string, reply: string)

  const NEW := CallData(CREATE, None, "", "")

  /** What the runtime holds under a tag. `Matched` and `Sent` sit in the completion queue. */
  datatype Op = Waiting | Matched(rpc: nat) | Sending(rpc: nat, reply: string) | Sent(rpc: nat)

  /** The statements of `Proceed`, each about to run. */
  datatype Line = TEST | SET_PROCESS | REQUEST | SPAWN | SET_REPLY | SET_FINISH | REPLY | DELETE

  datatype Frame = Frame(line: Line, self: Addr)

  datatype Thread =
    | Boot                          // before the first `new CallData`
    | Booting(frame: Frame)         // inside that object's constructor
    | Serving(stack: seq<Frame>)    // in the loop; top frame first; empty: waiting for an event

  datatype Server = Server(
    heap: map<Addr, CallData>,
    ops: map<Addr, Op>,
    threads: seq<Thread>,
    dequeued: nat,
    deleted: nat)

  function Init(threads: nat): Server {
    Server(map[], map[], seq(threads, i => Boot), 0, 0)
  }

  /** `Stuck`: the step is not possible now. `Fault`: the program does something undefined. */
  datatype Result<+T> = Stuck | Fault | Ok(value: T)

  /** One thread's view of a statement: the new heap and operations, and the frames that replace the top one. */
  datatype Effect = Effect(heap: map<Addr, CallData>, ops: map<Addr, Op>, frames: seq<Frame>)

  /** One statement of `Proceed` on the object `f.self`; `pick` is the address the allocator would give. */
  function Statement(heap: map<Addr, CallData>, ops: map<Addr, Op>, f: Frame, pick: Addr): Result<Effect> {
    var a := f.self;
    if a !in heap then Fault else
    var o := heap[a];
    match f.line
    case TEST =>
      var line := if o.status == CREATE then SET_PROCESS else if o.status == PROCESS then SPAWN else DELETE;
      Ok(Effect(heap, ops, [Frame(line, a)]))
    case SET_PROCESS => Ok(Effect(heap[a := o.(status := PROCESS)], ops, [Frame(REQUEST, a)]))
    case REQUEST => if a in ops then Fault else Ok(Effect(heap, ops[a := Waiting], []))
    case SPAWN =>
      if pick in heap then Stuck
      else Ok(Effect(heap[pick := NEW], ops, [Frame(TEST, pick), Frame(SET_REPLY, a)]))
    case SET_REPLY => Ok(Effect(heap[a := o.(reply := "Hello " + o.name)], ops, [Frame(SET_FINISH, a)]))
    case SET_FINISH => Ok(Effect(heap[a := o.(status := FINISH)], ops, [Frame(REPLY, a)]))
    case REPLY =>
      if a in ops || o.rpc.None? then Fault
      else Ok(Effect(heap, ops[a := Sending(o.rpc.value, o.reply)], []))
    case DELETE => if o.status != FINISH then Fault else Ok(Effect(heap - {a}, ops, []))
  }

  predicate InQueue(ops: map<Addr, Op>, tag: Addr) {
    tag in ops && (ops[tag].Matched? || ops[tag].Sent?)
  }

  /** Thread `i` runs one statement; `pick` is the tag or the fresh address it gets. */
  function Exec(s: Server, i: nat, pick: Addr): Result<Server> {
    if i >= |s.threads| then Stuck else
    match s.threads[i]
    case Boot =>
      if pick in s.heap then Stuck
      else Ok(s.(heap := s.heap[pick := NEW], threads := s.threads[i := Booting(Frame(TEST, pick))]))
    case Booting(f) =>
      (match Statement(s.heap, s.ops, f, pick)
       case Stuck => Stuck
       case Fault => Fault
       case Ok(e) =>
         if |e.frames| == 1 then Ok(s.(heap := e.heap, ops := e.ops, threads := s.threads[i := Booting(e.frames[0])]))
         else if e.frames == [] then Ok(s.(heap := e.heap, ops := e.ops, threads := s.threads[i := Serving([])]))
         else Fault)
    case Serving(stack) =>
      if stack == [] then
        if !InQueue(s.ops, pick) then Stuck
        else Ok(s.(ops := s.ops - {pick}, threads := s.threads[i := Serving([Frame(TEST, pick)])],
                   dequeued := s.dequeued + 1))
      else
        match Statement(s.heap, s.ops, stack[0], pick)
        case Stuck => Stuck
        case Fault => Fault
        case Ok(e) =>
          Ok(s.(heap := e.heap, ops := e.ops,
                threads := s.threads[i := Serving(e.frames + stack[1..])],
                deleted := s.deleted + if stack[0].line == DELETE then 1 else 0))
  }

  /** The runtime gives a waiting object a call: it writes into the object and queues the tag. */
  function Match(s: Server, tag: Addr, rpc: nat, name: string): Result<Server> {
    if tag !in s.ops || !s.ops[tag].Waiting? then Stuck
    else if tag !in s.heap then Fault
    else Ok(s.(heap := s.heap[tag := s.heap[tag].(rpc := Some(rpc), name := name)], ops := s.ops[tag := Matched(rpc)]))
  }

  /** The reply has gone out: the runtime is done with the object's context and queues the tag again. */
  function Flush(s: Server, tag: Addr): Result<Server> {
    if tag !in s.ops || !s.ops[tag].Sending? then Stuck
    else if tag !in s.heap then Fault
    else Ok(s.(ops := s.ops[tag := Sent(s.ops[tag].rpc)]))
  }

  datatype Step = Run(thread: nat, pick: Addr) | Arrive(tag: Addr, rpc: nat, name: string) | Depart(tag: Addr)

  function Next(s: Server, step: Step): Result<Server> {
    match step
    case Run(i, pick) => Exec(s, i, pick)
    case Arrive(tag, rpc, name) => Match(s, tag, rpc, name)
    case Depart(tag) => Flush(s, tag)
  }

  function RunAll(s: Server, steps: seq<Step>): Result<Server>
    decreases |steps|
  {
    if steps == [] then Ok(s) else
    match Next(s, steps[0])
    case Ok(s') => RunAll(s', steps[1..])
    case Stuck => Stuck
    case Fault => Fault
  }

  // ---------- Ownership ----------

  /** The thread is working on the object at `a`. */
  predicate Holds(th: Thread, a: Addr) {
    match th
    case Boot => false
    case Booting(f) => f.self == a
    case Serving(stack) => exists k :: 0 <= k < |stack| && stack[k].self == a
  }

  /** The frame's statement is the right one for the state its object is in. */
  predicate FrameGood(heap: map<Addr, CallData>, f: Frame) {
    f.self in heap &&
    var o := heap[f.self];
    match f.line
    case TEST => o.status == CREATE <==> o.rpc.None?
    case SET_PROCESS => o.status == CREATE && o.rpc.None?
    case REQUEST => o.status == PROCESS && o.rpc.None?
    case SPAWN => o.status == PROCESS && o.rpc.Some?
    case SET_REPLY => o.status == PROCESS && o.rpc.Some?
    case SET_FINISH => o.status == PROCESS && o.rpc.Some? && o.reply == "Hello " + o.name
    case REPLY => o.status == FINISH && o.rpc.Some? && o.reply == "Hello " + o.name
    case DELETE => o.status == FINISH && o.rpc.Some?
  }

  /** The frame runs the constructor's call of `Proceed`. */
  predicate Constructing(heap: map<Addr, CallData>, f: Frame) {
    f.self in heap && heap[f.self].rpc.None?
  }

  predicate ThreadGood(heap: map<Addr, CallData>, th: Thread) {
    match th
    case Boot => true
    case Booting(f) => FrameGood(heap, f) && Constructing(heap, f)
    case Serving(stack) =>
      && |stack| <= 2
      && (|stack| == 1 ==> FrameGood(heap, stack[0]) && !Constructing(heap, stack[0]))
      && (|stack| == 2 ==>
            && FrameGood(heap, stack[0]) && Constructing(heap, stack[0])
            && FrameGood(heap, stack[1]) && stack[1].line == SET_REPLY
            && stack[0].self != stack[1].self)
  }

  /** The runtime's operation matches the state of the object it points to. */
  predicate OpGood(o: CallData, op: Op) {
    match op
    case Waiting => o.status == PROCESS && o.rpc.None?
    case Matched(r) => o.status == PROCESS && o.rpc == Some(r)
    case Sending(r, m) => o.status == FINISH && o.rpc == Some(r) && m == "Hello " + o.name
    case Sent(r) => o.status == FINISH && o.rpc == Some(r)
  }

  predicate HeldBySome(threads: seq<Thread>, a: Addr) {
    exists i :: 0 <= i < |threads| && Holds(threads[i], a)
  }

  /** Every live object has exactly one owner: one thread, or the runtime under its tag. */
  ghost predicate Inv(s: Server) {
    && (forall a :: a in s.ops ==> a in s.heap && OpGood(s.heap[a], s.ops[a]))
    && (forall i :: 0 <= i < |s.threads| ==> ThreadGood(s.heap, s.threads[i]))
    && (forall i, a :: 0 <= i < |s.threads| && Holds(s.threads[i], a) ==> a in s.heap && a !in s.ops)
    && (forall i, j, a :: 0 <= i < j < |s.threads| && Holds(s.threads[i], a) ==> !Holds(s.threads[j], a))
    && (forall a :: a in s.heap && a !in s.ops ==> HeldBySome(s.threads, a))
  }

  lemma InitInv(n: nat)
    ensures Inv(Init(n))
  {}

  /** A thread does not notice changes to objects it does not hold. */
  lemma ThreadStable(heap: map<Addr, CallData>, heap': map<Addr, CallData>, th: Thread)
    requires ThreadGood(heap, th)
    requires forall a :: Holds(th, a) ==> a in heap && a in heap' && heap'[a] == heap[a]
    ensures ThreadGood(heap', th)
  {
    match th
    case Boot =>
    case Booting(f) => assert Holds(th, f.self);
    case Serving(stack) =>
      if |stack| > 0 { assert Holds(th, stack[0].self); }
      if |stack| > 1 { assert Holds(th, stack[1].self); }
  }

  /** The runtime moves one operation on, writing at most into the object under its tag. */
  lemma EnvironmentKeepsInv(s: Server, step: Step)
    requires Inv(s) && !step.Run?
    ensures Next(s, step) != Fault
    ensures Next(s, step).Ok? ==> Inv(Next(s, step).value)
  {
    if Next(s, step).Ok? {
      var s' := Next(s, step).value;
      forall i | 0 <= i < |s.threads| ensures ThreadGood(s'.heap, s.threads[i]) {
        ThreadStable(s.heap, s'.heap, s.threads[i]);
      }
      forall a | a in s'.heap && a !in s'.ops ensures HeldBySome(s'.threads, a) {
        assert a in s.heap && a !in s.ops;
      }
    }
  }

  /** What a thread's statement must do for ownership to survive. */
  ghost predicate LocalTo(s: Server, s': Server, i: nat)
    requires i < |s.threads| && |s'.threads| == |s.threads|
  {
    var th, th' := s.threads[i], s'.threads[i];
    && s'.threads == s.threads[i := th']
    && ThreadGood(s'.heap, th')
    && (forall a :: a in s.heap && !Holds(th, a) ==> a in s'.heap && s'.heap[a] == s.heap[a])
    && (forall a :: Holds(th', a) ==> a !in s'.ops && (Holds(th, a) || a !in s.heap || a in s.ops))
    && (forall a :: a in s'.ops ==>
          if a in s.ops then s'.ops[a] == s.ops[a]
          else Holds(th, a) && a in s'.heap && OpGood(s'.heap[a], s'.ops[a]))
    && (forall a :: a in s'.heap && a !in s'.ops ==> Holds(th', a) || (a in s.heap && a !in s.ops && !Holds(th, a)))
  }

  lemma HeldIsLive(heap: map<Addr, CallData>, th: Thread, a: Addr)
    requires ThreadGood(heap, th) && Holds(th, a)
    ensures a in heap
  {
    if th.Booting? {
      assert FrameGood(heap, th.frame);
    } else {
      assert FrameGood(heap, th.stack[0]);
      assert |th.stack| > 1 ==> FrameGood(heap, th.stack[1]);
    }
  }

  lemma LocalKeepsThreads(s: Server, s': Server, i: nat, j: nat)
    requires Inv(s) && i < |s.threads| && |s'.threads| == |s.threads| && LocalTo(s, s', i) && j < |s.threads|
    ensures ThreadGood(s'.heap, s'.threads[j])
  {
    if j != i { ThreadStable(s.heap, s'.heap, s.threads[j]); }
  }

  lemma LocalKeepsHolders(s: Server, s': Server, i: nat, a: Addr)
    requires Inv(s) && i < |s.threads| && |s'.threads| == |s.threads| && LocalTo(s, s', i)
    requires a in s'.heap && a !in s'.ops
    ensures HeldBySome(s'.threads, a)
  {
    if Holds(s'.threads[i], a) {
      assert Holds(s'.threads[i], a);
    } else {
      var j :| 0 <= j < |s.threads| && Holds(s.threads[j], a);
      assert Holds(s'.threads[j], a);
    }
  }

  lemma LocalKeepsInv(s: Server, s': Server, i: nat)
    requires Inv(s) && i < |s.threads| && |s'.threads| == |s.threads| && LocalTo(s, s', i)
    ensures Inv(s')
  {
    forall j | 0 <= j < |s'.threads| ensures ThreadGood(s'.heap, s'.threads[j]) { LocalKeepsThreads(s, s', i, j); }
    forall a | Holds(s'.threads[i], a) ensures a in s'.heap { HeldIsLive(s'.heap, s'.threads[i], a); }
    forall a | a in s'.heap && a !in s'.ops ensures HeldBySome(s'.threads, a) { LocalKeepsHolders(s, s', i, a); }
  }

  lemma StackHolds(stack: seq<Frame>)
    requires |stack| <= 2
    ensures forall a :: Holds(Serving(stack), a) <==>
      (|stack| > 0 && stack[0].self == a) || (|stack| > 1 && stack[1].self == a)
  {
    forall a ensures Holds(Serving(stack), a) <==>
      (|stack| > 0 && stack[0].self == a) || (|stack| > 1 && stack[1].self == a)
    {
      if |stack| > 0 && stack[0].self == a { assert Holds(Serving(stack), a); }
      if |stack| > 1 && stack[1].self == a { assert Holds(Serving(stack), a); }
    }
  }

  /**
   One statement on a good frame never faults. It leaves every other object and operation alone;
   when it leaves `Proceed` its object is published in the right state or gone, and nothing is
   published before.
   */
  lemma StatementIsLocal(heap: map<Addr, CallData>, ops: map<Addr, Op>, f: Frame, pick: Addr)
    requires FrameGood(heap, f) && f.self !in ops
    ensures var a := f.self;
      match Statement(heap, ops, f, pick)
      case Fault => false
      case Stuck => true
      case Ok(e) =>
        && (forall b :: b in heap && b != a ==> b in e.heap && e.heap[b] == heap[b])
        && (forall b :: b in e.heap && b !in heap ==> b == pick && f.line == SPAWN)
        && (|e.frames| == 0 ==>
              && (f.line == REQUEST || f.line == REPLY || f.line == DELETE)
              && (f.line == DELETE ==> a !in e.heap && e.ops == ops)
              && (f.line != DELETE ==> e.heap == heap && e.ops.Keys == ops.Keys + {a} && e.ops == ops[a := e.ops[a]]
                                       && OpGood(heap[a], e.ops[a])))
        && (|e.frames| == 1 ==>
              && e.ops == ops && FrameGood(e.heap, e.frames[0]) && e.frames[0].self == a
              && a in e.heap && e.heap[a].rpc == heap[a].rpc)
        && (|e.frames| == 2 ==>
              && e.ops == ops && f.line == SPAWN && pick !in heap
              && e.frames == [Frame(TEST, pick), Frame(SET_REPLY, a)] && e.heap == heap[pick := NEW])
        && |e.frames| <= 2
  {
  }

  lemma BootKeepsInv(s: Server, i: nat, pick: Addr)
    requires Inv(s) && i < |s.threads| && s.threads[i].Boot?
    ensures Exec(s, i, pick) != Fault
    ensures Exec(s, i, pick).Ok? ==> LocalTo(s, Exec(s, i, pick).value, i)
  {
  }

  lemma BootingGoesOn(s: Server, i: nat, pick: Addr)
    requires Inv(s) && i < |s.threads| && s.threads[i].Booting?
    requires var next := Statement(s.heap, s.ops, s.threads[i].frame, pick);
      next.Ok? && |next.value.frames| == 1
    ensures Exec(s, i, pick).Ok? && LocalTo(s, Exec(s, i, pick).value, i)
  {
    assert ThreadGood(s.heap, s.threads[i]);
    var f := s.threads[i].frame;
    assert Holds(s.threads[i], f.self);
    StatementIsLocal(s.heap, s.ops, f, pick);
  }

  lemma BootingEnds(s: Server, i: nat, pick: Addr)
    requires Inv(s) && i < |s.threads| && s.threads[i].Booting?
    requires var next := Statement(s.heap, s.ops, s.threads[i].frame, pick);
      next.Ok? && next.value.frames == []
    ensures Exec(s, i, pick).Ok? && LocalTo(s, Exec(s, i, pick).value, i)
  {
    assert ThreadGood(s.heap, s.threads[i]);
    var f := s.threads[i].frame;
    assert Holds(s.threads[i], f.self);
    StatementIsLocal(s.heap, s.ops, f, pick);
    StackHolds([]);
  }

  lemma BootingKeepsInv(s: Server, i: nat, pick: Addr)
    requires Inv(s) && i < |s.threads| && s.threads[i].Booting?
    ensures Exec(s, i, pick) != Fault
    ensures Exec(s, i, pick).Ok? ==> LocalTo(s, Exec(s, i, pick).value, i)
  {
    assert ThreadGood(s.heap, s.threads[i]);
    var f := s.threads[i].frame;
    assert Holds(s.threads[i], f.self);
    StatementIsLocal(s.heap, s.ops, f, pick);
    var next := Statement(s.heap, s.ops, f, pick);
    if next.Ok? {
      if |next.value.frames| == 1 { BootingGoesOn(s, i, pick); } else { BootingEnds(s, i, pick); }
    }
  }

  lemma DequeueKeepsInv(s: Server, i: nat, pick: Addr)
    requires Inv(s) && i < |s.threads| && s.threads[i] == Serving([])
    ensures Exec(s, i, pick) != Fault
    ensures Exec(s, i, pick).Ok? ==> LocalTo(s, Exec(s, i, pick).value, i)
  {
    StackHolds([]);
    StackHolds([Frame(TEST, pick)]);
  }

  /** A statement on the only frame of a stack. */
  lemma AloneIsLocal(s: Server, i: nat, pick: Addr)
    requires Inv(s) && i < |s.threads| && s.threads[i].Serving? && |s.threads[i].stack| == 1
    requires Exec(s, i, pick).Ok?
    ensures LocalTo(s, Exec(s, i, pick).value, i)
  {
    var th := s.threads[i];
    var f := th.stack[0];
    assert ThreadGood(s.heap, th);
    StackHolds(th.stack);
    assert Holds(th, f.self);
    StatementIsLocal(s.heap, s.ops, f, pick);
    var e := Statement(s.heap, s.ops, f, pick).value;
    assert Exec(s, i, pick).value.threads[i] == Serving(e.frames + th.stack[1..]);
    assert e.frames + th.stack[1..] == e.frames;
    StackHolds(e.frames);
  }

  /** What a statement of the constructor leaves of the two frames, and the objects they hold. */
  lemma NestedFrames(s: Server, i: nat, pick: Addr)
    requires Inv(s) && i < |s.threads| && s.threads[i].Serving? && |s.threads[i].stack| == 2
    requires Exec(s, i, pick).Ok?
    ensures var f, below := s.threads[i].stack[0], s.threads[i].stack[1];
      var s' := Exec(s, i, pick).value;
      && FrameGood(s.heap, f) && f.self !in s.ops && below.self !in s.ops && f.self != below.self
      && f.self in s.heap && below.self in s.heap && s'.heap.Keys <= s.heap.Keys
      && (s'.threads[i] == Serving([below])
          || (s'.ops == s.ops && exists g :: s'.threads[i] == Serving([g, below]) && g.self == f.self))
  {
    var th := s.threads[i];
    var f, below := th.stack[0], th.stack[1];
    assert ThreadGood(s.heap, th) && Holds(th, f.self) && Holds(th, below.self);
    StatementIsLocal(s.heap, s.ops, f, pick);
    var e := Statement(s.heap, s.ops, f, pick).value;
    assert th.stack[1..] == [below];
    if e.frames == [] {
      assert e.frames + [below] == [below];
    } else {
      assert e.frames == [e.frames[0]] && e.frames + [below] == [e.frames[0], below];
    }
  }

  /** A statement of the constructor that the frame below has called. */
  lemma NestedIsLocal(s: Server, i: nat, pick: Addr)
    requires Inv(s) && i < |s.threads| && s.threads[i].Serving? && |s.threads[i].stack| == 2
    requires Exec(s, i, pick).Ok?
    ensures LocalTo(s, Exec(s, i, pick).value, i)
  {
    var th := s.threads[i];
    var f, below := th.stack[0], th.stack[1];
    assert ThreadGood(s.heap, th);
    NestedFrames(s, i, pick);
    StackHolds(th.stack);
    StackHolds(Exec(s, i, pick).value.threads[i].stack);
    StatementIsLocal(s.heap, s.ops, f, pick);
  }

  lemma ProceedKeepsInv(s: Server, i: nat, pick: Addr)
    requires Inv(s) && i < |s.threads| && s.threads[i].Serving? && s.threads[i].stack != []
    ensures Exec(s, i, pick) != Fault
    ensures Exec(s, i, pick).Ok? ==> LocalTo(s, Exec(s, i, pick).value, i)
  {
    var th := s.threads[i];
    assert ThreadGood(s.heap, th);
    assert Holds(th, th.stack[0].self);
    StatementIsLocal(s.heap, s.ops, th.stack[0], pick);
    if Exec(s, i, pick).Ok? {
      if |th.stack| == 1 { AloneIsLocal(s, i, pick); } else { NestedIsLocal(s, i, pick); }
    }
  }

  /** No statement of any thread faults, and ownership survives it. */
  lemma ExecKeepsInv(s: Server, i: nat, pick: Addr)
    requires Inv(s)
    ensures Exec(s, i, pick) != Fault
    ensures Exec(s, i, pick).Ok? ==> Inv(Exec(s, i, pick).value)
  {
    if i < |s.threads| {
      if s.threads[i].Boot? { BootKeepsInv(s, i, pick); }
      else if s.threads[i].Booting? { BootingKeepsInv(s, i, pick); }
      else if s.threads[i].stack == [] { DequeueKeepsInv(s, i, pick); }
      else { ProceedKeepsInv(s, i, pick); }
      if Exec(s, i, pick).Ok? {
        LocalKeepsInv(s, Exec(s, i, pick).value, i);
      }
    }
  }

  lemma {:induction false} RunKeepsInv(s: Server, steps: seq<Step>)
    requires Inv(s)
    ensures RunAll(s, steps) != Fault
    ensures RunAll(s, steps).Ok? ==> Inv(RunAll(s, steps).value)
    decreases |steps|
  {
    if steps != [] {
      match steps[0] {
        case Run(i, pick) => ExecKeepsInv(s, i, pick);
        case _ => EnvironmentKeepsInv(s, steps[0]);
      }
      if Next(s, steps[0]).Ok? { RunKeepsInv(Next(s, steps[0]).value, steps[1..]); }
    }
  }

  /**
   Memory safety: with any number of threads, any interleaving and any reuse of addresses no
   statement touches a freed object, nothing is freed twice, no tag is outstanding twice, and the
   assertion before `delete` holds.
   */
  lemma NeverFaults(threads: nat, steps: seq<Step>)
    ensures RunAll(Init(threads), steps) != Fault
  {
    InitInv(threads);
    RunKeepsInv(Init(threads), steps);
  }

  /** The object whose fields the step reads or writes. */
  function Touched(s: Server, step: Step): Option<Addr> {
    match step
    case Run(i, pick) =>
      if i >= |s.threads| then None else
      (match s.threads[i]
       case Boot => None
       case Booting(f) => Some(f.self)
       case Serving(stack) => if stack == [] then None else Some(stack[0].self))
    case Arrive(tag, _, _) => Some(tag)
    case Depart(tag) => Some(tag)
  }

  /**
   Exclusive access: a thread touches only live objects that it alone holds and whose tag is not
   published; the runtime touches only live objects that no thread holds. So nothing is touched
   between its publication and the delivery of its tag, `status_` included.
   */
  lemma AccessIsExclusive(threads: nat, steps: seq<Step>, s: Server, step: Step, a: Addr)
    requires RunAll(Init(threads), steps) == Ok(s) && Next(s, step).Ok? && Touched(s, step) == Some(a)
    ensures a in s.heap
    ensures step.Run? ==>
      && a !in s.ops && Holds(s.threads[step.thread], a)
      && forall j :: 0 <= j < |s.threads| && j != step.thread ==> !Holds(s.threads[j], a)
    ensures !step.Run? ==> a in s.ops && forall j :: 0 <= j < |s.threads| ==> !Holds(s.threads[j], a)
  {
    InitInv(threads);
    RunKeepsInv(Init(threads), steps);
    if step.Run? {
      var th := s.threads[step.thread];
      assert th.Serving? ==> Holds(th, th.stack[0].self);
      assert Holds(th, a);
    }
  }

  /** A tag that is delivered belongs to a live object, in the state its event is for. */
  lemma DeliveredTagIsLive(threads: nat, steps: seq<Step>, s: Server, i: nat, tag: Addr)
    requires RunAll(Init(threads), steps) == Ok(s)
    requires i < |s.threads| && s.threads[i] == Serving([]) && Exec(s, i, tag).Ok?
    ensures tag in s.heap && s.heap[tag].status == if s.ops[tag].Matched? then PROCESS else FINISH
  {
    InitInv(threads);
    RunKeepsInv(Init(threads), steps);
  }
}
