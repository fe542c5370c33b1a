/**
 Conservation in the greeter server: how many objects accept calls, how many are alive, and
 how many completion events have been used, in every reachable state.
 */
module GreeterCounts {
  import opened Options
  import opened GreeterServer

  type Heap = map<Addr, CallData>

  /** Objects that wait for a call, or got one that no thread has picked up. */
  function Accepting(ops: map<Addr, Op>): set<Addr> {
    set a | a in ops && TakesCalls(ops[a])
  }

  /** Objects whose reply the runtime has. */
  function Replying(ops: map<Addr, Op>): set<Addr> {
    set a | a in ops && !TakesCalls(ops[a])
  }

  // ---------- What one thread adds to each count ----------

  function IsServing(heap: Heap, th: Thread): nat {
    if th.Serving? then 1 else 0
  }

  function StatusOf(heap: Heap, a: Addr): Status {
    if a in heap then heap[a].status else CREATE
  }

  /** A call in this thread's hands whose object has not been replaced through the `new` of line 101. */
  function Unreplaced(heap: Heap, th: Thread): nat {
    if !th.Serving? || th.stack == [] then 0
    else if |th.stack| == 2 then 1
    else
      var f := th.stack[0];
      if f.line == SPAWN || (f.line == TEST && StatusOf(heap, f.self) == PROCESS) then 1 else 0
  }

  /** A call in this thread's hands that has been replaced and not deleted. */
  function Replaced(heap: Heap, th: Thread): nat {
    if th.Serving? && |th.stack| == 1 then 1 - Unreplaced(heap, th) else 0
  }

  /** An object whose constructor this thread is in. */
  function UnderConstruction(heap: Heap, th: Thread): nat {
    if th.Booting? || (th.Serving? && |th.stack| == 2) then 1 else 0
  }

  /** Completion events used up so far by the object in this thread's hands. */
  function EventsUsed(heap: Heap, th: Thread): nat {
    if !th.Serving? || th.stack == [] then 0
    else if |th.stack| == 2 then 1
    else
      var f := th.stack[0];
      if f.line == DELETE || (f.line == TEST && StatusOf(heap, f.self) == FINISH) then 2 else 1
  }

  function Each(heap: Heap, threads: seq<Thread>, w: (Heap, Thread) -> nat): (ws: seq<nat>)
    ensures |ws| == |threads| && forall i :: 0 <= i < |threads| ==> ws[i] == w(heap, threads[i])
  {
    seq(|threads|, i requires 0 <= i < |threads| => w(heap, threads[i]))
  }

  function Total(s: Server, w: (Heap, Thread) -> nat): nat {
    Sum(Each(s.heap, s.threads, w))
  }

  ghost predicate Counts(s: Server) {
    && |Accepting(s.ops)| + Total(s, Unreplaced) == Total(s, IsServing)
    && |s.heap| == |s.ops| + Total(s, Unreplaced) + Total(s, Replaced) + Total(s, UnderConstruction)
    && s.dequeued == 2 * s.deleted + |Replying(s.ops)| + Total(s, EventsUsed)
  }

  /** Only thread `i` and objects that no other thread holds have changed. */
  ghost predicate OnlyThread(s: Server, s': Server, i: nat) {
    && i < |s.threads| == |s'.threads|
    && s'.threads == s.threads[i := s'.threads[i]]
    && forall j, a :: 0 <= j < |s.threads| && j != i && Holds(s.threads[j], a) ==>
         StatusOf(s'.heap, a) == StatusOf(s.heap, a)
  }

  /** A thread weighs the same where the objects it holds have the same status. */
  lemma SameWeights(heap: Heap, heap': Heap, th: Thread)
    requires forall a :: Holds(th, a) ==> StatusOf(heap', a) == StatusOf(heap, a)
    ensures Unreplaced(heap', th) == Unreplaced(heap, th) && Replaced(heap', th) == Replaced(heap, th)
    ensures EventsUsed(heap', th) == EventsUsed(heap, th)
  {
    if th.Serving? && th.stack != [] { assert Holds(th, th.stack[0].self); }
  }

  lemma Shift(s: Server, s': Server, i: nat)
    requires OnlyThread(s, s', i)
    ensures Total(s', IsServing) + IsServing(s.heap, s.threads[i])
         == Total(s, IsServing) + IsServing(s'.heap, s'.threads[i])
    ensures Total(s', Unreplaced) + Unreplaced(s.heap, s.threads[i])
         == Total(s, Unreplaced) + Unreplaced(s'.heap, s'.threads[i])
    ensures Total(s', Replaced) + Replaced(s.heap, s.threads[i])
         == Total(s, Replaced) + Replaced(s'.heap, s'.threads[i])
    ensures Total(s', UnderConstruction) + UnderConstruction(s.heap, s.threads[i])
         == Total(s, UnderConstruction) + UnderConstruction(s'.heap, s'.threads[i])
    ensures Total(s', EventsUsed) + EventsUsed(s.heap, s.threads[i])
         == Total(s, EventsUsed) + EventsUsed(s'.heap, s'.threads[i])
  {
    forall j | 0 <= j < |s.threads| && j != i
      ensures Unreplaced(s'.heap, s.threads[j]) == Unreplaced(s.heap, s.threads[j])
      ensures Replaced(s'.heap, s.threads[j]) == Replaced(s.heap, s.threads[j])
      ensures EventsUsed(s'.heap, s.threads[j]) == EventsUsed(s.heap, s.threads[j])
    {
      SameWeights(s.heap, s'.heap, s.threads[j]);
    }
    ShiftOne(s, s', i, IsServing);
    ShiftOne(s, s', i, Unreplaced);
    ShiftOne(s, s', i, Replaced);
    ShiftOne(s, s', i, UnderConstruction);
    ShiftOne(s, s', i, EventsUsed);
  }

  lemma ShiftOne(s: Server, s': Server, i: nat, w: (Heap, Thread) -> nat)
    requires OnlyThread(s, s', i)
    requires forall j :: 0 <= j < |s.threads| && j != i ==> w(s'.heap, s.threads[j]) == w(s.heap, s.threads[j])
    ensures Total(s', w) + w(s.heap, s.threads[i]) == Total(s, w) + w(s'.heap, s'.threads[i])
  {
    var ws := Each(s.heap, s.threads, w);
    assert Each(s'.heap, s'.threads, w) == ws[i := w(s'.heap, s'.threads[i])];
    SumUpdate(ws, i, w(s'.heap, s'.threads[i]));
  }

  // ---------- Sizes of the runtime's sets ----------

  predicate TakesCalls(op: Op) {
    op.Waiting? || op.Matched?
  }

  lemma OpAdded(ops: map<Addr, Op>, a: Addr, op: Op)
    requires a !in ops
    ensures |ops[a := op]| == |ops| + 1
    ensures |Accepting(ops[a := op])| == |Accepting(ops)| + if TakesCalls(op) then 1 else 0
    ensures |Replying(ops[a := op])| == |Replying(ops)| + if TakesCalls(op) then 0 else 1
  {
    var ops' := ops[a := op];
    assert ops'.Keys == ops.Keys + {a};
    SetGrows(Accepting(ops), Accepting(ops'), a, TakesCalls(op));
    SetGrows(Replying(ops), Replying(ops'), a, !TakesCalls(op));
  }

  lemma SetGrows(before: set<Addr>, after: set<Addr>, a: Addr, grows: bool)
    requires a !in before && (a in after <==> grows)
    requires forall b :: b != a ==> (b in after <==> b in before)
    ensures |after| == |before| + if grows then 1 else 0
  {
    assert after == if grows then before + {a} else before;
  }

  lemma OpRemoved(ops: map<Addr, Op>, a: Addr)
    requires a in ops
    ensures |ops - {a}| + 1 == |ops|
    ensures |Accepting(ops - {a})| + (if TakesCalls(ops[a]) then 1 else 0) == |Accepting(ops)|
    ensures |Replying(ops - {a})| + (if TakesCalls(ops[a]) then 0 else 1) == |Replying(ops)|
  {
    assert (ops - {a})[a := ops[a]] == ops;
    OpAdded(ops - {a}, a, ops[a]);
  }

  lemma HeapAdded(heap: Heap, a: Addr, o: CallData)
    ensures |heap[a := o]| == |heap| + if a in heap then 0 else 1
  {
    assert heap[a := o].Keys == heap.Keys + {a};
  }

  lemma HeapRemoved(heap: Heap, a: Addr)
    requires a in heap
    ensures |heap - {a}| + 1 == |heap|
  {
    assert (heap - {a}).Keys == heap.Keys - {a};
  }

  // ---------- Every step keeps the counts ----------

  lemma SameTotal(s: Server, s': Server, w: (Heap, Thread) -> nat)
    requires s'.threads == s.threads
    requires forall j :: 0 <= j < |s.threads| ==> w(s'.heap, s.threads[j]) == w(s.heap, s.threads[j])
    ensures Total(s', w) == Total(s, w)
  {
    assert Each(s'.heap, s'.threads, w) == Each(s.heap, s.threads, w);
  }

  lemma EnvironmentTotals(s: Server, step: Step)
    requires Inv(s) && !step.Run? && Next(s, step).Ok?
    ensures var s' := Next(s, step).value;
      && Total(s', IsServing) == Total(s, IsServing) && Total(s', Unreplaced) == Total(s, Unreplaced)
      && Total(s', Replaced) == Total(s, Replaced) && Total(s', UnderConstruction) == Total(s, UnderConstruction)
      && Total(s', EventsUsed) == Total(s, EventsUsed)
  {
    var s' := Next(s, step).value;
    assert forall a :: StatusOf(s'.heap, a) == StatusOf(s.heap, a);
    SameTotal(s, s', IsServing);
    SameTotal(s, s', Unreplaced);
    SameTotal(s, s', Replaced);
    SameTotal(s, s', UnderConstruction);
    SameTotal(s, s', EventsUsed);
  }

  lemma EnvironmentKeepsCounts(s: Server, step: Step)
    requires Inv(s) && Counts(s) && !step.Run? && Next(s, step).Ok?
    ensures Counts(Next(s, step).value)
  {
    EnvironmentTotals(s, step);
    EnvironmentSizes(s, step);
  }

  lemma EnvironmentSizes(s: Server, step: Step)
    requires Inv(s) && !step.Run? && Next(s, step).Ok?
    ensures var s' := Next(s, step).value;
      && |s'.heap| == |s.heap| && |s'.ops| == |s.ops|
      && |Accepting(s'.ops)| == |Accepting(s.ops)| && |Replying(s'.ops)| == |Replying(s.ops)|
  {
    var s' := Next(s, step).value;
    OpRemoved(s.ops, step.tag);
    assert s'.ops == (s.ops - {step.tag})[step.tag := s'.ops[step.tag]];
    OpAdded(s.ops - {step.tag}, step.tag, s'.ops[step.tag]);
    if step.Arrive? { HeapAdded(s.heap, step.tag, s'.heap[step.tag]); }
  }

  /** How a statement changes the size of the heap. */
  lemma StatementHeapSize(heap: Heap, ops: map<Addr, Op>, f: Frame, pick: Addr)
    requires FrameGood(heap, f) && Statement(heap, ops, f, pick).Ok?
    ensures var e := Statement(heap, ops, f, pick).value;
      |e.heap| + (if f.line == DELETE then 1 else 0) == |heap| + (if f.line == SPAWN then 1 else 0)
  {
    var e := Statement(heap, ops, f, pick).value;
    if f.line == SPAWN { HeapAdded(heap, pick, NEW); }
    else if f.line == DELETE { HeapRemoved(heap, f.self); }
    else if e.heap != heap { HeapAdded(heap, f.self, e.heap[f.self]); }
  }

  /** How a statement changes the sizes of the runtime's sets. */
  lemma StatementOpSizes(heap: Heap, ops: map<Addr, Op>, f: Frame, pick: Addr)
    requires FrameGood(heap, f) && f.self !in ops && Statement(heap, ops, f, pick).Ok?
    ensures var ops' := Statement(heap, ops, f, pick).value.ops;
      && |ops'| == |ops| + (if f.line == REQUEST || f.line == REPLY then 1 else 0)
      && |Accepting(ops')| == |Accepting(ops)| + (if f.line == REQUEST then 1 else 0)
      && |Replying(ops')| == |Replying(ops)| + (if f.line == REPLY then 1 else 0)
  {
    var ops' := Statement(heap, ops, f, pick).value.ops;
    if f.line == REQUEST || f.line == REPLY {
      OpAdded(ops, f.self, ops'[f.self]);
    } else {
      assert ops' == ops;
    }
  }

  lemma LocalIsOnlyThread(s: Server, s': Server, i: nat)
    requires Inv(s) && i < |s.threads| == |s'.threads| && LocalTo(s, s', i)
    ensures OnlyThread(s, s', i)
  {
    forall j, a | 0 <= j < |s.threads| && j != i && Holds(s.threads[j], a)
      ensures StatusOf(s'.heap, a) == StatusOf(s.heap, a)
    {
      assert a in s.heap && !Holds(s.threads[i], a);
    }
  }

  lemma FirstObjectKeepsCounts(s: Server, i: nat, pick: Addr)
    requires Inv(s) && Counts(s) && i < |s.threads| && s.threads[i].Boot? && Exec(s, i, pick).Ok?
    ensures Counts(Exec(s, i, pick).value)
  {
    var s' := Exec(s, i, pick).value;
    assert OnlyThread(s, s', i) by {
      BootKeepsInv(s, i, pick);
      LocalIsOnlyThread(s, s', i);
    }
    Shift(s, s', i);
    HeapAdded(s.heap, pick, NEW);
  }

  lemma BootingKeepsCounts(s: Server, i: nat, pick: Addr)
    requires Inv(s) && Counts(s) && i < |s.threads| && s.threads[i].Booting? && Exec(s, i, pick).Ok?
    ensures Counts(Exec(s, i, pick).value)
  {
    var s', f := Exec(s, i, pick).value, s.threads[i].frame;
    assert OnlyThread(s, s', i) by {
      BootingKeepsInv(s, i, pick);
      LocalIsOnlyThread(s, s', i);
    }
    Shift(s, s', i);
    assert FrameGood(s.heap, f) && Constructing(s.heap, f) && f.self !in s.ops by {
      assert ThreadGood(s.heap, s.threads[i]);
      assert Holds(s.threads[i], f.self);
    }
    StatementHeapSize(s.heap, s.ops, f, pick);
    StatementOpSizes(s.heap, s.ops, f, pick);
    BootingLine(s.heap, s.ops, f, pick);
  }

  /** A constructor ends with its request and spawns and deletes nothing. */
  lemma BootingLine(heap: Heap, ops: map<Addr, Op>, f: Frame, pick: Addr)
    requires FrameGood(heap, f) && Constructing(heap, f) && Statement(heap, ops, f, pick).Ok?
    ensures f.line != SPAWN && f.line != DELETE && f.line != REPLY
    ensures Statement(heap, ops, f, pick).value.frames == [] <==> f.line == REQUEST
  {}

  lemma BootKeepsCounts(s: Server, i: nat, pick: Addr)
    requires Inv(s) && Counts(s) && i < |s.threads| && (s.threads[i].Boot? || s.threads[i].Booting?)
    requires Exec(s, i, pick).Ok?
    ensures Counts(Exec(s, i, pick).value)
  {
    if s.threads[i].Boot? { FirstObjectKeepsCounts(s, i, pick); } else { BootingKeepsCounts(s, i, pick); }
  }

  lemma DequeueKeepsCounts(s: Server, i: nat, pick: Addr)
    requires Inv(s) && Counts(s) && i < |s.threads| && s.threads[i] == Serving([]) && Exec(s, i, pick).Ok?
    ensures Counts(Exec(s, i, pick).value)
  {
    var s' := Exec(s, i, pick).value;
    assert OnlyThread(s, s', i) by {
      DequeueKeepsInv(s, i, pick);
      LocalIsOnlyThread(s, s', i);
    }
    Shift(s, s', i);
    OpRemoved(s.ops, pick);
    assert s'.threads[i] == Serving([Frame(TEST, pick)]) && s'.heap == s.heap && s'.ops == s.ops - {pick};
    assert OpGood(s.heap[pick], s.ops[pick]);
    TakenShares(s.heap, pick);
  }

  /** What a thread has on its hands once it has taken a tag. */
  lemma TakenShares(heap: Heap, tag: Addr)
    requires StatusOf(heap, tag) != CREATE
    ensures var th := Thread.Serving([Frame(TEST, tag)]);
      && Unreplaced(heap, th) == (if StatusOf(heap, tag) == FINISH then 0 else 1)
      && Replaced(heap, th) == (if StatusOf(heap, tag) == FINISH then 1 else 0)
      && EventsUsed(heap, th) == (if StatusOf(heap, tag) == FINISH then 2 else 1)
      && UnderConstruction(heap, th) == 0
  {}

  /** What a statement of `Proceed` does to the thread's share of each count. */
  ghost predicate Shares(heap: Heap, th: Thread, heap': Heap, th': Thread, line: Line)
    requires th.Serving?
  {
    var spawned := if line == SPAWN then 1 else 0;
    var nested := if |th.stack| == 2 && line == REQUEST then 1 else 0;
    && th'.Serving?
    && Unreplaced(heap', th') + nested == Unreplaced(heap, th)
    && UnderConstruction(heap', th') + nested == UnderConstruction(heap, th) + spawned
    && Replaced(heap', th') + (if line == REPLY || line == DELETE then 1 else 0) == Replaced(heap, th) + nested
    && EventsUsed(heap', th') + (if line == REPLY then 1 else if line == DELETE then 2 else 0) == EventsUsed(heap, th)
    && (line == REQUEST ==> nested == 1)
  }

  lemma AloneShares(heap: Heap, ops: map<Addr, Op>, f: Frame, pick: Addr)
    requires FrameGood(heap, f) && !Constructing(heap, f) && Statement(heap, ops, f, pick).Ok?
    ensures var e := Statement(heap, ops, f, pick).value;
      Shares(heap, Thread.Serving([f]), e.heap, Thread.Serving(e.frames), f.line)
  {
  }

  lemma NestedShares(heap: Heap, ops: map<Addr, Op>, f: Frame, below: Frame, pick: Addr)
    requires FrameGood(heap, f) && Constructing(heap, f) && Statement(heap, ops, f, pick).Ok?
    requires below.line == SET_REPLY
    ensures var e := Statement(heap, ops, f, pick).value;
      Shares(heap, Thread.Serving([f, below]), e.heap, Thread.Serving(e.frames + [below]), f.line)
  {
  }

  lemma ProceedShares(s: Server, i: nat, pick: Addr)
    requires i < |s.threads| && s.threads[i].Serving? && s.threads[i].stack != [] && ThreadGood(s.heap, s.threads[i])
    requires Exec(s, i, pick).Ok?
    ensures var s' := Exec(s, i, pick).value;
      Shares(s.heap, s.threads[i], s'.heap, s'.threads[i], s.threads[i].stack[0].line)
  {
    var stack := s.threads[i].stack;
    var e := Statement(s.heap, s.ops, stack[0], pick).value;
    if |stack| == 1 {
      assert stack == [stack[0]] && e.frames + stack[1..] == e.frames;
      AloneShares(s.heap, s.ops, stack[0], pick);
    } else {
      assert stack == [stack[0], stack[1]] && stack[1..] == [stack[1]];
      NestedShares(s.heap, s.ops, stack[0], stack[1], pick);
    }
  }

  lemma ProceedKeepsCounts(s: Server, i: nat, pick: Addr)
    requires Inv(s) && Counts(s) && i < |s.threads| && s.threads[i].Serving? && s.threads[i].stack != []
    requires Exec(s, i, pick).Ok?
    ensures Counts(Exec(s, i, pick).value)
  {
    var s' := Exec(s, i, pick).value;
    var f := s.threads[i].stack[0];
    assert OnlyThread(s, s', i) by {
      ProceedKeepsInv(s, i, pick);
      LocalIsOnlyThread(s, s', i);
    }
    Shift(s, s', i);
    assert ThreadGood(s.heap, s.threads[i]);
    ProceedShares(s, i, pick);
    assert FrameGood(s.heap, f) && f.self !in s.ops by {
      assert ThreadGood(s.heap, s.threads[i]);
      assert Holds(s.threads[i], f.self);
    }
    StatementHeapSize(s.heap, s.ops, f, pick);
    StatementOpSizes(s.heap, s.ops, f, pick);
  }

  lemma ExecKeepsCounts(s: Server, i: nat, pick: Addr)
    requires Inv(s) && Counts(s) && Exec(s, i, pick).Ok?
    ensures Counts(Exec(s, i, pick).value)
  {
    if !s.threads[i].Serving? { BootKeepsCounts(s, i, pick); }
    else if s.threads[i].stack == [] { DequeueKeepsCounts(s, i, pick); }
    else { ProceedKeepsCounts(s, i, pick); }
  }

  lemma StepKeepsCounts(s: Server, step: Step)
    requires Inv(s) && Counts(s) && Next(s, step).Ok?
    ensures Counts(Next(s, step).value)
  {
    if step.Run? { ExecKeepsCounts(s, step.thread, step.pick); } else { EnvironmentKeepsCounts(s, step); }
  }

  lemma {:induction false} RunKeepsCounts(s: Server, steps: seq<Step>)
    requires Inv(s) && Counts(s) && RunAll(s, steps).Ok?
    ensures Inv(RunAll(s, steps).value) && Counts(RunAll(s, steps).value)
    decreases |steps|
  {
    if steps != [] {
      var s' := Next(s, steps[0]).value;
      if steps[0].Run? {
        ExecKeepsInv(s, steps[0].thread, steps[0].pick);
      } else {
        EnvironmentKeepsInv(s, steps[0]);
      }
      StepKeepsCounts(s, steps[0]);
      RunKeepsCounts(s', steps[1..]);
    }
  }

  lemma InitCounts(n: nat)
    ensures Inv(Init(n)) && Counts(Init(n))
  {
    var s := Init(n);
    InitInv(n);
    SumOfZeros(Each(s.heap, s.threads, IsServing));
    SumOfZeros(Each(s.heap, s.threads, Unreplaced));
    SumOfZeros(Each(s.heap, s.threads, Replaced));
    SumOfZeros(Each(s.heap, s.threads, UnderConstruction));
    SumOfZeros(Each(s.heap, s.threads, EventsUsed));
  }

  /**
   Acceptor conservation. Objects waiting for a call, plus those matched and not yet replaced,
   are as many as the threads past their first `new`; the live objects are those threads, plus
   the replaced calls that are not yet deleted, plus the objects under construction.
   */
  lemma AcceptorConservation(n: nat, steps: seq<Step>, s: Server)
    requires RunAll(Init(n), steps) == Ok(s)
    ensures |Accepting(s.ops)| + Total(s, Unreplaced) == Total(s, IsServing)
    ensures |s.heap| == Total(s, IsServing) + |Replying(s.ops)| + Total(s, Replaced) + Total(s, UnderConstruction)
  {
    InitCounts(n);
    RunKeepsCounts(Init(n), steps);
    assert s.ops.Keys == Accepting(s.ops) + Replying(s.ops);
    assert |s.ops| == |s.ops.Keys|;
  }

  /** Nothing is going on but waiting for calls. */
  predicate Drained(s: Server) {
    && (forall i :: 0 <= i < |s.threads| ==> s.threads[i] == Serving([]))
    && forall a :: a in s.ops ==> s.ops[a].Waiting?
  }

  /** Once drained, k answered calls have used exactly 2k completion events and left one object per thread. */
  lemma DrainedServer(n: nat, steps: seq<Step>, s: Server)
    requires RunAll(Init(n), steps) == Ok(s) && Drained(s)
    ensures s.dequeued == 2 * s.deleted && |s.heap| == |s.threads|
  {
    InitCounts(n);
    RunKeepsCounts(Init(n), steps);
    SumOfZeros(Each(s.heap, s.threads, EventsUsed));
    SumOfZeros(Each(s.heap, s.threads, Unreplaced));
    SumOfZeros(Each(s.heap, s.threads, Replaced));
    SumOfZeros(Each(s.heap, s.threads, UnderConstruction));
    assert Replying(s.ops) == {};
    AcceptorConservation(n, steps, s);
    SumOfOnes(Each(s.heap, s.threads, IsServing));
  }
}
