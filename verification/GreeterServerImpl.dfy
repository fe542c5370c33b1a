/**
 The server's own code, in its own form: `Proceed` and the event loop of `HandleRpcs` as methods
 that change the heap and publish tags. What one thread does without interruption is a run of
 the statement machine, so everything proved about the machine holds of it.
 */
module GreeterServerImpl {
  import opened Options
  import opened GreeterServer

  /** What a whole `Proceed` on the object at `a` does; a new object would be put at `pick`. */
  function WholeProceed(
    heap: map<Addr, CallData>, ops: map<Addr, Op>, a: Addr, pick: Addr): (map<Addr, CallData>, map<Addr, Op>)
    requires a in heap
  {
    var o := heap[a];
    match o.status
    case CREATE => (heap[a := o.(status := PROCESS)], ops[a := Waiting])
    case PROCESS =>
      var reply := "Hello " + o.name;
      ( heap[pick := NEW.(status := PROCESS)][a := o.(reply := reply, status := FINISH)],
        ops[pick := Waiting][a := Sending(if o.rpc.Some? then o.rpc.value else 0, reply)] )
    case FINISH => (heap - {a}, ops)
  }

  class ServerImpl {
    var heap: map<Addr, CallData>
    var ops: map<Addr, Op>
    var dequeued: nat
    var deleted: nat

    /** The server as the machine sees it while its one thread is between two events. */
    function View(): Server
      reads this
    {
      Server(heap, ops, [Serving([])], dequeued, deleted)
    }

    /** `new CallData`: allocate, then run the serving logic right away. */
    method NewCallData(pick: Addr)
      requires pick !in heap && pick !in ops
      modifies `heap, `ops
      ensures heap == old(heap)[pick := NEW.(status := PROCESS)]
      ensures ops == old(ops)[pick := Waiting]
    {
      heap := heap[pick := NEW];
      Create(pick);
    }

    /** The first branch of `Proceed`. */
    method Create(a: Addr)
      requires a in heap && heap[a].status == CREATE && a !in ops
      modifies `heap, `ops
      ensures (heap, ops) == WholeProceed(old(heap), old(ops), a, a)
    {
      heap := heap[a := heap[a].(status := PROCESS)];
      ops := ops[a := Waiting];
    }

    method Proceed(a: Addr, pick: Addr)
      requires a in heap && a !in ops && (heap[a].status != CREATE ==> heap[a].rpc.Some?)
      requires pick !in heap && pick !in ops
      modifies `heap, `ops, `deleted
      ensures (heap, ops) == WholeProceed(old(heap), old(ops), a, pick)
      ensures deleted == old(deleted) + if old(heap)[a].status == FINISH then 1 else 0
    {
      if heap[a].status == CREATE {
        Create(a);
      } else if heap[a].status == PROCESS {
        NewCallData(pick);
        var prefix := "Hello ";
        heap := heap[a := heap[a].(reply := prefix + heap[a].name)];
        heap := heap[a := heap[a].(status := FINISH)];
        ops := ops[a := Sending(heap[a].rpc.value, heap[a].reply)];
        assert heap == WholeProceed(old(heap), old(ops), a, pick).0;
      } else {
        assert heap[a].status == FINISH;
        heap := heap - {a};
        deleted := deleted + 1;
      }
    }

    /** One turn of the loop. A delivery that is not possible is one `Next` is still blocked on. */
    method TakeEvent(tag: Addr, room: Addr)
      requires Inv(View())
      modifies this
      ensures View() == Turn(old(View()), Run(tag, room))
    {
      if InQueue(ops, tag) && room !in heap {
        assert OpGood(heap[tag], ops[tag]);
        ops := ops - {tag};
        dequeued := dequeued + 1;
        Proceed(tag, room);
      }
    }

    /** The runtime's own steps. */
    method RuntimeStep(step: Step)
      requires !step.Run?
      modifies this
      ensures View() == Turn(old(View()), step)
    {
      var result := Next(View(), step);
      if result.Ok? {
        heap, ops := result.value.heap, result.value.ops;
      }
    }

    /**
     `HandleRpcs`, over a script of what the runtime does: its own steps, and the tags it delivers
     with the address the allocator would give meanwhile. It is a run of the machine's statements.
     */
    method HandleRpcs(first: Addr, script: seq<Step>) returns (ghost steps: seq<Step>)
      requires heap == map[] && ops == map[] && dequeued == 0 && deleted == 0
      modifies this
      ensures View() == Turns(WithFirst(first), script)
      ensures RunAll(Init(1), steps) == Ok(View()) && Inv(View())
    {
      NewCallData(first);
      steps := FirstObject(first);
      assert View() == WithFirst(first);
      InitInv(1);
      RunKeepsInv(Init(1), steps);
      for n := 0 to |script|
        invariant RunAll(Init(1), steps) == Ok(View()) && Inv(View())
        invariant Turns(View(), script[n..]) == Turns(WithFirst(first), script)
      {
        ghost var rest := TurnIsARun(View(), script[n]);
        if script[n].Run? {
          TakeEvent(script[n].thread, script[n].pick);
        } else {
          RuntimeStep(script[n]);
        }
        RunAppend(Init(1), steps, rest);
        steps := steps + rest;
        InitInv(1);
        RunKeepsInv(Init(1), steps);
        assert script[n..][1..] == script[n + 1..];
      }
    }
  }

  /**
   What one turn does to the server of a single thread. In a script `Run(tag, room)` is the delivery
   of `tag` while the allocator would give `room`.
   */
  function Turn(s: Server, step: Step): Server {
    if step.Run? then
      var tag, room := step.thread, step.pick;
      if InQueue(s.ops, tag) && room !in s.heap && tag in s.heap then
        var (heap, ops) := WholeProceed(s.heap, s.ops - {tag}, tag, room);
        Server(heap, ops, s.threads, s.dequeued + 1, s.deleted + if s.heap[tag].status == FINISH then 1 else 0)
      else s
    else
      var result := Next(s, step);
      if result.Ok? then result.value else s
  }

  function Turns(s: Server, script: seq<Step>): Server
    decreases |script|
  {
    if script == [] then s else Turns(Turn(s, script[0]), script[1..])
  }

  /** Each turn is a run of the machine. */
  lemma TurnIsARun(s: Server, step: Step) returns (rest: seq<Step>)
    requires Inv(s) && s.threads == [Serving([])]
    ensures RunAll(s, rest) == Ok(Turn(s, step))
  {
    rest := [];
    if step.Run? {
      var tag, room := step.thread, step.pick;
      if InQueue(s.ops, tag) && room !in s.heap {
        assert OpGood(s.heap[tag], s.ops[tag]);
        rest := ProceedIsARun(s, tag, room);
      }
    } else if Next(s, step).Ok? {
      rest := [step];
      assert RunAll(Next(s, step).value, rest[1..]) == Ok(Next(s, step).value);
    }
  }

  // ---------- Uninterrupted code is a run of statements ----------

  lemma {:induction false} RunAppend(s: Server, steps: seq<Step>, more: seq<Step>)
    requires RunAll(s, steps).Ok?
    ensures RunAll(s, steps + more) == RunAll(RunAll(s, steps).value, more)
    decreases |steps|
  {
    if steps == [] {
      assert steps + more == more;
    } else {
      assert (steps + more)[1..] == steps[1..] + more;
      RunAppend(Next(s, steps[0]).value, steps[1..], more);
    }
  }

  /** The server after its only thread, with frame `f` on top of `below`, has run one statement. */
  function After(u: Server, f: Frame, below: seq<Frame>, pick: Addr): Server
    requires Statement(u.heap, u.ops, f, pick).Ok?
  {
    var e := Statement(u.heap, u.ops, f, pick).value;
    Server(e.heap, e.ops, [Serving(e.frames + below)], u.dequeued, u.deleted + if f.line == DELETE then 1 else 0)
  }

  lemma Then(s: Server, steps: seq<Step>, u: Server, f: Frame, below: seq<Frame>, pick: Addr)
      returns (longer: seq<Step>)
    requires RunAll(s, steps) == Ok(u) && u.threads == [Serving([f] + below)] && Statement(u.heap, u.ops, f, pick).Ok?
    ensures RunAll(s, longer) == Ok(After(u, f, below, pick))
  {
    longer := steps + [Run(0, pick)];
    RunAppend(s, steps, [Run(0, pick)]);
    var t := After(u, f, below, pick);
    assert ([f] + below)[1..] == below;
    assert u.threads[0 := Serving(t.threads[0].stack)] == t.threads;
    assert Exec(u, 0, pick) == Ok(t);
    assert RunAll(t, [Run(0, pick)][1..]) == Ok(t);
  }

  function WithFirst(first: Addr): Server {
    Server(map[first := NEW.(status := PROCESS)], map[first := Waiting], [Serving([])], 0, 0)
  }

  lemma FirstObject(first: Addr) returns (steps: seq<Step>)
    ensures RunAll(Init(1), steps) == Ok(WithFirst(first))
  {
    var s0 := Init(1);
    var s1 := Server(map[first := NEW], map[], [Booting(Frame(TEST, first))], 0, 0);
    var s2 := Server(map[first := NEW], map[], [Booting(Frame(SET_PROCESS, first))], 0, 0);
    var made := map[first := NEW.(status := PROCESS)];
    var s3 := Server(made, map[], [Booting(Frame(REQUEST, first))], 0, 0);
    var run := Run(0, first);
    assert s0.threads[0 := s1.threads[0]] == s1.threads && s0.heap[first := NEW] == s1.heap;
    assert Next(s0, run) == Ok(s1);
    assert s1.threads[0 := s2.threads[0]] == s2.threads;
    assert Next(s1, run) == Ok(s2);
    assert s2.threads[0 := s3.threads[0]] == s3.threads && s2.heap[first := NEW.(status := PROCESS)] == made;
    assert Next(s2, run) == Ok(s3);
    assert s3.threads[0 := Serving([])] == WithFirst(first).threads;
    assert Next(s3, run) == Ok(WithFirst(first));
    steps := [run] + ([run] + ([run] + ([run] + [])));
    assert steps[1..] == [run] + ([run] + ([run] + []));
    assert ([run] + ([run] + ([run] + [])))[1..] == [run] + ([run] + []);
    assert ([run] + ([run] + []))[1..] == [run] + [];
    assert RunAll(WithFirst(first), []) == Ok(WithFirst(first));
    assert RunAll(s3, [run] + []) == Ok(WithFirst(first));
    assert RunAll(s2, [run] + ([run] + [])) == Ok(WithFirst(first));
    assert RunAll(s1, [run] + ([run] + ([run] + []))) == Ok(WithFirst(first));
  }

  /** Delivering a tag and running `Proceed` to its end. */
  lemma ProceedIsARun(s: Server, tag: Addr, room: Addr) returns (steps: seq<Step>)
    requires s.threads == [Serving([])] && InQueue(s.ops, tag) && room !in s.heap && room !in s.ops
    requires tag in s.heap && OpGood(s.heap[tag], s.ops[tag])
    ensures var (heap, ops) := WholeProceed(s.heap, s.ops - {tag}, tag, room);
      RunAll(s, steps) == Ok(Server(heap, ops, [Serving([])], s.dequeued + 1,
                                    s.deleted + if s.heap[tag].status == FINISH then 1 else 0))
  {
    var s1 := Server(s.heap, s.ops - {tag}, [Serving([Frame(TEST, tag)] + [])], s.dequeued + 1, s.deleted);
    steps := [Run(0, tag)];
    assert [Frame(TEST, tag)] + [] == [Frame(TEST, tag)];
    assert s.threads[0 := Serving([Frame(TEST, tag)])] == s1.threads;
    assert Exec(s, 0, tag) == Ok(s1);
    assert RunAll(s1, steps[1..]) == Ok(s1);
    steps := Then(s, steps, s1, Frame(TEST, tag), [], room);
    var s2 := After(s1, Frame(TEST, tag), [], room);
    if s.heap[tag].status == FINISH {
      steps := Then(s, steps, s2, Frame(DELETE, tag), [], room);
      assert After(s2, Frame(DELETE, tag), [], room).threads[0].stack == [];
    } else {
      var s6;
      steps, s6 := SpawnIsARun(s, steps, s2, tag, room);
      steps := ReplyIsARun(s, steps, s6, tag);
      assert s6.heap[tag] == s.heap[tag];
    }
  }

  /** From the `new` of the replacement until its constructor returns. */
  lemma SpawnIsARun(s: Server, before: seq<Step>, u: Server, tag: Addr, room: Addr)
      returns (steps: seq<Step>, w: Server)
    requires RunAll(s, before) == Ok(u) && u.threads == [Serving([Frame(SPAWN, tag)] + [])]
    requires tag in u.heap && room !in u.heap && room !in u.ops
    ensures RunAll(s, steps) == Ok(w)
    ensures w == u.(heap := u.heap[room := NEW.(status := PROCESS)], ops := u.ops[room := Waiting],
                    threads := [Serving([Frame(SET_REPLY, tag)] + [])])
  {
    var below := [Frame(SET_REPLY, tag)];
    steps := Then(s, before, u, Frame(SPAWN, tag), [], room);
    var u1 := After(u, Frame(SPAWN, tag), [], room);
    assert u1.threads[0].stack == [Frame(TEST, room)] + below;
    steps := Then(s, steps, u1, Frame(TEST, room), below, room);
    var u2 := After(u1, Frame(TEST, room), below, room);
    steps := Then(s, steps, u2, Frame(SET_PROCESS, room), below, room);
    var u3 := After(u2, Frame(SET_PROCESS, room), below, room);
    steps := Then(s, steps, u3, Frame(REQUEST, room), below, room);
    w := After(u3, Frame(REQUEST, room), below, room);
    assert w.threads[0].stack == [Frame(SET_REPLY, tag)] + [];
    assert w.heap == u.heap[room := NEW.(status := PROCESS)];
  }

  /** The reply is written. */
  lemma ReplySet(u: Server, tag: Addr)
    requires u.threads == [Serving([Frame(SET_REPLY, tag)] + [])] && tag in u.heap
    ensures Statement(u.heap, u.ops, Frame(SET_REPLY, tag), tag).Ok?
    ensures var o := u.heap[tag];
      After(u, Frame(SET_REPLY, tag), [], tag)
        == u.(heap := u.heap[tag := o.(reply := "Hello " + o.name)],
              threads := [Serving([Frame(SET_FINISH, tag)] + [])])
  {}

  /** The status becomes FINISH. */
  lemma FinishSet(u: Server, tag: Addr)
    requires u.threads == [Serving([Frame(SET_FINISH, tag)] + [])] && tag in u.heap
    ensures Statement(u.heap, u.ops, Frame(SET_FINISH, tag), tag).Ok?
    ensures After(u, Frame(SET_FINISH, tag), [], tag)
      == u.(heap := u.heap[tag := u.heap[tag].(status := FINISH)], threads := [Serving([Frame(REPLY, tag)] + [])])
  {}

  /** The tag is published. */
  lemma ReplyPublished(u: Server, tag: Addr)
    requires u.threads == [Serving([Frame(REPLY, tag)] + [])]
    requires tag in u.heap && u.heap[tag].rpc.Some? && tag !in u.ops
    ensures Statement(u.heap, u.ops, Frame(REPLY, tag), tag).Ok?
    ensures var o := u.heap[tag];
      After(u, Frame(REPLY, tag), [], tag)
        == u.(ops := u.ops[tag := Sending(o.rpc.value, o.reply)], threads := [Serving([])])
  {
    var none: seq<Frame> := [];
    assert none + [] == none;
  }

  /** From the reply being written until it is handed to the runtime. */
  lemma ReplyIsARun(s: Server, before: seq<Step>, u: Server, tag: Addr) returns (steps: seq<Step>)
    requires RunAll(s, before) == Ok(u) && u.threads == [Serving([Frame(SET_REPLY, tag)] + [])]
    requires tag in u.heap && u.heap[tag].rpc.Some? && tag !in u.ops
    ensures var reply := "Hello " + u.heap[tag].name;
      RunAll(s, steps) == Ok(u.(
        heap := u.heap[tag := u.heap[tag].(reply := reply, status := FINISH)],
        ops := u.ops[tag := Sending(u.heap[tag].rpc.value, reply)],
        threads := [Serving([])]))
  {
    var o := u.heap[tag];
    ReplySet(u, tag);
    steps := Then(s, before, u, Frame(SET_REPLY, tag), [], tag);
    var u1 := After(u, Frame(SET_REPLY, tag), [], tag);
    FinishSet(u1, tag);
    steps := Then(s, steps, u1, Frame(SET_FINISH, tag), [], tag);
    var u2 := After(u1, Frame(SET_FINISH, tag), [], tag);
    ReplyPublished(u2, tag);
    steps := Then(s, steps, u2, Frame(REPLY, tag), [], tag);
    assert u2.heap == u.heap[tag := o.(reply := "Hello " + o.name, status := FINISH)];
  }
}
