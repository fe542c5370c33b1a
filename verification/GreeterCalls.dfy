/**
 The asynchronous client and the asynchronous server together, statement by statement, under
 any interleaving of the sender, the reader, the server threads, the network and both runtimes.
 Calls may also break, in which case the client learns a status that is not OK; the server may still
 get such a call.
 */
module GreeterCalls {
  import opened Options
  import opened GreeterServer
  import opened GreeterCounts

  /** Where a call is between the two programs. */
  datatype Net = Prepared | OnWire | AtServer | Replied(message: string) | Broken

  /**
   One call. The last four fields are its history: whether a server object got it, the address of
   the call object it was prepared for, the output line it was printed on, and how often its call
   object has been freed. No statement reads them.
   */
  datatype Rpc = Rpc(name: string, net: Net, arrived: bool, holder: Addr, line: Option<nat>, frees: nat)

  /** The client's call object; `rpc` is the call its context and reader belong to. */
  datatype Call = Call(rpc: Option<nat>, reply: string, ok: Option<bool>)

  /** What the client's runtime holds under a tag; `Ready` sits in its completion queue. */
  datatype Expectation = Expected(rpc: nat) | Ready(rpc: nat)

  /** The statements of `SayHello`, each about to run. */
  datatype Sender = Idle | Prepare(self: Addr, name: string) | StartCall(self: Addr) | Finish(self: Addr)

  /** The statements of `AsyncCompleteRpc`, each about to run. */
  datatype Reader = AwaitTag | Print(self: Addr) | Delete(self: Addr)

  datatype Line = Line(rpc: nat, text: string)

  datatype World = World(
    server: Server,
    rpcs: seq<Rpc>,
    calls: map<Addr, Call>,
    expected: map<Addr, Expectation>,
    sender: Sender,
    reader: Reader,
    output: seq<Line>)

  function Start(threads: nat): World {
    World(Init(threads), [], map[], map[], Idle, AwaitTag, [])
  }

  datatype Event =
    | Send(name: string, pick: Addr)     // the sender's next statement
    | Serve(thread: nat, pick: Addr)     // a server thread's next statement
    | Reach(tag: Addr, rpc: nat)         // the server's runtime gives a waiting object this call
    | Flushed(tag: Addr)                 // the reply leaves the server
    | Break(rpc: nat)                    // the call fails on the way
    | Learn(tag: Addr)                   // the client's runtime fills in reply and status
    | Receive(pick: Addr)                // the reader's next statement

  function SendNext(w: World, name: string, pick: Addr): Result<World> {
    match w.sender
    case Idle =>
      if pick in w.calls then Stuck
      else Ok(w.(calls := w.calls[pick := Call(None, "", None)], sender := Prepare(pick, name)))
    case Prepare(a, user) =>
      if a !in w.calls then Fault
      else Ok(w.(calls := w.calls[a := w.calls[a].(rpc := Some(|w.rpcs|))],
                 rpcs := w.rpcs + [Rpc(user, Prepared, false, a, None, 0)], sender := StartCall(a)))
    case StartCall(a) =>
      if a !in w.calls || w.calls[a].rpc.None? || w.calls[a].rpc.value >= |w.rpcs| then Fault
      else
        var r := w.calls[a].rpc.value;
        Ok(w.(rpcs := w.rpcs[r := w.rpcs[r].(net := OnWire)], sender := Finish(a)))
    case Finish(a) =>
      if a !in w.calls || w.calls[a].rpc.None? || a in w.expected then Fault
      else Ok(w.(expected := w.expected[a := Expected(w.calls[a].rpc.value)], sender := Idle))
  }

  function ReceiveNext(w: World, pick: Addr): Result<World> {
    match w.reader
    case AwaitTag =>
      if pick !in w.expected || !w.expected[pick].Ready? then Stuck
      else Ok(w.(expected := w.expected - {pick}, reader := Print(pick)))
    case Print(a) =>
      if a !in w.calls || w.calls[a].rpc.None? || w.calls[a].ok.None? || w.calls[a].rpc.value >= |w.rpcs| then Fault
      else
        var c := w.calls[a];
        var text := if c.ok.value then "Greeter received: " + c.reply else "RPC failed";
        Ok(w.(output := w.output + [Line(c.rpc.value, text)], reader := Delete(a),
              rpcs := w.rpcs[c.rpc.value := w.rpcs[c.rpc.value].(line := Some(|w.output|))]))
    case Delete(a) =>
      if a !in w.calls || w.calls[a].rpc.None? || w.calls[a].rpc.value >= |w.rpcs| then Fault
      else
        var r := w.calls[a].rpc.value;
        Ok(w.(calls := w.calls - {a}, reader := AwaitTag,
              rpcs := w.rpcs[r := w.rpcs[r].(frees := w.rpcs[r].frees + 1)]))
  }

  function LearnNext(w: World, tag: Addr): Result<World> {
    if tag !in w.expected || !w.expected[tag].Expected? then Stuck else
    var r := w.expected[tag].rpc;
    if tag !in w.calls || r >= |w.rpcs| then Fault else
    match w.rpcs[r].net
    case Replied(m) =>
      Ok(w.(calls := w.calls[tag := w.calls[tag].(reply := m, ok := Some(true))],
            expected := w.expected[tag := Ready(r)]))
    case Broken =>
      Ok(w.(calls := w.calls[tag := w.calls[tag].(ok := Some(false))], expected := w.expected[tag := Ready(r)]))
    case _ => Stuck
  }

  function BreakNext(w: World, r: nat): Result<World> {
    if r < |w.rpcs| && (w.rpcs[r].net.OnWire? || w.rpcs[r].net.AtServer?)
    then Ok(w.(rpcs := w.rpcs[r := w.rpcs[r].(net := Broken)])) else Stuck
  }

  /** The call is on its way to the server, whether or not the client still waits for it. */
  predicate Reaching(rpc: Rpc) {
    rpc.net.OnWire? || (rpc.net.Broken? && !rpc.arrived)
  }

  function ReachNext(w: World, tag: Addr, r: nat): Result<World> {
    if r >= |w.rpcs| || !Reaching(w.rpcs[r]) then Stuck else
    match Match(w.server, tag, r, w.rpcs[r].name)
    case Stuck => Stuck
    case Fault => Fault
    case Ok(server) =>
      var net := if w.rpcs[r].net.OnWire? then AtServer else Broken;
      Ok(w.(server := server, rpcs := w.rpcs[r := w.rpcs[r].(net := net, arrived := true)]))
  }

  function FlushNext(w: World, tag: Addr): Result<World> {
    match Flush(w.server, tag)
    case Stuck => Stuck
    case Fault => Fault
    case Ok(server) =>
      var Sending(r, m) := w.server.ops[tag];
      if r >= |w.rpcs| then Fault
      else if w.rpcs[r].net.AtServer?
      then Ok(w.(server := server, rpcs := w.rpcs[r := w.rpcs[r].(net := Replied(m))]))
      else Ok(w.(server := server))
  }

  function Advance(w: World, ev: Event): Result<World> {
    match ev
    case Send(name, pick) => SendNext(w, name, pick)
    case Receive(pick) => ReceiveNext(w, pick)
    case Learn(tag) => LearnNext(w, tag)
    case Break(r) => BreakNext(w, r)
    case Reach(tag, r) => ReachNext(w, tag, r)
    case Flushed(tag) => FlushNext(w, tag)
    case Serve(i, pick) =>
      match Exec(w.server, i, pick)
      case Stuck => Stuck
      case Fault => Fault
      case Ok(server) => Ok(w.(server := server))
  }

  function AdvanceAll(w: World, evs: seq<Event>): Result<World>
    decreases |evs|
  {
    if evs == [] then Ok(w) else
    match Advance(w, evs[0])
    case Ok(w') => AdvanceAll(w', evs[1..])
    case Stuck => Stuck
    case Fault => Fault
  }

  // ---------- The server side of the calls ----------

  /** Every bound server object serves one call, its own, under that call's name. */
  ghost predicate Bound(heap: Heap, rpcs: seq<Rpc>) {
    && (forall a :: a in heap && heap[a].rpc.Some? ==>
          var r := heap[a].rpc.value;
          r < |rpcs| && heap[a].name == rpcs[r].name && rpcs[r].arrived)
    && (forall a, b :: a in heap && b in heap && a != b && heap[a].rpc.Some? ==> heap[a].rpc != heap[b].rpc)
  }

  predicate RpcGood(r: Rpc) {
    match r.net
    case Prepared => !r.arrived
    case OnWire => !r.arrived
    case AtServer => r.arrived
    case Replied(m) => r.arrived && m == "Hello " + r.name
    case Broken => true
  }

  function Serving(heap: Heap): set<Addr> {
    set a | a in heap && heap[a].rpc.Some?
  }

  function Arrivals(rpcs: seq<Rpc>): seq<nat> {
    seq(|rpcs|, i requires 0 <= i < |rpcs| => if rpcs[i].arrived then 1 else 0)
  }

  ghost predicate Linked(w: World) {
    && Bound(w.server.heap, w.rpcs)
    && (forall r :: 0 <= r < |w.rpcs| ==> RpcGood(w.rpcs[r]))
    && Sum(Arrivals(w.rpcs)) == w.server.deleted + |Serving(w.server.heap)|
  }

  ghost predicate ServerSide(w: World) {
    Inv(w.server) && Linked(w)
  }

  // ---------- The client side of the calls ----------

  predicate Final(net: Net) { net.Replied? || net.Broken? }

  function TextFor(r: Rpc): string {
    if r.net.Replied? then "Greeter received: " + ("Hello " + r.name) else "RPC failed"
  }

  /** The call object's reply and status are those of its call. */
  predicate Settled(w: World, c: Call) {
    && c.rpc.Some? && c.rpc.value < |w.rpcs| && c.ok.Some?
    && var net := w.rpcs[c.rpc.value].net;
       if c.ok.value then net == Replied(c.reply) else net.Broken?
  }

  /** Every call object has one owner: the sender, the runtime under its tag, or the reader. */
  ghost predicate Owners(w: World) {
    && (forall a :: a in w.expected ==> a in w.calls)
    && (!w.sender.Idle? ==> w.sender.self in w.calls && w.sender.self !in w.expected)
    && (!w.reader.AwaitTag? ==> w.reader.self in w.calls && w.reader.self !in w.expected)
    && (!w.sender.Idle? && !w.reader.AwaitTag? ==> w.sender.self != w.reader.self)
    && (forall a :: a in w.calls && a !in w.expected ==>
          (!w.sender.Idle? && w.sender.self == a) || (!w.reader.AwaitTag? && w.reader.self == a))
  }

  /** The object at `a` and its call point at each other. */
  predicate CallGood(w: World, a: Addr, c: Call) {
    c.rpc.Some? ==>
      var r := c.rpc.value;
      && r < |w.rpcs| && w.rpcs[r].holder == a && w.rpcs[r].frees == 0
      && (w.rpcs[r].line.Some? <==> w.reader == Delete(a))
  }

  ghost predicate CallStates(w: World)
    requires Owners(w)
  {
    && (forall a :: a in w.calls ==> CallGood(w, a, w.calls[a]))
    && (w.sender.Prepare? ==> w.calls[w.sender.self].rpc.None?)
    && (w.sender.StartCall? || w.sender.Finish? ==> w.calls[w.sender.self].rpc.Some?)
    && (w.sender.StartCall? ==> w.rpcs[w.calls[w.sender.self].rpc.value].net.Prepared?)
    && (!w.reader.AwaitTag? ==> Settled(w, w.calls[w.reader.self]))
    && (forall a :: a in w.expected ==>
          && w.calls[a].rpc == Some(w.expected[a].rpc)
          && (w.expected[a].Ready? ==> Settled(w, w.calls[a])))
  }

  /** A call is printed at most once, on the right line, and freed at most once, after that. */
  predicate RecordGood(w: World, r: nat)
    requires r < |w.rpcs|
  {
    var rpc := w.rpcs[r];
    && rpc.frees <= 1
    && (rpc.frees == 0 ==> rpc.holder in w.calls && w.calls[rpc.holder].rpc == Some(r))
    && (rpc.frees == 1 ==> rpc.line.Some?)
    && (rpc.line.Some? ==>
          && Final(rpc.net) && rpc.line.value < |w.output|
          && w.output[rpc.line.value] == Line(r, TextFor(rpc)))
  }

  ghost predicate Records(w: World) {
    && (forall r :: 0 <= r < |w.rpcs| ==> RecordGood(w, r))
    && (forall k :: 0 <= k < |w.output| ==>
          w.output[k].rpc < |w.rpcs| && w.rpcs[w.output[k].rpc].line == Some(k))
  }

  ghost predicate ClientSide(w: World) {
    Owners(w) && CallStates(w) && Records(w)
  }

  // ---------- Every event keeps both sides ----------

  lemma SendKeepsOwners(w: World, name: string, pick: Addr)
    requires Owners(w) && CallStates(w)
    ensures SendNext(w, name, pick) != Fault
    ensures SendNext(w, name, pick).Ok? ==> Owners(SendNext(w, name, pick).value)
  {
    if !w.sender.Idle? { assert CallGood(w, w.sender.self, w.calls[w.sender.self]); }
  }

  lemma SendKeepsCalls(w: World, name: string, pick: Addr)
    requires Owners(w) && CallStates(w) && SendNext(w, name, pick).Ok?
    ensures var w' := SendNext(w, name, pick).value;
      forall a :: a in w'.calls ==> CallGood(w', a, w'.calls[a])
  {
    var w' := SendNext(w, name, pick).value;
    forall a | a in w'.calls ensures CallGood(w', a, w'.calls[a]) {
      if a in w.calls { assert CallGood(w, a, w.calls[a]); }
    }
  }

  lemma SendKeepsSettled(w: World, name: string, pick: Addr, a: Addr)
    requires Owners(w) && CallStates(w) && SendNext(w, name, pick).Ok?
    requires a in w.calls && Settled(w, w.calls[a]) && (w.sender.Idle? || w.sender.self != a)
    ensures var w' := SendNext(w, name, pick).value;
      a in w'.calls && Settled(w', w'.calls[a])
  {
    if !w.sender.Idle? { assert CallGood(w, w.sender.self, w.calls[w.sender.self]); }
  }

  lemma SendKeepsStates(w: World, name: string, pick: Addr)
    requires Owners(w) && CallStates(w) && SendNext(w, name, pick).Ok?
    requires Owners(SendNext(w, name, pick).value)
    ensures CallStates(SendNext(w, name, pick).value)
  {
    var w' := SendNext(w, name, pick).value;
    SendKeepsCalls(w, name, pick);
    forall a | a in w'.expected && w'.expected[a].Ready? ensures Settled(w', w'.calls[a]) {
      SendKeepsSettled(w, name, pick, a);
    }
    if !w.reader.AwaitTag? { SendKeepsSettled(w, name, pick, w.reader.self); }
  }

  lemma SendKeepsRecords(w: World, name: string, pick: Addr)
    requires Owners(w) && CallStates(w) && Records(w) && SendNext(w, name, pick).Ok?
    ensures Records(SendNext(w, name, pick).value)
  {
    var w' := SendNext(w, name, pick).value;
    forall r | 0 <= r < |w'.rpcs| ensures RecordGood(w', r) {
      if r < |w.rpcs| { assert RecordGood(w, r); }
    }
  }

  lemma ReceiveKeepsOwners(w: World, pick: Addr)
    requires Owners(w) && CallStates(w)
    ensures ReceiveNext(w, pick) != Fault
    ensures ReceiveNext(w, pick).Ok? ==> Owners(ReceiveNext(w, pick).value)
  {
    if !w.reader.AwaitTag? { assert CallGood(w, w.reader.self, w.calls[w.reader.self]); }
  }

  lemma ReceiveKeepsStates(w: World, pick: Addr)
    requires Owners(w) && CallStates(w) && ReceiveNext(w, pick).Ok?
    requires Owners(ReceiveNext(w, pick).value)
    ensures CallStates(ReceiveNext(w, pick).value)
  {
    var w' := ReceiveNext(w, pick).value;
    if !w.reader.AwaitTag? { assert CallGood(w, w.reader.self, w.calls[w.reader.self]); }
    forall a | a in w'.calls ensures CallGood(w', a, w'.calls[a]) {
      assert CallGood(w, a, w.calls[a]);
    }
    forall a | a in w'.expected && w'.expected[a].Ready? ensures Settled(w', w'.calls[a]) {
      assert Settled(w, w.calls[a]);
    }
    if w.sender.StartCall? { assert CallGood(w, w.sender.self, w.calls[w.sender.self]); }
  }

  lemma PrintKeepsRecords(w: World, pick: Addr)
    requires Owners(w) && CallStates(w) && Records(w) && ReceiveNext(w, pick).Ok? && w.reader.Print?
    requires forall r :: 0 <= r < |w.rpcs| ==> RpcGood(w.rpcs[r])
    ensures Records(ReceiveNext(w, pick).value)
  {
    var w' := ReceiveNext(w, pick).value;
    assert CallGood(w, w.reader.self, w.calls[w.reader.self]);
    forall r | 0 <= r < |w'.rpcs| ensures RecordGood(w', r) {
      assert RecordGood(w, r);
      assert RpcGood(w.rpcs[r]);
    }
  }

  lemma DeleteKeepsRecords(w: World, pick: Addr)
    requires Owners(w) && CallStates(w) && Records(w) && ReceiveNext(w, pick).Ok? && !w.reader.Print?
    ensures Records(ReceiveNext(w, pick).value)
  {
    var w' := ReceiveNext(w, pick).value;
    if !w.reader.AwaitTag? { assert CallGood(w, w.reader.self, w.calls[w.reader.self]); }
    forall r | 0 <= r < |w'.rpcs| ensures RecordGood(w', r) {
      assert RecordGood(w, r);
    }
  }

  lemma ReceiveKeepsRecords(w: World, pick: Addr)
    requires Owners(w) && CallStates(w) && Records(w) && ReceiveNext(w, pick).Ok?
    requires forall r :: 0 <= r < |w.rpcs| ==> RpcGood(w.rpcs[r])
    ensures Records(ReceiveNext(w, pick).value)
  {
    if w.reader.Print? { PrintKeepsRecords(w, pick); } else { DeleteKeepsRecords(w, pick); }
  }

  lemma LearnKeepsOwners(w: World, tag: Addr)
    requires Owners(w) && CallStates(w)
    ensures LearnNext(w, tag) != Fault
    ensures LearnNext(w, tag).Ok? ==> Owners(LearnNext(w, tag).value)
  {
    if tag in w.expected { assert CallGood(w, tag, w.calls[tag]); }
  }

  lemma LearnKeepsCalls(w: World, tag: Addr)
    requires Owners(w) && CallStates(w) && LearnNext(w, tag).Ok?
    ensures var w' := LearnNext(w, tag).value;
      forall a :: a in w'.calls ==> CallGood(w', a, w'.calls[a])
  {
    var w' := LearnNext(w, tag).value;
    forall a | a in w'.calls ensures CallGood(w', a, w'.calls[a]) {
      assert CallGood(w, a, w.calls[a]);
    }
  }

  lemma LearnKeepsExpected(w: World, tag: Addr)
    requires Owners(w) && CallStates(w) && LearnNext(w, tag).Ok?
    ensures var w' := LearnNext(w, tag).value;
      forall a :: a in w'.expected ==>
        && a in w'.calls && w'.calls[a].rpc == Some(w'.expected[a].rpc)
        && (w'.expected[a].Ready? ==> Settled(w', w'.calls[a]))
  {
    var w' := LearnNext(w, tag).value;
    forall a | a in w'.expected
      ensures a in w'.calls && w'.calls[a].rpc == Some(w'.expected[a].rpc)
      ensures w'.expected[a].Ready? ==> Settled(w', w'.calls[a])
    {
      if a != tag && w.expected[a].Ready? { assert Settled(w, w.calls[a]); }
    }
  }

  lemma LearnKeepsStates(w: World, tag: Addr)
    requires Owners(w) && CallStates(w) && LearnNext(w, tag).Ok?
    requires Owners(LearnNext(w, tag).value)
    ensures CallStates(LearnNext(w, tag).value)
  {
    var w' := LearnNext(w, tag).value;
    assert tag in w.expected;
    assert w'.rpcs == w.rpcs && w'.sender == w.sender && w'.reader == w.reader;
    assert forall a :: a in w.calls && a != tag ==> w'.calls[a] == w.calls[a];
    LearnKeepsCalls(w, tag);
    LearnKeepsExpected(w, tag);
    if !w.reader.AwaitTag? { assert Settled(w, w.calls[w.reader.self]); }
  }

  lemma LearnKeepsRecords(w: World, tag: Addr)
    requires Owners(w) && Records(w) && LearnNext(w, tag).Ok?
    ensures Records(LearnNext(w, tag).value)
  {
    var w' := LearnNext(w, tag).value;
    forall r | 0 <= r < |w'.rpcs| ensures RecordGood(w', r) {
      assert RecordGood(w, r);
    }
  }

  /** The call's state on the network has moved on, and only from a state that is not final. */
  predicate NetMoved(w: World, w': World) {
    && w'.calls == w.calls && w'.expected == w.expected && w'.sender == w.sender && w'.reader == w.reader
    && w'.output == w.output && |w'.rpcs| == |w.rpcs|
    && forall r :: 0 <= r < |w.rpcs| ==>
         && w'.rpcs[r] == w.rpcs[r].(net := w'.rpcs[r].net, arrived := w'.rpcs[r].arrived)
         && (w'.rpcs[r].net != w.rpcs[r].net ==> w.rpcs[r].net.OnWire? || w.rpcs[r].net.AtServer?)
  }

  lemma NetMoveKeepsClient(w: World, w': World)
    requires ClientSide(w) && NetMoved(w, w')
    ensures ClientSide(w')
  {
    assert Owners(w');
    assert CallStates(w') by {
      forall a | a in w'.calls ensures CallGood(w', a, w'.calls[a]) { assert CallGood(w, a, w.calls[a]); }
      forall a | a in w'.expected && w'.expected[a].Ready? ensures Settled(w', w'.calls[a]) {
        assert Settled(w, w.calls[a]);
      }
      if w.sender.StartCall? { assert CallGood(w, w.sender.self, w.calls[w.sender.self]); }
    }
    forall r | 0 <= r < |w'.rpcs| ensures RecordGood(w', r) {
      assert RecordGood(w, r);
    }
  }

  // ---------- The server side ----------

  /** No object has changed its call or its name; new objects are unbound. */
  predicate SameBindings(heap: Heap, heap': Heap) {
    && (forall a :: a in heap' && a in heap ==> heap'[a].rpc == heap[a].rpc && heap'[a].name == heap[a].name)
    && (forall a :: a in heap' && a !in heap ==> heap'[a].rpc.None?)
  }

  lemma StatementKeepsServing(heap: Heap, ops: map<Addr, Op>, f: Frame, pick: Addr)
    requires FrameGood(heap, f) && Statement(heap, ops, f, pick).Ok?
    ensures var heap' := Statement(heap, ops, f, pick).value.heap;
      Serving(heap) == Serving(heap') + if f.line == GreeterServer.DELETE then {f.self} else {}
  {
  }

  lemma StatementKeepsBindings(heap: Heap, ops: map<Addr, Op>, f: Frame, pick: Addr)
    requires FrameGood(heap, f) && Statement(heap, ops, f, pick).Ok?
    ensures var heap' := Statement(heap, ops, f, pick).value.heap;
      && SameBindings(heap, heap')
      && |Serving(heap')| + (if f.line == GreeterServer.DELETE then 1 else 0) == |Serving(heap)|
  {
    StatementKeepsServing(heap, ops, f, pick);
  }

  lemma BoundStable(heap: Heap, heap': Heap, rpcs: seq<Rpc>)
    requires Bound(heap, rpcs) && SameBindings(heap, heap')
    ensures Bound(heap', rpcs)
  {
    forall a, b | a in heap' && b in heap' && a != b && heap'[a].rpc.Some? ensures heap'[a].rpc != heap'[b].rpc {
      assert a in heap && heap[a].rpc == heap'[a].rpc;
      if b in heap { assert heap[b].rpc == heap'[b].rpc; }
    }
  }

  lemma ExecKeepsBindings(s: Server, i: nat, pick: Addr)
    requires Exec(s, i, pick).Ok? && ThreadGood(s.heap, s.threads[i])
    ensures var s' := Exec(s, i, pick).value;
      SameBindings(s.heap, s'.heap) && s'.deleted + |Serving(s'.heap)| == s.deleted + |Serving(s.heap)|
  {
    var s' := Exec(s, i, pick).value;
    match s.threads[i]
    case Boot => assert Serving(s'.heap) == Serving(s.heap);
    case Booting(f) => StatementKeepsBindings(s.heap, s.ops, f, pick);
    case Serving(stack) => if stack != [] { StatementKeepsBindings(s.heap, s.ops, stack[0], pick); }
  }

  lemma ExecKeepsLinks(w: World, i: nat, pick: Addr)
    requires Linked(w) && Exec(w.server, i, pick).Ok? && ThreadGood(w.server.heap, w.server.threads[i])
    ensures Linked(w.(server := Exec(w.server, i, pick).value))
  {
    ExecKeepsBindings(w.server, i, pick);
    BoundStable(w.server.heap, Exec(w.server, i, pick).value.heap, w.rpcs);
  }

  lemma ServeKeeps(w: World, i: nat, pick: Addr)
    requires ServerSide(w)
    ensures Exec(w.server, i, pick) != Fault
    ensures Exec(w.server, i, pick).Ok? ==> ServerSide(w.(server := Exec(w.server, i, pick).value))
  {
    ExecKeepsInv(w.server, i, pick);
    if Exec(w.server, i, pick).Ok? { ExecKeepsLinks(w, i, pick); }
  }

  /** Binding one unbound object to a call that has not arrived before. */
  lemma BindOne(heap: Heap, rpcs: seq<Rpc>, a: Addr, r: nat, o: CallData, rpc: Rpc)
    requires Bound(heap, rpcs) && a in heap && heap[a].rpc.None? && r < |rpcs| && !rpcs[r].arrived
    requires o.rpc == Some(r) && o.name == rpc.name == rpcs[r].name && rpc.arrived
    ensures Bound(heap[a := o], rpcs[r := rpc])
  {
    var heap', rpcs' := heap[a := o], rpcs[r := rpc];
    forall b | b in heap' && heap'[b].rpc.Some?
      ensures heap'[b].rpc.value < |rpcs'| && heap'[b].name == rpcs'[heap'[b].rpc.value].name
      ensures rpcs'[heap'[b].rpc.value].arrived
      ensures b != a ==> heap'[b].rpc != Some(r)
    {
      if b != a { assert heap[b].rpc.Some?; }
    }
  }

  lemma ReachKeepsLinks(w: World, tag: Addr, r: nat)
    requires Linked(w) && ReachNext(w, tag, r).Ok? && w.server.heap[tag].rpc.None?
    ensures Linked(ReachNext(w, tag, r).value) && NetMoved(w, ReachNext(w, tag, r).value)
  {
    var w' := ReachNext(w, tag, r).value;
    assert RpcGood(w.rpcs[r]);
    BindOne(w.server.heap, w.rpcs, tag, r, w'.server.heap[tag], w'.rpcs[r]);
    ReachCounts(w.server.heap, w.rpcs, tag, r, w'.server.heap[tag], w'.rpcs[r]);
  }

  lemma ReachCounts(heap: Heap, rpcs: seq<Rpc>, tag: Addr, r: nat, o: CallData, rpc: Rpc)
    requires tag in heap && heap[tag].rpc.None? && o.rpc.Some? && r < |rpcs| && !rpcs[r].arrived && rpc.arrived
    ensures |Serving(heap[tag := o])| == |Serving(heap)| + 1
    ensures Sum(Arrivals(rpcs[r := rpc])) == Sum(Arrivals(rpcs)) + 1
  {
    assert Serving(heap[tag := o]) == Serving(heap) + {tag};
    assert Arrivals(rpcs[r := rpc]) == Arrivals(rpcs)[r := 1];
    SumUpdate(Arrivals(rpcs), r, 1);
  }

  lemma ReachKeeps(w: World, tag: Addr, r: nat)
    requires ServerSide(w)
    ensures ReachNext(w, tag, r) != Fault
    ensures ReachNext(w, tag, r).Ok? ==>
      ServerSide(ReachNext(w, tag, r).value) && NetMoved(w, ReachNext(w, tag, r).value)
  {
    if r < |w.rpcs| && Reaching(w.rpcs[r]) {
      EnvironmentKeepsInv(w.server, Arrive(tag, r, w.rpcs[r].name));
      if ReachNext(w, tag, r).Ok? {
        assert OpGood(w.server.heap[tag], w.server.ops[tag]);
        ReachKeepsLinks(w, tag, r);
      }
    }
  }

  lemma FlushKeepsLinks(w: World, tag: Addr)
    requires Linked(w) && Flush(w.server, tag).Ok? && OpGood(w.server.heap[tag], w.server.ops[tag])
    ensures FlushNext(w, tag).Ok? && Linked(FlushNext(w, tag).value) && NetMoved(w, FlushNext(w, tag).value)
  {
    var w' := FlushNext(w, tag).value;
    var r := w.server.ops[tag].rpc;
    assert RpcGood(w.rpcs[r]);
    SameCallsKeepLinks(w, w');
  }

  /** The server's objects are what they were; calls kept their names and whether they had arrived. */
  lemma SameCallsKeepLinks(w: World, w': World)
    requires Linked(w) && w'.server.heap == w.server.heap && w'.server.deleted == w.server.deleted
    requires |w'.rpcs| == |w.rpcs|
    requires forall r :: 0 <= r < |w.rpcs| ==>
      w'.rpcs[r].name == w.rpcs[r].name && w'.rpcs[r].arrived == w.rpcs[r].arrived && RpcGood(w'.rpcs[r])
    ensures Linked(w')
  {
    assert Arrivals(w'.rpcs) == Arrivals(w.rpcs);
  }

  lemma FlushKeeps(w: World, tag: Addr)
    requires ServerSide(w)
    ensures FlushNext(w, tag) != Fault
    ensures FlushNext(w, tag).Ok? ==> ServerSide(FlushNext(w, tag).value) && NetMoved(w, FlushNext(w, tag).value)
  {
    EnvironmentKeepsInv(w.server, Depart(tag));
    if Flush(w.server, tag).Ok? { FlushKeepsLinks(w, tag); }
  }

  lemma BreakKeeps(w: World, r: nat)
    requires Linked(w) && BreakNext(w, r).Ok?
    ensures Linked(BreakNext(w, r).value) && NetMoved(w, BreakNext(w, r).value)
  {
    assert Arrivals(BreakNext(w, r).value.rpcs) == Arrivals(w.rpcs);
  }

  /** Calls were only started, printed or freed; at most one new call, which has not arrived anywhere. */
  predicate ClientMoved(rpcs: seq<Rpc>, rpcs': seq<Rpc>) {
    && |rpcs| <= |rpcs'| <= |rpcs| + 1
    && (forall r :: 0 <= r < |rpcs| ==>
          && rpcs'[r].name == rpcs[r].name && rpcs'[r].arrived == rpcs[r].arrived
          && (rpcs'[r].net == rpcs[r].net || (rpcs[r].net.Prepared? && rpcs'[r].net.OnWire?)))
    && (|rpcs'| == |rpcs| + 1 ==> rpcs'[|rpcs|].net.Prepared? && !rpcs'[|rpcs|].arrived)
  }

  lemma ClientMoveKeepsLinks(w: World, w': World)
    requires Linked(w) && w'.server == w.server && ClientMoved(w.rpcs, w'.rpcs)
    ensures Linked(w')
  {
    forall r | 0 <= r < |w'.rpcs| ensures RpcGood(w'.rpcs[r]) {
      if r < |w.rpcs| { assert RpcGood(w.rpcs[r]); }
    }
    if |w'.rpcs| == |w.rpcs| {
      assert Arrivals(w'.rpcs) == Arrivals(w.rpcs);
    } else {
      assert Arrivals(w'.rpcs) == Arrivals(w.rpcs) + [0];
      SumAppend(Arrivals(w.rpcs), 0);
    }
  }

  lemma ClientStepMoves(w: World, ev: Event)
    requires (ev.Send? || ev.Receive? || ev.Learn?) && Advance(w, ev).Ok?
    requires w.sender.StartCall? ==>
      && w.sender.self in w.calls && w.calls[w.sender.self].rpc.Some?
      && w.calls[w.sender.self].rpc.value < |w.rpcs| && w.rpcs[w.calls[w.sender.self].rpc.value].net.Prepared?
    ensures Advance(w, ev).value.server == w.server && ClientMoved(w.rpcs, Advance(w, ev).value.rpcs)
  {}

  predicate OfClient(ev: Event) {
    ev.Send? || ev.Receive? || ev.Learn?
  }

  /** The client's own events keep its side. */
  lemma ClientEventKeepsClient(w: World, ev: Event)
    requires ClientSide(w) && OfClient(ev) && forall r :: 0 <= r < |w.rpcs| ==> RpcGood(w.rpcs[r])
    ensures Advance(w, ev) != Fault
    ensures Advance(w, ev).Ok? ==> ClientSide(Advance(w, ev).value)
  {
    match ev {
      case Send(name, pick) =>
        SendKeepsOwners(w, name, pick);
        if SendNext(w, name, pick).Ok? { SendKeepsStates(w, name, pick); SendKeepsRecords(w, name, pick); }
      case Receive(pick) =>
        ReceiveKeepsOwners(w, pick);
        if ReceiveNext(w, pick).Ok? { ReceiveKeepsStates(w, pick); ReceiveKeepsRecords(w, pick); }
      case Learn(tag) =>
        LearnKeepsOwners(w, tag);
        if LearnNext(w, tag).Ok? { LearnKeepsStates(w, tag); LearnKeepsRecords(w, tag); }
    }
  }

  /** The server's and the network's events keep the server's side, and move calls on at most. */
  lemma ServerEventKeepsServer(w: World, ev: Event)
    requires ServerSide(w) && !OfClient(ev)
    ensures Advance(w, ev) != Fault
    ensures Advance(w, ev).Ok? ==> ServerSide(Advance(w, ev).value) && NetMoved(w, Advance(w, ev).value)
  {
    match ev {
      case Serve(i, pick) => ServeKeeps(w, i, pick);
      case Reach(tag, r) => ReachKeeps(w, tag, r);
      case Flushed(tag) => FlushKeeps(w, tag);
      case Break(r) => if BreakNext(w, r).Ok? { BreakKeeps(w, r); }
    }
  }

  lemma ClientEventKeepsServer(w: World, ev: Event)
    requires Linked(w) && Owners(w) && CallStates(w) && OfClient(ev) && Advance(w, ev).Ok?
    ensures Linked(Advance(w, ev).value) && Advance(w, ev).value.server == w.server
  {
    if w.sender.StartCall? { assert CallGood(w, w.sender.self, w.calls[w.sender.self]); }
    ClientStepMoves(w, ev);
    ClientMoveKeepsLinks(w, Advance(w, ev).value);
  }

  lemma AdvanceKeeps(w: World, ev: Event)
    requires ServerSide(w) && ClientSide(w)
    ensures Advance(w, ev) != Fault
    ensures Advance(w, ev).Ok? ==> ServerSide(Advance(w, ev).value) && ClientSide(Advance(w, ev).value)
  {
    if OfClient(ev) {
      ClientEventKeepsClient(w, ev);
      if Advance(w, ev).Ok? { ClientEventKeepsServer(w, ev); }
    } else {
      ServerEventKeepsServer(w, ev);
      if Advance(w, ev).Ok? { NetMoveKeepsClient(w, Advance(w, ev).value); }
    }
  }

  lemma {:induction false} AdvanceAllKeeps(w: World, evs: seq<Event>)
    requires ServerSide(w) && ClientSide(w) && Counts(w.server)
    ensures AdvanceAll(w, evs) != Fault
    ensures AdvanceAll(w, evs).Ok? ==>
      var end := AdvanceAll(w, evs).value;
      ServerSide(end) && ClientSide(end) && Counts(end.server)
    decreases |evs|
  {
    if evs != [] {
      AdvanceKeeps(w, evs[0]);
      if Advance(w, evs[0]).Ok? {
        ServerStepKeepsCounts(w, evs[0]);
        AdvanceAllKeeps(Advance(w, evs[0]).value, evs[1..]);
      }
    }
  }

  /** Each event is at most one step of the server alone. */
  lemma EventIsServerStep(w: World, ev: Event) returns (step: Option<Step>)
    requires Advance(w, ev).Ok?
    ensures step.None? ==> Advance(w, ev).value.server == w.server
    ensures step.Some? ==> Next(w.server, step.value) == Ok(Advance(w, ev).value.server)
  {
    match ev
    case Serve(i, pick) => step := Some(Run(i, pick));
    case Reach(tag, r) => step := Some(Arrive(tag, r, w.rpcs[r].name));
    case Flushed(tag) => step := Some(Depart(tag));
    case _ => step := None;
  }

  lemma ServerStepKeepsCounts(w: World, ev: Event)
    requires Inv(w.server) && Counts(w.server) && Advance(w, ev).Ok?
    ensures Counts(Advance(w, ev).value.server)
  {
    var step := EventIsServerStep(w, ev);
    if step.Some? { StepKeepsCounts(w.server, step.value); }
  }

  lemma StartKeeps(threads: nat)
    ensures ServerSide(Start(threads)) && ClientSide(Start(threads)) && Counts(Start(threads).server)
  {
    InitCounts(threads);
    assert Serving(Init(threads).heap) == {};
    assert Arrivals([]) == [];
  }

  lemma Reachable(threads: nat, evs: seq<Event>)
    ensures AdvanceAll(Start(threads), evs) != Fault
    ensures AdvanceAll(Start(threads), evs).Ok? ==>
      var w := AdvanceAll(Start(threads), evs).value;
      ServerSide(w) && ClientSide(w) && Counts(w.server)
  {
    StartKeeps(threads);
    AdvanceAllKeeps(Start(threads), evs);
  }

  /** Memory safety of the two programs together: no statement ever touches a freed object. */
  lemma CallsNeverFault(threads: nat, evs: seq<Event>)
    ensures AdvanceAll(Start(threads), evs) != Fault
  {
    Reachable(threads, evs);
  }

  /**
   End to end: in every reachable state each call is on at most one line of output and its object
   has been freed at most once, after that line was printed. A call that completed with an OK status
   printed "Hello " and its own name; one that did not printed the failure.
   */
  lemma EachCallPrintsItsOwnReply(threads: nat, evs: seq<Event>, w: World, r: nat)
    requires AdvanceAll(Start(threads), evs) == Ok(w) && r < |w.rpcs|
    ensures w.rpcs[r].frees <= 1
    ensures forall j, k :: 0 <= j < |w.output| && 0 <= k < |w.output| && w.output[j].rpc == w.output[k].rpc == r ==>
      j == k
    ensures forall k :: 0 <= k < |w.output| && w.output[k].rpc == r ==>
      w.output[k].text
        == if w.rpcs[r].net.Replied? then "Greeter received: " + ("Hello " + w.rpcs[r].name) else "RPC failed"
    ensures w.rpcs[r].frees == 1 ==> exists k :: 0 <= k < |w.output| && w.output[k].rpc == r
    ensures w.calls == map[] ==> w.rpcs[r].frees == 1
  {
    Reachable(threads, evs);
    assert RecordGood(w, r);
  }

  /** Draining the server: k calls that reached it have used exactly 2k of its completion events. */
  lemma DrainedCallsUseTwoEventsEach(threads: nat, evs: seq<Event>, w: World)
    requires AdvanceAll(Start(threads), evs) == Ok(w) && Drained(w.server)
    ensures w.server.dequeued == 2 * Sum(Arrivals(w.rpcs))
    ensures (forall r :: 0 <= r < |w.rpcs| ==> w.rpcs[r].net.Replied?) ==> w.server.dequeued == 2 * |w.rpcs|
  {
    Reachable(threads, evs);
    var s := w.server;
    SumOfZeros(Each(s.heap, s.threads, EventsUsed));
    assert Replying(s.ops) == {};
    assert Serving(s.heap) == {} by {
      forall a | a in s.heap ensures s.heap[a].rpc.None? {
        assert a in s.ops || HeldBySome(s.threads, a);
        assert OpGood(s.heap[a], s.ops[a]);
      }
    }
    if forall r :: 0 <= r < |w.rpcs| ==> w.rpcs[r].net.Replied? {
      forall r | 0 <= r < |w.rpcs| ensures Arrivals(w.rpcs)[r] == 1 { assert RpcGood(w.rpcs[r]); }
      SumOfOnes(Arrivals(w.rpcs));
    }
  }
}
