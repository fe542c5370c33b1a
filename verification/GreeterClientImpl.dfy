/**
 The client's own code, in its own form: `SayHello` and the loop of `AsyncCompleteRpc` as methods
 that change the heap of call objects, the runtime's expectations and the output. What either
 does without interruption is a run of the statement machine of the two programs.
 */
module GreeterClientImpl {
  import opened Options
  import opened GreeterServer
  import opened GreeterCalls

  /** What a whole `SayHello` does with its call object at `pick`. */
  function WholeSayHello(w: World, user: string, pick: Addr): World {
    w.(rpcs := w.rpcs + [Rpc(user, OnWire, false, pick, None, 0)],
       calls := w.calls[pick := Call(Some(|w.rpcs|), "", None)],
       expected := w.expected[pick := Expected(|w.rpcs|)])
  }

  /** The call object under this tag is bound to a call, and its status has been filled in. */
  predicate Completed(w: World, tag: Addr) {
    && tag in w.expected && w.expected[tag].Ready?
    && tag in w.calls && Settled(w, w.calls[tag])
  }

  /** What a whole turn of the reader's loop does with the call object delivered under `tag`. */
  function WholeTurn(w: World, tag: Addr): World
    requires Completed(w, tag)
  {
    var c := w.calls[tag];
    var r := c.rpc.value;
    var text := if c.ok.value then "Greeter received: " + c.reply else "RPC failed";
    w.(rpcs := w.rpcs[r := w.rpcs[r].(line := Some(|w.output|), frees := w.rpcs[r].frees + 1)],
       calls := w.calls - {tag},
       expected := w.expected - {tag},
       output := w.output + [GreeterCalls.Line(r, text)])
  }

  /** What happens to a client: `main` says hello, the queue delivers a tag, or anybody else makes a step. */
  datatype Act = Hello(user: string, pick: Addr) | Deliver(tag: Addr) | Others(ev: Event)

  predicate Possible(w: World, act: Act) {
    match act
    case Hello(_, pick) => pick !in w.calls && pick !in w.expected
    case Deliver(tag) => Completed(w, tag)
    case Others(ev) => !ev.Send? && !ev.Receive? && Advance(w, ev).Ok?
  }

  function Perform(w: World, act: Act): World
    requires Possible(w, act)
  {
    match act
    case Hello(user, pick) => WholeSayHello(w, user, pick)
    case Deliver(tag) => WholeTurn(w, tag)
    case Others(ev) => Advance(w, ev).value
  }

  /** An act that is not possible is skipped. */
  function PerformAll(w: World, script: seq<Act>): World
    decreases |script|
  {
    if script == [] then w
    else PerformAll(if Possible(w, script[0]) then Perform(w, script[0]) else w, script[1..])
  }

  class ClientImpl {
    var server: Server          // the other program
    var rpcs: seq<Rpc>
    var calls: map<Addr, Call>
    var expected: map<Addr, Expectation>
    var output: seq<GreeterCalls.Line>

    /** The two programs as the machine sees them while both threads of the client are between calls. */
    function View(): World
      reads this
    {
      World(server, rpcs, calls, expected, Idle, AwaitTag, output)
    }

    constructor (threads: nat)
      ensures View() == Start(threads)
    {
      server := Init(threads);
      rpcs, calls, expected, output := [], map[], map[], [];
    }

    method SayHello(user: string, pick: Addr)
      requires pick !in calls && pick !in expected
      modifies `rpcs, `calls, `expected
      ensures View() == WholeSayHello(old(View()), user, pick)
      ensures var r := |old(rpcs)|;
        && |rpcs| == r + 1 && rpcs[..r] == old(rpcs)
        && rpcs[r].name == user && rpcs[r].net.OnWire?
        && calls[pick].rpc == Some(r) && expected[pick] == Expected(r)
    {
      calls := calls[pick := Call(None, "", None)];
      // PrepareAsyncSayHello
      calls := calls[pick := calls[pick].(rpc := Some(|rpcs|))];
      rpcs := rpcs + [Rpc(user, Prepared, false, pick, None, 0)];
      // StartCall
      var r := calls[pick].rpc.value;
      rpcs := rpcs[r := rpcs[r].(net := OnWire)];
      // Finish
      expected := expected[pick := Expected(r)];
    }

    /** One turn of the loop of `AsyncCompleteRpc`. */
    method TakeTag(tag: Addr)
      requires Completed(View(), tag)
      modifies `rpcs, `calls, `expected, `output
      ensures View() == WholeTurn(old(View()), tag)
    {
      expected := expected - {tag};
      var call := calls[tag];
      var r := call.rpc.value;
      var text;
      if call.ok.value {
        text := "Greeter received: " + call.reply;
      } else {
        text := "RPC failed";
      }
      rpcs := rpcs[r := rpcs[r].(line := Some(|output|))];
      output := output + [GreeterCalls.Line(r, text)];
      calls := calls - {tag};
      rpcs := rpcs[r := rpcs[r].(frees := rpcs[r].frees + 1)];
    }

    method OthersStep(ev: Event)
      requires Possible(View(), Others(ev))
      modifies this
      ensures View() == Perform(old(View()), Others(ev))
    {
      var w := Advance(View(), ev).value;
      server, rpcs, calls, expected, output := w.server, w.rpcs, w.calls, w.expected, w.output;
      OthersLeaveThreads(old(View()), ev);
    }

    /** The program over a script of what happens to it is a run of the machine. */
    method Follow(threads: nat, script: seq<Act>) returns (ghost evs: seq<Event>)
      requires View() == Start(threads)
      modifies this
      ensures View() == PerformAll(Start(threads), script)
      ensures AdvanceAll(Start(threads), evs) == Ok(View())
    {
      evs := [];
      for n := 0 to |script|
        invariant PerformAll(View(), script[n..]) == PerformAll(Start(threads), script)
        invariant AdvanceAll(Start(threads), evs) == Ok(View())
      {
        assert script[n..][0] == script[n] && script[n..][1..] == script[n + 1..];
        if Possible(View(), script[n]) {
          evs := ActIsARun(Start(threads), evs, View(), script[n]);
          match script[n] {
            case Hello(user, pick) => SayHello(user, pick);
            case Deliver(tag) => TakeTag(tag);
            case Others(ev) => OthersStep(ev);
          }
        }
      }
    }
  }

  lemma OthersLeaveThreads(w: World, ev: Event)
    requires !ev.Send? && !ev.Receive? && Advance(w, ev).Ok?
    ensures Advance(w, ev).value.sender == w.sender && Advance(w, ev).value.reader == w.reader
  {}

  lemma {:induction false} Then(w: World, evs: seq<Event>, u: World, ev: Event)
    requires AdvanceAll(w, evs) == Ok(u) && Advance(u, ev).Ok?
    ensures AdvanceAll(w, evs + [ev]) == Advance(u, ev)
    decreases |evs|
  {
    if evs == [] {
      assert evs + [ev] == [ev];
      assert AdvanceAll(Advance(u, ev).value, [ev][1..]) == Advance(u, ev);
    } else {
      assert (evs + [ev])[1..] == evs[1..] + [ev];
      Then(Advance(w, evs[0]).value, evs[1..], u, ev);
    }
  }

  lemma HelloIsARun(w: World, before: seq<Event>, u: World, user: string, pick: Addr) returns (evs: seq<Event>)
    requires AdvanceAll(w, before) == Ok(u) && u.sender.Idle? && Possible(u, Hello(user, pick))
    ensures AdvanceAll(w, evs) == Ok(WholeSayHello(u, user, pick))
  {
    var ev := Send(user, pick);
    var r := |u.rpcs|;
    var calls := u.calls[pick := Call(Some(r), "", None)];
    var u1 := u.(calls := u.calls[pick := Call(None, "", None)], sender := Prepare(pick, user));
    var prepared := u.rpcs + [Rpc(user, Prepared, false, pick, None, 0)];
    var u2 := u.(calls := calls, rpcs := prepared, sender := StartCall(pick));
    var u3 := u.(calls := calls, rpcs := u.rpcs + [Rpc(user, OnWire, false, pick, None, 0)], sender := Finish(pick));
    Then(w, before, u, ev);
    assert u1.calls[pick := Call(Some(r), "", None)] == calls;
    Then(w, before + [ev], u1, ev);
    assert u2.rpcs[r := u2.rpcs[r].(net := OnWire)] == u3.rpcs;
    Then(w, before + [ev] + [ev], u2, ev);
    Then(w, before + [ev] + [ev] + [ev], u3, ev);
    evs := before + [ev] + [ev] + [ev] + [ev];
  }

  lemma TurnIsARun(w: World, before: seq<Event>, u: World, tag: Addr) returns (evs: seq<Event>)
    requires AdvanceAll(w, before) == Ok(u) && u.reader.AwaitTag? && Completed(u, tag)
    ensures AdvanceAll(w, evs) == Ok(WholeTurn(u, tag))
  {
    var ev := Receive(tag);
    var u1 := u.(expected := u.expected - {tag}, reader := Print(tag));
    Then(w, before, u, ev);
    Then(w, before + [ev], u1, ev);
    var u2 := Advance(u1, ev).value;
    Then(w, before + [ev] + [ev], u2, ev);
    evs := before + [ev] + [ev] + [ev];
    var r := u.calls[tag].rpc.value;
    assert Advance(u2, ev).value.rpcs == WholeTurn(u, tag).rpcs;
  }

  /** Each act, done without interruption, is a run of the machine. */
  lemma ActIsARun(w: World, before: seq<Event>, u: World, act: Act) returns (evs: seq<Event>)
    requires AdvanceAll(w, before) == Ok(u) && u.sender.Idle? && u.reader.AwaitTag? && Possible(u, act)
    ensures AdvanceAll(w, evs) == Ok(Perform(u, act))
  {
    match act
    case Hello(user, pick) => evs := HelloIsARun(w, before, u, user, pick);
    case Deliver(tag) => evs := TurnIsARun(w, before, u, tag);
    case Others(ev) =>
      Then(w, before, u, ev);
      evs := before + [ev];
  }

  /**
   Nothing more is needed for a turn of the loop than that its tag is in the queue: the call object
   is live, bound and filled in, in every reachable state.
   */
  lemma QueuedTagIsCompleted(threads: nat, evs: seq<Event>, w: World, tag: Addr)
    requires AdvanceAll(Start(threads), evs) == Ok(w) && tag in w.expected && w.expected[tag].Ready?
    ensures Completed(w, tag)
  {
    Reachable(threads, evs);
  }
}
