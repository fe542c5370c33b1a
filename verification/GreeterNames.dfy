/**
 Whose call is whose: the calls there are belong, in order, to the users that the client was told to
 greet, and each line that is printed greets the user of its call.
 */
module GreeterNames {
  import opened Options
  import opened GreeterServer
  import opened GreeterCalls
  import opened GreeterClientImpl

  function Names(rpcs: seq<Rpc>): (names: seq<string>)
    ensures |names| == |rpcs| && forall r :: 0 <= r < |rpcs| ==> names[r] == rpcs[r].name
  {
    seq(|rpcs|, r requires 0 <= r < |rpcs| => rpcs[r].name)
  }

  /** The user whose call is not prepared yet. */
  function Unprepared(sender: Sender): seq<string> {
    match sender
    case Prepare(_, user) => [user]
    case _ => []
  }

  /** The users that `SayHello` is called with along a run, in order. */
  function Users(w: World, evs: seq<Event>): seq<string>
    requires AdvanceAll(w, evs).Ok?
    decreases |evs|
  {
    if evs == [] then [] else
    (if evs[0].Send? && w.sender.Idle? then [evs[0].name] else []) + Users(Advance(w, evs[0]).value, evs[1..])
  }

  lemma OtherEventsKeepNames(w: World, ev: Event)
    requires Advance(w, ev).Ok? && !ev.Send?
    ensures var w' := Advance(w, ev).value;
      Names(w'.rpcs) == Names(w.rpcs) && w'.sender == w.sender
  {}

  lemma SendKeepsNames(w: World, user: string, pick: Addr)
    requires SendNext(w, user, pick).Ok?
    ensures var w' := SendNext(w, user, pick).value;
      Names(w'.rpcs) + Unprepared(w'.sender)
        == Names(w.rpcs) + Unprepared(w.sender) + if w.sender.Idle? then [user] else []
  {
    var w' := SendNext(w, user, pick).value;
    if w.sender.Prepare? {
      assert Names(w'.rpcs) == Names(w.rpcs) + [w.sender.name];
    } else {
      assert Names(w'.rpcs) == Names(w.rpcs);
    }
  }

  /** The users of the calls there are, and of the one that is not prepared yet. */
  function Known(w: World): seq<string> {
    Names(w.rpcs) + Unprepared(w.sender)
  }

  function NewUser(w: World, ev: Event): seq<string> {
    if ev.Send? && w.sender.Idle? then [ev.name] else []
  }

  lemma EventKeepsNames(w: World, ev: Event)
    requires Advance(w, ev).Ok?
    ensures Known(Advance(w, ev).value) == Known(w) + NewUser(w, ev)
  {
    if ev.Send? { SendKeepsNames(w, ev.name, ev.pick); } else { OtherEventsKeepNames(w, ev); }
  }

  lemma Regroup(a: seq<string>, b: seq<string>, c: seq<string>)
    ensures (a + b) + c == a + (b + c)
  {}

  lemma {:induction false} NamesAreUsers(w: World, evs: seq<Event>)
    requires AdvanceAll(w, evs).Ok?
    ensures Known(AdvanceAll(w, evs).value) == Known(w) + Users(w, evs)
    decreases |evs|
  {
    if evs != [] {
      var w' := Advance(w, evs[0]).value;
      EventKeepsNames(w, evs[0]);
      NamesAreUsers(w', evs[1..]);
      Regroup(Known(w), NewUser(w, evs[0]), Users(w', evs[1..]));
    }
  }

  /** The calls are those of the users, in order; only the last user's may still have to be prepared. */
  lemma CallsAreOfUsers(threads: nat, evs: seq<Event>, w: World)
    requires AdvanceAll(Start(threads), evs) == Ok(w)
    ensures Users(Start(threads), evs) == Names(w.rpcs) + Unprepared(w.sender)
    ensures |w.rpcs| <= |Users(Start(threads), evs)| <= |w.rpcs| + 1
    ensures forall r :: 0 <= r < |w.rpcs| ==> w.rpcs[r].name == Users(Start(threads), evs)[r]
  {
    NamesAreUsers(Start(threads), evs);
    var users := Users(Start(threads), evs);
    assert Names([]) + Unprepared(Idle) + users == users;
  }

  /**
   End to end, in terms of what the client was told: the line of call r greets the r-th user, or says
   that the call failed.
   */
  lemma EachUserIsGreeted(threads: nat, evs: seq<Event>, w: World, r: nat)
    requires AdvanceAll(Start(threads), evs) == Ok(w) && r < |w.rpcs|
    ensures r < |Users(Start(threads), evs)|
    ensures forall k :: 0 <= k < |w.output| && w.output[k].rpc == r ==>
      w.output[k].text
        == if w.rpcs[r].net.Replied? then "Greeter received: " + ("Hello " + Users(Start(threads), evs)[r])
           else "RPC failed"
  {
    CallsAreOfUsers(threads, evs, w);
    EachCallPrintsItsOwnReply(threads, evs, w, r);
  }

  // ---------- The same of the client's own code ----------

  /** The users of the calls of `SayHello` that a script makes. */
  function UsersOf(w: World, script: seq<Act>): seq<string>
    decreases |script|
  {
    if script == [] then [] else
    var possible := Possible(w, script[0]);
    (if possible && script[0].Hello? then [script[0].user] else [])
      + UsersOf(if possible then Perform(w, script[0]) else w, script[1..])
  }

  lemma PerformKeepsNames(w: World, act: Act)
    requires Possible(w, act)
    ensures Names(Perform(w, act).rpcs) == Names(w.rpcs) + if act.Hello? then [act.user] else []
  {
    match act
    case Hello(_, _) =>
    case Deliver(tag) => assert Names(WholeTurn(w, tag).rpcs) == Names(w.rpcs);
    case Others(ev) => OtherEventsKeepNames(w, ev);
  }

  /** Over any script the calls are, in order, those of the users that `SayHello` was called with. */
  lemma {:induction false} ScriptedCallsAreOfUsers(w: World, script: seq<Act>)
    ensures Names(PerformAll(w, script).rpcs) == Names(w.rpcs) + UsersOf(w, script)
    decreases |script|
  {
    if script != [] {
      var w' := if Possible(w, script[0]) then Perform(w, script[0]) else w;
      if Possible(w, script[0]) { PerformKeepsNames(w, script[0]); }
      ScriptedCallsAreOfUsers(w', script[1..]);
    }
  }
}
