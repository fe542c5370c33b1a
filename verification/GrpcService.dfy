/**
 Many gRPC streams at one server. Each has channels and buffers of its own, so they run as if they
 were alone, until a handler throws: that aborts the server, and with it every stream that has not
 succeeded.
 */
module GrpcService {
  import opened Options
  import opened Exchange
  import opened GrpcExchange

  datatype Service = Service(streams: map<nat, Stream>, dead: bool)

  const IDLE := Service(map[], false)

  datatype Event = Start(sid: nat) | Act(sid: nat, step: Step)

  /** The steps that the server takes. */
  predicate OfServer(step: Step) {
    step.ServerRead? || step.ServerHandle? || step.ServerWrite? || step.ServerReturn?
  }

  /** A stream whose server has died. */
  function Stricken(s: Stream): Stream {
    if s.client.Succeeded? then s else s.(broken := true)
  }

  function AllStricken(streams: map<nat, Stream>): map<nat, Stream> {
    map sid | sid in streams :: Stricken(streams[sid])
  }

  function Advance(setup: nat -> Setup, svc: Service, ev: Event): Option<Service> {
    match ev
    case Start(sid) =>
      if sid in svc.streams then None
      else Some(svc.(streams := svc.streams[sid := OPENED.(broken := svc.dead)]))
    case Act(sid, step) =>
      if sid !in svc.streams || (svc.dead && OfServer(step)) then None else
      var before := svc.streams[sid];
      match Next(setup(sid), before, step)
      case None => None
      case Some(after) =>
        var dies := after.server.Aborted? && !before.server.Aborted?;
        Some(Service((if dies then AllStricken(svc.streams) else svc.streams)[sid := after], svc.dead || dies))
  }

  function RunAll(setup: nat -> Setup, svc: Service, evs: seq<Event>): Option<Service>
    decreases |evs|
  {
    if evs == [] then Some(svc) else
    var next := Advance(setup, svc, evs[0]);
    if next.None? then None else RunAll(setup, next.value, evs[1..])
  }

  /** A step of one stream is invisible to every other, unless the server dies of it. */
  lemma StreamsDoNotMix(setup: nat -> Setup, svc: Service, sid: nat, step: Step, other: nat)
    requires Advance(setup, svc, Act(sid, step)).Some? && other in svc.streams
    ensures var svc' := Advance(setup, svc, Act(sid, step)).value;
      && other in svc'.streams
      && (if other == sid then Next(setup(sid), svc.streams[sid], step) == Some(svc'.streams[sid])
          else if svc'.dead == svc.dead then svc'.streams[other] == svc.streams[other]
          else svc'.streams[other] == Stricken(svc.streams[other]))
  {
  }

  ghost predicate ServiceInv(setup: nat -> Setup, svc: Service) {
    forall sid :: sid in svc.streams ==>
      && Inv(setup(sid), svc.streams[sid])
      && (svc.dead ==> svc.streams[sid].client.Succeeded? || svc.streams[sid].broken)
      && (svc.streams[sid].server.Aborted? ==> svc.dead)
  }

  lemma StrickenInv(c: Setup, s: Stream)
    requires Inv(c, s)
    ensures Inv(c, Stricken(s))
  {
    if !s.client.Succeeded? { NextKeepsInv(c, s, Break); }
  }

  lemma OpenedInv(c: Setup, dead: bool)
    ensures Inv(c, OPENED.(broken := dead))
  {}

  /** A broken stream stays broken; only its own server's abort breaks one from inside. */
  lemma BreaksStay(c: Setup, s: Stream, step: Step)
    requires Next(c, s, step).Some?
    ensures var s' := Next(c, s, step).value;
      && (s.broken ==> s'.broken)
      && (s.client.Succeeded? ==> s'.client.Succeeded?)
      && (s.broken && !s.client.Succeeded? ==> !s'.client.Succeeded?)
      && (s.server.Aborted? ==> s'.server.Aborted?)
  {
  }

  lemma AdvanceKeepsInv(setup: nat -> Setup, svc: Service, ev: Event)
    requires ServiceInv(setup, svc) && Advance(setup, svc, ev).Some?
    ensures ServiceInv(setup, Advance(setup, svc, ev).value)
  {
    var svc' := Advance(setup, svc, ev).value;
    forall sid | sid in svc'.streams
      ensures Inv(setup(sid), svc'.streams[sid])
      ensures svc'.dead ==> svc'.streams[sid].client.Succeeded? || svc'.streams[sid].broken
      ensures svc'.streams[sid].server.Aborted? ==> svc'.dead
    {
      match ev
      case Start(n) => OpenedInv(setup(sid), svc.dead);
      case Act(n, step) =>
        StreamsDoNotMix(setup, svc, n, step, sid);
        if sid == n {
          NextKeepsInv(setup(n), svc.streams[n], step);
          BreaksStay(setup(n), svc.streams[n], step);
        } else {
          StrickenInv(setup(sid), svc.streams[sid]);
        }
    }
  }

  lemma {:induction false} RunKeepsInv(setup: nat -> Setup, svc: Service, evs: seq<Event>)
    requires ServiceInv(setup, svc) && RunAll(setup, svc, evs).Some?
    ensures ServiceInv(setup, RunAll(setup, svc, evs).value)
    decreases |evs|
  {
    if evs != [] {
      AdvanceKeepsInv(setup, svc, evs[0]);
      RunKeepsInv(setup, Advance(setup, svc, evs[0]).value, evs[1..]);
    }
  }

  /**
   However many streams are served side by side and whatever fails, each that succeeds holds the reply
   to its own request, and a handler that is run on anything else is run on a prefix of its own.
   */
  lemma EveryStreamIsExact(setup: nat -> Setup, evs: seq<Event>, svc: Service, sid: nat)
    requires RunAll(setup, IDLE, evs) == Some(svc) && sid in svc.streams
    ensures var s := svc.streams[sid];
      && (s.client.Succeeded? ==>
            s.rcv == setup(sid).request && setup(sid).handler(setup(sid).request) == Some(s.reply))
      && (!s.server.Receiving? ==> s.rcv <= setup(sid).request && (s.rcv != setup(sid).request ==> s.broken))
  {
    RunKeepsInv(setup, IDLE, evs);
    var s := svc.streams[sid];
    assert Inv(setup(sid), s);
    if s.client.Succeeded? { assert s.reply + s.down == s.reply; }
  }

  // ---------- One stream may end them all ----------

  /** A client whose stream has failed never gets its reply. */
  lemma {:induction false} FailedForGood(setup: nat -> Setup, svc: Service, evs: seq<Event>, sid: nat)
    requires sid in svc.streams && svc.streams[sid].broken && !svc.streams[sid].client.Succeeded?
    requires RunAll(setup, svc, evs).Some?
    ensures var end := RunAll(setup, svc, evs).value;
      sid in end.streams && end.streams[sid].broken && !end.streams[sid].client.Succeeded?
    decreases |evs|
  {
    if evs != [] {
      if evs[0].Act? {
        StreamsDoNotMix(setup, svc, evs[0].sid, evs[0].step, sid);
        if evs[0].sid == sid { BreaksStay(setup(sid), svc.streams[sid], evs[0].step); }
      }
      FailedForGood(setup, Advance(setup, svc, evs[0]).value, evs[1..], sid);
    }
  }

  /** The server after a new stream has been dropped before anything was read, and served all the same. */
  function AfterDrop(svc: Service, n: nat): Service {
    Service(AllStricken(svc.streams)[n := OPENED.(broken := true, server := Aborted)], true)
  }

  /**
   Where the handler throws on an empty request, a stream that is opened and dropped fails every
   other client that has not had its reply, for good.
   */
  lemma DroppedStreamFailsAll(setup: nat -> Setup, evs: seq<Event>, svc: Service, n: nat)
    requires RunAll(setup, IDLE, evs) == Some(svc) && !svc.dead && n !in svc.streams && setup(n).handler([]).None?
    ensures RunAll(setup, svc, [Start(n), Act(n, Break), Act(n, ServerHandle)]) == Some(AfterDrop(svc, n))
    ensures forall sid :: sid in svc.streams && !svc.streams[sid].client.Succeeded? ==>
      && AfterDrop(svc, n).streams[sid].broken
      && forall more: seq<Event> :: RunAll(setup, AfterDrop(svc, n), more).Some? ==>
           var end := RunAll(setup, AfterDrop(svc, n), more).value;
           sid in end.streams && !end.streams[sid].client.Succeeded?
  {
    DropRun(setup, svc, n);
    var after := AfterDrop(svc, n);
    forall sid, more: seq<Event> | sid in svc.streams && !svc.streams[sid].client.Succeeded?
                                   && RunAll(setup, after, more).Some?
      ensures var end := RunAll(setup, after, more).value;
        sid in end.streams && !end.streams[sid].client.Succeeded?
    {
      assert sid != n;
      FailedForGood(setup, after, more, sid);
    }
  }

  lemma DropRun(setup: nat -> Setup, svc: Service, n: nat)
    requires !svc.dead && n !in svc.streams && setup(n).handler([]).None?
    ensures RunAll(setup, svc, [Start(n), Act(n, Break), Act(n, ServerHandle)]) == Some(AfterDrop(svc, n))
  {
    var s1 := svc.(streams := svc.streams[n := OPENED]);
    var s2 := svc.(streams := svc.streams[n := OPENED.(broken := true)]);
    var drop, handle := [Act(n, Break), Act(n, ServerHandle)], [Act(n, ServerHandle)];
    assert Advance(setup, svc, Start(n)) == Some(s1);
    assert s1.streams[n := OPENED.(broken := true)] == s2.streams;
    assert Advance(setup, s1, Act(n, Break)) == Some(s2);
    assert AllStricken(s2.streams)[n := OPENED.(broken := true, server := Aborted)] == AfterDrop(svc, n).streams;
    assert Advance(setup, s2, Act(n, ServerHandle)) == Some(AfterDrop(svc, n));
    assert RunAll(setup, AfterDrop(svc, n), handle[1..]) == Some(AfterDrop(svc, n));
    assert RunAll(setup, s2, handle) == Some(AfterDrop(svc, n));
    assert drop[1..] == handle && RunAll(setup, s1, drop) == Some(AfterDrop(svc, n));
    assert [Start(n), Act(n, Break), Act(n, ServerHandle)][1..] == drop;
  }
}
