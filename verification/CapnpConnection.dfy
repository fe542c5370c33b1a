/**
 Many sessions over one connection. All calls of one direction share one FIFO wire, so the calls
 of different sessions are interleaved on it; only the call at its head can be handled. Each
 session still runs as if it were alone, because its buffers are its own, until the connection
 breaks or a handler that throws takes the server and with it every session.
 */
module CapnpConnection {
  import opened Options
  import opened Exchange
  import opened CapnpExchange

  type Wire = seq<(nat, CallMsg)>

  /**
   `ends` holds what the two ends keep for each session; the calls in flight are on the wires.
   `dead` says that the server has aborted.
   */
  datatype Connection = Connection(ends: map<nat, Session>, up: Wire, down: Wire, broken: bool, dead: bool)

  const IDLE := Connection(map[], [], [], false, false)

  /** The calls of session `sid` on the wire, in order. */
  function CallsFor(wire: Wire, sid: nat): seq<CallMsg> {
    if wire == [] then []
    else if wire[0].0 == sid then [wire[0].1] + CallsFor(wire[1..], sid)
    else CallsFor(wire[1..], sid)
  }

  function Tagged(sid: nat, calls: seq<CallMsg>): (wire: Wire)
    ensures |wire| == |calls| && forall i :: 0 <= i < |calls| ==> wire[i] == (sid, calls[i])
  {
    seq(|calls|, i requires 0 <= i < |calls| => (sid, calls[i]))
  }

  /** Session `sid` as a session of its own. */
  function Project(conn: Connection, sid: nat): Session
    requires sid in conn.ends
  {
    conn.ends[sid].(upCalls := CallsFor(conn.up, sid), downCalls := CallsFor(conn.down, sid))
  }

  /** The wire after a step of `sid`: its head is gone, or new calls are at its end. */
  function Moved(wire: Wire, sid: nat, before: seq<CallMsg>, after: seq<CallMsg>, handled: bool): Wire {
    if handled then (if wire == [] then [] else wire[1..])
    else if |before| <= |after| then wire + Tagged(sid, after[|before|..])
    else wire
  }

  predicate HeadIs(wire: Wire, sid: nat) {
    wire != [] && wire[0].0 == sid
  }

  /** `Cut` breaks the connection: of each wire only so many calls arrive. */
  datatype Event = Start(sid: nat) | Act(sid: nat, step: Step) | Cut(upLeft: nat, downLeft: nat)

  /** The steps that the server takes. */
  predicate OfServer(step: Step) {
    step.HandleUp? || step.ReplyChunk? || step.ReplyDone? || step.TakeAckDown? || step.TakeReplyReturn?
  }

  function AllBroken(ends: map<nat, Session>): map<nat, Session> {
    map sid | sid in ends :: ends[sid].(broken := true)
  }

  /** Session `sid` has taken `step`, from `before` to `after`. */
  function Moves(conn: Connection, sid: nat, step: Step, before: Session, after: Session): Connection {
    var dies := after.server.Aborted? && !before.server.Aborted?;
    Connection(
      (if dies then AllBroken(conn.ends) else conn.ends)[sid := after],
      Moved(conn.up, sid, before.upCalls, after.upCalls, step == HandleUp),
      Moved(conn.down, sid, before.downCalls, after.downCalls, step == HandleDown),
      conn.broken || dies, conn.dead || dies)
  }

  function Advance(setup: nat -> Setup, conn: Connection, ev: Event): Option<Connection> {
    match ev
    case Start(sid) =>
      if sid in conn.ends then None
      else Some(conn.(ends := conn.ends[sid := OPENED.(broken := conn.broken)],
                      up := if conn.broken then conn.up else conn.up + [(sid, Open)]))
    case Act(sid, step) =>
      if sid !in conn.ends || step.Break? || (conn.dead && OfServer(step)) then None
      else if step == HandleUp && !HeadIs(conn.up, sid) then None
      else if step == HandleDown && !HeadIs(conn.down, sid) then None
      else
        var before := Project(conn, sid);
        (match Next(setup(sid), before, step)
         case None => None
         case Some(after) => Some(Moves(conn, sid, step, before, after)))
    case Cut(upLeft, downLeft) =>
      if upLeft <= |conn.up| && downLeft <= |conn.down|
      then Some(conn.(ends := AllBroken(conn.ends), up := conn.up[..upLeft], down := conn.down[..downLeft],
                      broken := true))
      else None
  }

  function RunAll(setup: nat -> Setup, conn: Connection, evs: seq<Event>): Option<Connection>
    decreases |evs|
  {
    if evs == [] then Some(conn) else
    var next := Advance(setup, conn, evs[0]);
    if next.None? then None else RunAll(setup, next.value, evs[1..])
  }

  // ---------- Wires ----------

  lemma {:induction false} CallsForAppend(wire: Wire, more: Wire, sid: nat)
    ensures CallsFor(wire + more, sid) == CallsFor(wire, sid) + CallsFor(more, sid)
  {
    if wire == [] {
      assert wire + more == more;
    } else {
      var rest := CallsFor(wire[1..], sid);
      assert (wire + more)[1..] == wire[1..] + more && (wire + more)[0] == wire[0];
      CallsForAppend(wire[1..], more, sid);
      if wire[0].0 == sid {
        assert [wire[0].1] + (rest + CallsFor(more, sid)) == ([wire[0].1] + rest) + CallsFor(more, sid);
      }
    }
  }

  lemma {:induction false} CallsForTagged(sid: nat, calls: seq<CallMsg>, other: nat)
    ensures CallsFor(Tagged(sid, calls), other) == if other == sid then calls else []
  {
    if calls != [] {
      assert Tagged(sid, calls)[1..] == Tagged(sid, calls[1..]);
      CallsForTagged(sid, calls[1..], other);
      assert [calls[0]] + calls[1..] == calls;
    }
  }

  /** After a move the session sees its own new calls, and every other session what it saw before. */
  lemma MovedShows(
    wire: Wire, sid: nat, before: seq<CallMsg>, after: seq<CallMsg>, handled: bool, other: nat)
    requires before == CallsFor(wire, sid)
    requires handled ==> HeadIs(wire, sid) && after == before[1..]
    requires !handled ==> before <= after
    ensures CallsFor(Moved(wire, sid, before, after, handled), other) ==
      if other == sid then after else CallsFor(wire, other)
  {
    if !handled {
      CallsForAppend(wire, Tagged(sid, after[|before|..]), other);
      CallsForTagged(sid, after[|before|..], other);
      assert before + after[|before|..] == after;
      assert CallsFor(wire, other) + [] == CallsFor(wire, other);
    }
  }

  /** What is left of a wire shows each session the first of its calls. */
  lemma CutShows(wire: Wire, left: nat, sid: nat)
    requires left <= |wire|
    ensures CallsFor(wire[..left], sid) <= CallsFor(wire, sid)
  {
    assert wire[..left] + wire[left..] == wire;
    CallsForAppend(wire[..left], wire[left..], sid);
  }

  lemma HandlingMovesCalls(c: Setup, s: Session, step: Step)
    requires Next(c, s, step).Some? && (step.HandleUp? || step.HandleDown?)
    ensures var s' := Next(c, s, step).value;
      if step == HandleUp then s.upCalls != [] && s'.upCalls == s.upCalls[1..] && s'.downCalls == s.downCalls
      else s.downCalls != [] && s'.downCalls == s.downCalls[1..] && s'.upCalls == s.upCalls
  {
  }

  lemma OthersOnlyAdd(c: Setup, s: Session, step: Step)
    requires Next(c, s, step).Some? && !step.Break? && !step.HandleUp? && !step.HandleDown?
    ensures var s' := Next(c, s, step).value;
      s.upCalls <= s'.upCalls && s.downCalls <= s'.downCalls
  {
  }

  /** A step of a session takes the head of the stream it handles and only adds to the others. */
  lemma NextMovesCalls(c: Setup, s: Session, step: Step)
    requires Next(c, s, step).Some? && !step.Break?
    ensures var s' := Next(c, s, step).value;
      && (if step == HandleUp then s.upCalls != [] && s'.upCalls == s.upCalls[1..] else s.upCalls <= s'.upCalls)
      && (if step == HandleDown then s.downCalls != [] && s'.downCalls == s.downCalls[1..]
          else s.downCalls <= s'.downCalls)
  {
    if step.HandleUp? || step.HandleDown? { HandlingMovesCalls(c, s, step); } else { OthersOnlyAdd(c, s, step); }
  }

  /** The connection breaks under a session that loses none of its calls. */
  function Stricken(s: Session): Session {
    s.(broken := true)
  }

  /**
   Non-interference: a step of one session is a step of its projection and invisible to every other,
   unless the server dies of it, which to the others is a broken connection.
   */
  lemma SessionsDoNotMix(setup: nat -> Setup, conn: Connection, sid: nat, step: Step, other: nat)
    requires Advance(setup, conn, Act(sid, step)).Some? && other in conn.ends
    ensures var conn' := Advance(setup, conn, Act(sid, step)).value;
      && other in conn'.ends
      && (if other == sid then Next(setup(sid), Project(conn, sid), step) == Some(Project(conn', sid))
          else if conn'.dead == conn.dead then Project(conn', other) == Project(conn, other)
          else Project(conn', other) == Stricken(Project(conn, other)))
  {
    var before := Project(conn, sid);
    var after := Next(setup(sid), before, step).value;
    NextMovesCalls(setup(sid), before, step);
    MovedShows(conn.up, sid, before.upCalls, after.upCalls, step == HandleUp, other);
    MovedShows(conn.down, sid, before.downCalls, after.downCalls, step == HandleDown, other);
  }

  /** When the connection breaks, every session sees a break of its own. */
  lemma CutIsABreak(setup: nat -> Setup, conn: Connection, upLeft: nat, downLeft: nat, sid: nat)
    requires Advance(setup, conn, Cut(upLeft, downLeft)).Some? && sid in conn.ends
    ensures var conn' := Advance(setup, conn, Cut(upLeft, downLeft)).value;
      var after := Project(conn', sid);
      && sid in conn'.ends
      && Next(setup(sid), Project(conn, sid), Break(|after.upCalls|, |after.downCalls|)) == Some(after)
  {
    CutShows(conn.up, upLeft, sid);
    CutShows(conn.down, downLeft, sid);
    var up, down := CallsFor(conn.up[..upLeft], sid), CallsFor(conn.down[..downLeft], sid);
    assert CallsFor(conn.up, sid)[..|up|] == up && CallsFor(conn.down, sid)[..|down|] == down;
  }

  // ---------- Every session is exact ----------

  /** No call on the wire belongs to a session that has not started. */
  predicate WiresOwned(conn: Connection) {
    && (forall i :: 0 <= i < |conn.up| ==> conn.up[i].0 in conn.ends)
    && (forall i :: 0 <= i < |conn.down| ==> conn.down[i].0 in conn.ends)
  }

  lemma {:induction false} NoCallsFor(wire: Wire, sid: nat)
    requires forall i :: 0 <= i < |wire| ==> wire[i].0 != sid
    ensures CallsFor(wire, sid) == []
  {
    if wire != [] { NoCallsFor(wire[1..], sid); }
  }

  /** A session fails with the connection. */
  predicate SharedFate(conn: Connection) {
    && (conn.dead ==> conn.broken)
    && forall sid :: sid in conn.ends ==>
         conn.ends[sid].broken == conn.broken && (conn.ends[sid].server.Aborted? ==> conn.dead)
  }

  ghost predicate ConnInv(setup: nat -> Setup, conn: Connection) {
    WiresOwned(conn) && SharedFate(conn) && forall sid :: sid in conn.ends ==> Inv(setup(sid), Project(conn, sid))
  }

  lemma StartShows(setup: nat -> Setup, conn: Connection, n: nat, sid: nat)
    requires WiresOwned(conn) && n !in conn.ends && (sid in conn.ends || sid == n)
    ensures var conn' := Advance(setup, conn, Start(n)).value;
      Project(conn', sid) ==
        if sid != n then Project(conn, sid)
        else OPENED.(broken := conn.broken, upCalls := if conn.broken then [] else [Open])
  {
    CallsForAppend(conn.up, [(n, Open)], sid);
    assert [(n, Open)][1..] == [];
    if sid == n {
      NoCallsFor(conn.up, n);
      NoCallsFor(conn.down, n);
    }
  }

  lemma AdvanceKeepsWires(setup: nat -> Setup, conn: Connection, ev: Event)
    requires WiresOwned(conn) && Advance(setup, conn, ev).Some?
    ensures WiresOwned(Advance(setup, conn, ev).value)
  {
  }

  lemma OpenedInv(c: Setup, broken: bool)
    ensures Inv(c, OPENED.(broken := broken, upCalls := if broken then [] else [Open]))
  {}

  lemma StrickenInv(c: Setup, s: Session)
    requires Inv(c, s)
    ensures Inv(c, Stricken(s))
  {
    assert s.upCalls[..|s.upCalls|] == s.upCalls && s.downCalls[..|s.downCalls|] == s.downCalls;
    assert Next(c, s, Break(|s.upCalls|, |s.downCalls|)) == Some(Stricken(s));
    NextKeepsInv(c, s, Break(|s.upCalls|, |s.downCalls|));
  }

  lemma HandledCallMayKill(c: Setup, s: Session)
    requires Next(c, s, HandleUp).Some?
    ensures var s' := Next(c, s, HandleUp).value;
      && s'.broken == (s.broken || (s'.server.Aborted? && !s.server.Aborted?))
      && (s.server.Aborted? ==> s'.server.Aborted?)
  {
  }

  lemma OtherStepsLeaveTheLink(c: Setup, s: Session, step: Step)
    requires Next(c, s, step).Some? && !step.Break? && !step.HandleUp?
    ensures var s' := Next(c, s, step).value;
      s'.broken == s.broken && s'.server.Aborted? == s.server.Aborted?
  {
  }

  /** Only a handler that throws breaks a session by itself. */
  lemma OnlyDeathBreaks(c: Setup, s: Session, step: Step)
    requires Next(c, s, step).Some? && !step.Break?
    ensures var s' := Next(c, s, step).value;
      && s'.broken == (s.broken || (s'.server.Aborted? && !s.server.Aborted?))
      && (s.server.Aborted? ==> s'.server.Aborted?)
  {
    if step.HandleUp? { HandledCallMayKill(c, s); } else { OtherStepsLeaveTheLink(c, s, step); }
  }

  lemma AdvanceKeepsFate(setup: nat -> Setup, conn: Connection, ev: Event)
    requires SharedFate(conn) && Advance(setup, conn, ev).Some?
    ensures SharedFate(Advance(setup, conn, ev).value)
  {
    if ev.Act? { OnlyDeathBreaks(setup(ev.sid), Project(conn, ev.sid), ev.step); }
  }

  lemma AdvanceKeepsInv(setup: nat -> Setup, conn: Connection, ev: Event, sid: nat)
    requires ConnInv(setup, conn) && Advance(setup, conn, ev).Some? && sid in Advance(setup, conn, ev).value.ends
    ensures Inv(setup(sid), Project(Advance(setup, conn, ev).value, sid))
  {
    var conn' := Advance(setup, conn, ev).value;
    match ev
    case Start(n) =>
      StartShows(setup, conn, n, sid);
      OpenedInv(setup(sid), conn.broken);
      assert sid != n ==> Inv(setup(sid), Project(conn, sid));
    case Cut(upLeft, downLeft) =>
      CutIsABreak(setup, conn, upLeft, downLeft, sid);
      var after := Project(conn', sid);
      assert Inv(setup(sid), Project(conn, sid));
      NextKeepsInv(setup(sid), Project(conn, sid), Break(|after.upCalls|, |after.downCalls|));
    case Act(n, step) =>
      SessionsDoNotMix(setup, conn, n, step, sid);
      assert Inv(setup(sid), Project(conn, sid));
      if sid == n {
        NextKeepsInv(setup(n), Project(conn, n), step);
      } else {
        StrickenInv(setup(sid), Project(conn, sid));
      }
  }

  lemma {:induction false} RunKeepsInv(setup: nat -> Setup, conn: Connection, evs: seq<Event>)
    requires ConnInv(setup, conn) && RunAll(setup, conn, evs).Some?
    ensures ConnInv(setup, RunAll(setup, conn, evs).value)
    decreases |evs|
  {
    if evs != [] {
      AdvanceKeepsWires(setup, conn, evs[0]);
      AdvanceKeepsFate(setup, conn, evs[0]);
      forall sid | sid in Advance(setup, conn, evs[0]).value.ends
        ensures Inv(setup(sid), Project(Advance(setup, conn, evs[0]).value, sid))
      {
        AdvanceKeepsInv(setup, conn, evs[0], sid);
      }
      RunKeepsInv(setup, Advance(setup, conn, evs[0]).value, evs[1..]);
    }
  }

  /**
   However many sessions are interleaved and whatever breaks, each whose handler has run had it run
   on its own whole request, and each that succeeds holds the reply to that.
   */
  lemma EverySessionIsExact(setup: nat -> Setup, evs: seq<Event>, conn: Connection, sid: nat)
    requires RunAll(setup, IDLE, evs) == Some(conn) && sid in conn.ends
    ensures Handled(conn.ends[sid].server) ==> conn.ends[sid].rcv == setup(sid).request
    ensures conn.ends[sid].client.Succeeded? ==>
      Handled(conn.ends[sid].server) && setup(sid).handler(setup(sid).request) == Some(conn.ends[sid].reply)
  {
    RunKeepsInv(setup, IDLE, evs);
    assert Inv(setup(sid), Project(conn, sid));
  }

  // ---------- Progress ----------

  /** While the server lives, no call blocks the wire to it, whoever it is for. */
  lemma HeadUpCanBeHandled(setup: nat -> Setup, conn: Connection)
    requires ConnInv(setup, conn) && !conn.dead && conn.up != []
    ensures Advance(setup, conn, Act(conn.up[0].0, HandleUp)).Some?
  {
    var sid := conn.up[0].0;
    var s := Project(conn, sid);
    assert Inv(setup(sid), s) && s.upCalls[0] == conn.up[0].1;
    if s.server.Receiving? { assert s.upCalls[0] == CallAt(setup(sid).request, |s.rcv|); }
  }

  lemma HeadDownCanBeHandled(setup: nat -> Setup, conn: Connection)
    requires ConnInv(setup, conn) && conn.down != []
    ensures Advance(setup, conn, Act(conn.down[0].0, HandleDown)).Some?
  {
    var sid := conn.down[0].0;
    var s := Project(conn, sid);
    assert Inv(setup(sid), s) && s.downCalls[0] == conn.down[0].1;
    assert s.downCalls[0] == CallAt(s.server.snd, |s.reply| + if s.replyDone then 1 else 0);
  }

  /** As long as a session has not succeeded, an unbroken connection can go on, for every positive windows. */
  lemma ConnectionNoDeadlock(setup: nat -> Setup, evs: seq<Event>, conn: Connection, sid: nat) returns (ev: Event)
    requires RunAll(setup, IDLE, evs) == Some(conn) && !conn.broken
    requires sid in conn.ends && !conn.ends[sid].client.Succeeded?
    requires setup(sid).window > 0 && setup(sid).handler(setup(sid).request).Some?
    ensures ev.Act? && Advance(setup, conn, ev).Some?
  {
    RunKeepsInv(setup, IDLE, evs);
    if conn.up != [] {
      HeadUpCanBeHandled(setup, conn);
      ev := Act(conn.up[0].0, HandleUp);
    } else if conn.down != [] {
      HeadDownCanBeHandled(setup, conn);
      ev := Act(conn.down[0].0, HandleDown);
    } else {
      assert Inv(setup(sid), Project(conn, sid));
      var step := NoDeadlock(setup(sid), Project(conn, sid));
      ev := Act(sid, step);
    }
  }

  // ---------- All sessions end ----------

  /** Every session has a positive window, and no handler throws. */
  ghost predicate AllServe(setup: nat -> Setup) {
    forall sid: nat :: Serves(setup(sid))
  }

  predicate Serves(c: Setup) {
    c.window > 0 && c.handler(c.request).Some?
  }

  /** The steps that a session may still take. */
  function StepsLeft(c: Setup, s: Session): nat {
    if c.handler(c.request).None? then 0 else
    var left := Left(c, s, c.handler(c.request).value);
    if left < 0 then 0 else left
  }

  /** The steps that a session may take in all. */
  function Budget(c: Setup): nat {
    if c.handler(c.request).None? then 0 else 3 * |c.request| + 3 * |c.handler(c.request).value| + 11
  }

  function AllLeft(setup: nat -> Setup, conn: Connection): map<nat, nat> {
    map sid | sid in conn.ends :: StepsLeft(setup(sid), Project(conn, sid))
  }

  function AllBudgets(setup: nat -> Setup, conn: Connection): map<nat, nat> {
    map sid | sid in conn.ends :: Budget(setup(sid))
  }

  function Itself(n: nat): nat { n }

  /** Over all sessions of a connection. */
  ghost function TotalLeft(setup: nat -> Setup, conn: Connection): nat {
    MapSum(AllLeft(setup, conn), Itself)
  }

  ghost function TotalBudget(setup: nat -> Setup, conn: Connection): nat {
    MapSum(AllBudgets(setup, conn), Itself)
  }

  lemma ActUsesUp(setup: nat -> Setup, conn: Connection, sid: nat, step: Step)
    requires ConnInv(setup, conn) && !conn.broken && Serves(setup(sid))
    requires Advance(setup, conn, Act(sid, step)).Some?
    ensures var conn' := Advance(setup, conn, Act(sid, step)).value;
      && !conn'.broken && conn'.ends.Keys == conn.ends.Keys
      && TotalLeft(setup, conn') < TotalLeft(setup, conn)
  {
    var conn' := Advance(setup, conn, Act(sid, step)).value;
    var c, before := setup(sid), Project(conn, sid);
    var snd := c.handler(c.request).value;
    assert Inv(c, before);
    StepsCountDown(c, before, step, snd);
    NextKeepsInv(c, before, step);
    OnlyDeathBreaks(c, before, step);
    var after := Next(c, before, step).value;
    LeftIsPositive(c, before, snd);
    LeftIsPositive(c, after, snd);
    SessionsDoNotMix(setup, conn, sid, step, sid);
    LeftOfOthers(setup, conn, sid, step);
    MapSumUpdate(AllLeft(setup, conn), Itself, sid, StepsLeft(c, after));
  }

  lemma OthersAreLeftAlone(setup: nat -> Setup, conn: Connection, sid: nat, step: Step, other: nat)
    requires Advance(setup, conn, Act(sid, step)).Some? && other in conn.ends && other != sid
    requires Advance(setup, conn, Act(sid, step)).value.dead == conn.dead
    ensures var conn' := Advance(setup, conn, Act(sid, step)).value;
      && other in conn'.ends
      && StepsLeft(setup(other), Project(conn', other)) == StepsLeft(setup(other), Project(conn, other))
  {
    SessionsDoNotMix(setup, conn, sid, step, other);
  }

  lemma ActKeepsSessions(setup: nat -> Setup, conn: Connection, sid: nat, step: Step)
    requires Advance(setup, conn, Act(sid, step)).Some?
    ensures sid in conn.ends && Advance(setup, conn, Act(sid, step)).value.ends.Keys == conn.ends.Keys
  {}

  lemma LeftOfOthers(setup: nat -> Setup, conn: Connection, sid: nat, step: Step)
    requires Advance(setup, conn, Act(sid, step)).Some?
    requires Advance(setup, conn, Act(sid, step)).value.dead == conn.dead
    ensures var conn' := Advance(setup, conn, Act(sid, step)).value;
      && sid in conn'.ends && conn'.ends.Keys == conn.ends.Keys
      && AllLeft(setup, conn') == AllLeft(setup, conn)[sid := StepsLeft(setup(sid), Project(conn', sid))]
  {
    var conn' := Advance(setup, conn, Act(sid, step)).value;
    ActKeepsSessions(setup, conn, sid, step);
    var before, after := AllLeft(setup, conn), AllLeft(setup, conn');
    forall other | other in conn.ends && other != sid ensures after[other] == before[other] {
      OthersAreLeftAlone(setup, conn, sid, step, other);
    }
    assert after.Keys == before.Keys;
  }

  lemma LeftAfterStart(setup: nat -> Setup, conn: Connection, n: nat)
    requires WiresOwned(conn) && !conn.broken && Serves(setup(n)) && Advance(setup, conn, Start(n)).Some?
    ensures AllLeft(setup, Advance(setup, conn, Start(n)).value) == AllLeft(setup, conn)[n := Budget(setup(n))]
  {
    var conn' := Advance(setup, conn, Start(n)).value;
    StartShows(setup, conn, n, n);
    assert Project(conn', n) == OPENED && StepsLeft(setup(n), OPENED) == Budget(setup(n));
    forall sid | sid in conn.ends ensures Project(conn', sid) == Project(conn, sid) { StartShows(setup, conn, n, sid); }
  }

  lemma BudgetsAfterStart(setup: nat -> Setup, conn: Connection, n: nat)
    requires Advance(setup, conn, Start(n)).Some?
    ensures AllBudgets(setup, Advance(setup, conn, Start(n)).value) == AllBudgets(setup, conn)[n := Budget(setup(n))]
  {
  }

  lemma StartAdds(setup: nat -> Setup, conn: Connection, n: nat)
    requires WiresOwned(conn) && !conn.broken && Serves(setup(n)) && Advance(setup, conn, Start(n)).Some?
    ensures var conn' := Advance(setup, conn, Start(n)).value;
      && !conn'.broken
      && TotalLeft(setup, conn') == TotalLeft(setup, conn) + Budget(setup(n))
      && TotalBudget(setup, conn') == TotalBudget(setup, conn) + Budget(setup(n))
  {
    LeftAfterStart(setup, conn, n);
    MapSumAdd(AllLeft(setup, conn), Itself, n, Budget(setup(n)));
    BudgetsAfterStart(setup, conn, n);
    MapSumAdd(AllBudgets(setup, conn), Itself, n, Budget(setup(n)));
  }

  /** The steps that sessions take. */
  function Acts(evs: seq<Event>): nat {
    if evs == [] then 0 else (if evs[0].Act? then 1 else 0) + Acts(evs[1..])
  }

  predicate NoCut(evs: seq<Event>) {
    forall i :: 0 <= i < |evs| ==> !evs[i].Cut?
  }

  lemma EventPays(setup: nat -> Setup, conn: Connection, ev: Event)
    requires ConnInv(setup, conn) && !conn.broken && AllServe(setup) && !ev.Cut? && Advance(setup, conn, ev).Some?
    ensures var conn' := Advance(setup, conn, ev).value;
      && !conn'.broken
      && (if ev.Act? then 1 else 0) + TotalLeft(setup, conn') + TotalBudget(setup, conn)
         <= TotalLeft(setup, conn) + TotalBudget(setup, conn')
  {
    var conn' := Advance(setup, conn, ev).value;
    assert Serves(setup(ev.sid));
    if ev.Act? {
      ActUsesUp(setup, conn, ev.sid, ev.step);
      assert AllBudgets(setup, conn') == AllBudgets(setup, conn);
    } else {
      StartAdds(setup, conn, ev.sid);
    }
  }

  lemma {:induction false} RunAllAppend(setup: nat -> Setup, conn: Connection, evs: seq<Event>, ev: Event)
    ensures RunAll(setup, conn, evs + [ev]) ==
      match RunAll(setup, conn, evs) case None => None case Some(c) => Advance(setup, c, ev)
    decreases |evs|
  {
    if evs == [] {
      assert evs + [ev] == [ev] && [ev][1..] == [];
    } else {
      assert (evs + [ev])[1..] == evs[1..] + [ev];
      var next := Advance(setup, conn, evs[0]);
      if next.Some? { RunAllAppend(setup, next.value, evs[1..], ev); }
    }
  }

  lemma {:induction false} ActsAppend(evs: seq<Event>, ev: Event)
    ensures Acts(evs + [ev]) == Acts(evs) + if ev.Act? then 1 else 0
  {
    if evs == [] {
      assert evs + [ev] == [ev] && [ev][1..] == [];
    } else {
      assert (evs + [ev])[1..] == evs[1..] + [ev];
      ActsAppend(evs[1..], ev);
    }
  }

  lemma ReachedEventPays(setup: nat -> Setup, evs: seq<Event>, conn: Connection, ev: Event)
    requires AllServe(setup) && RunAll(setup, IDLE, evs) == Some(conn) && !conn.broken
    requires !ev.Cut? && Advance(setup, conn, ev).Some?
    ensures var conn' := Advance(setup, conn, ev).value;
      && !conn'.broken
      && (if ev.Act? then 1 else 0) + TotalLeft(setup, conn') + TotalBudget(setup, conn)
         <= TotalLeft(setup, conn) + TotalBudget(setup, conn')
  {
    RunKeepsInv(setup, IDLE, evs);
    EventPays(setup, conn, ev);
  }

  lemma {:induction false} ActsAreBounded(setup: nat -> Setup, evs: seq<Event>, conn: Connection)
    requires AllServe(setup) && NoCut(evs) && RunAll(setup, IDLE, evs) == Some(conn)
    ensures !conn.broken && Acts(evs) + TotalLeft(setup, conn) <= TotalBudget(setup, conn)
    decreases |evs|
  {
    if evs == [] {
      assert AllLeft(setup, IDLE) == map[] && AllBudgets(setup, IDLE) == map[];
    } else {
      var before, ev := evs[..|evs| - 1], evs[|evs| - 1];
      assert evs == before + [ev];
      RunAllAppend(setup, IDLE, before, ev);
      ActsAppend(before, ev);
      var c := RunAll(setup, IDLE, before).value;
      ActsAreBounded(setup, before, c);
      ReachedEventPays(setup, before, c, ev);
    }
  }

  /** However its sessions are interleaved, an unbroken connection takes no more steps than they may take alone. */
  lemma EveryRunEnds(setup: nat -> Setup, evs: seq<Event>, conn: Connection)
    requires AllServe(setup) && NoCut(evs) && RunAll(setup, IDLE, evs) == Some(conn)
    ensures !conn.broken && Acts(evs) <= TotalBudget(setup, conn)
  {
    ActsAreBounded(setup, evs, conn);
  }

  predicate AllSucceeded(conn: Connection) {
    forall sid :: sid in conn.ends ==> conn.ends[sid].client.Succeeded?
  }

  /** Some session goes on, and there is less left to do. */
  lemma SomeSessionGoesOn(setup: nat -> Setup, evs: seq<Event>, conn: Connection) returns (ev: Event, conn': Connection)
    requires AllServe(setup) && RunAll(setup, IDLE, evs) == Some(conn) && !conn.broken && !AllSucceeded(conn)
    ensures Advance(setup, conn, ev) == Some(conn') && RunAll(setup, IDLE, evs + [ev]) == Some(conn')
    ensures !conn'.broken && conn'.ends.Keys == conn.ends.Keys && TotalLeft(setup, conn') < TotalLeft(setup, conn)
  {
    var sid :| sid in conn.ends && !conn.ends[sid].client.Succeeded?;
    assert Serves(setup(sid));
    ev := ConnectionNoDeadlock(setup, evs, conn, sid);
    conn' := Advance(setup, conn, ev).value;
    assert Serves(setup(ev.sid));
    RunKeepsInv(setup, IDLE, evs);
    ActUsesUp(setup, conn, ev.sid, ev.step);
    RunAllAppend(setup, IDLE, evs, ev);
  }

  /** From every unbroken state reached, some way of going on ends with every session's success. */
  lemma {:induction false} AllCanSucceed(setup: nat -> Setup, evs: seq<Event>, conn: Connection)
      returns (more: seq<Event>, end: Connection)
    requires AllServe(setup) && RunAll(setup, IDLE, evs) == Some(conn) && !conn.broken
    ensures RunAll(setup, conn, more) == Some(end) && end.ends.Keys == conn.ends.Keys && AllSucceeded(end)
    decreases TotalLeft(setup, conn)
  {
    more, end := [], conn;
    if !AllSucceeded(conn) {
      var ev, conn' := SomeSessionGoesOn(setup, evs, conn);
      var rest;
      rest, end := AllCanSucceed(setup, evs + [ev], conn');
      more := [ev] + rest;
      assert more[1..] == rest;
    }
  }
}
