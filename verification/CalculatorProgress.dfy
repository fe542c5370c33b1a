/**
 Every schedule ends, none gets stuck, and naming answers before they arrive reads the same
 outcomes as waiting for each of them.
 */
module CalculatorProgress {
  import opened Options
  import opened CalculatorMeaning
  import opened CalculatorMachine
  import opened CalculatorSchedules

  // ---------- A measure that bounds all unfolded work ----------

  /** The steps request `i` can cause: processing it, and all the work its expression unfolds to. */
  ghost function Budget(t: Table, i: nat): nat
    requires i < |t|
  {
    1 + if t[i].Evaluate? then Weight(STEPS, t[..i], t[i].expr) else 0
  }

  ghost function SlotWork(t: Table, i: nat, slot: Slot): nat
    requires i < |t|
  {
    match slot
    case Queued => Budget(t, i)
    case Exported => 0
    case Working(task, _) => Remaining(STEPS, t, task)
  }

  ghost function Budgets(t: Table): seq<nat> {
    seq(|t|, i requires 0 <= i < |t| => Budget(t, i))
  }

  ghost function Works(s: Session): seq<nat>
    requires |s.slots| == |s.reqs|
  {
    seq(|s.slots|, i requires 0 <= i < |s.slots| => SlotWork(s.reqs, i, s.slots[i]))
  }

  ghost function Measure(s: Session): nat
    requires |s.slots| == |s.reqs|
  {
    Sum(Works(s))
  }

  lemma SlotStepDecreases(ar: Arith, s: Session, ev: Event)
    requires Inv(ar, s) && !ev.Send? && Next(ar, s, ev).Some?
    ensures Measure(Next(ar, s, ev).value) < Measure(s)
  {
    var s' := Next(ar, s, ev).value;
    var i := ev.slot;
    var work := SlotWork(s.reqs, i, s'.slots[i]);
    assert Works(s') == Works(s)[i := work];
    SumUpdate(Works(s), i, work);
    match ev
    case Process(_) =>
      if s.reqs[i].Evaluate? {
        assert RequestScoped(s.reqs[i], i);
        LaunchKeeps(ar, STEPS, s.reqs, i, s.reqs[i].expr, []);
      }
    case Resolve(_, path) =>
      assert SlotGood(ar, s.reqs, i, s.slots[i]);
      FireKeeps(ar, STEPS, s, i, s.slots[i].task, path);
  }

  lemma SendAdds(ar: Arith, s: Session, r: Request)
    requires Inv(ar, s) && Next(ar, s, Send(r)).Some?
    ensures Measure(Next(ar, s, Send(r)).value) + Sum(Budgets(s.reqs)) == Measure(s) + Sum(Budgets(s.reqs + [r]))
  {
    var s', k := Next(ar, s, Send(r)).value, |s.reqs|;
    forall i | 0 <= i < k
      ensures SlotWork(s'.reqs, i, s.slots[i]) == SlotWork(s.reqs, i, s.slots[i])
      ensures Budget(s'.reqs, i) == Budget(s.reqs, i)
    {
      assert s'.reqs[..i] == s.reqs[..i];
      assert SlotGood(ar, s.reqs, i, s.slots[i]);
      if s.slots[i].Working? {
        TaskScopedWeaken(s.slots[i].task, i, k);
        TableGrows(ar, STEPS, s.reqs, r, s.slots[i].task);
      }
    }
    assert Works(s') == Works(s) + [Budget(s'.reqs, k)];
    assert Budgets(s'.reqs) == Budgets(s.reqs) + [Budget(s'.reqs, k)];
    SumAppend(Works(s), Budget(s'.reqs, k));
    SumAppend(Budgets(s.reqs), Budget(s'.reqs, k));
  }

  /** The events that are not the client's. */
  function ServerEvents(evs: seq<Event>): nat {
    if evs == [] then 0 else (if evs[0].Send? then 0 else 1) + ServerEvents(evs[1..])
  }

  lemma {:induction false} RunIsBounded(ar: Arith, s: Session, evs: seq<Event>)
    requires Inv(ar, s) && Run(ar, s, evs).Some?
    ensures Inv(ar, Run(ar, s, evs).value)
    ensures var end := Run(ar, s, evs).value;
      ServerEvents(evs) + Measure(end) + Sum(Budgets(s.reqs)) <= Measure(s) + Sum(Budgets(end.reqs))
    decreases |evs|
  {
    if evs != [] {
      var s' := Next(ar, s, evs[0]).value;
      NextKeepsInv(ar, s, evs[0]);
      RunIsBounded(ar, s', evs[1..]);
      if evs[0].Send? { SendAdds(ar, s, evs[0].request); } else { SlotStepDecreases(ar, s, evs[0]); }
    }
  }

  /** Termination: no schedule takes more server steps than the requests sent unfold to. */
  lemma EveryScheduleEnds(ar: Arith, evs: seq<Event>, s: Session)
    requires Run(ar, EMPTY, evs) == Some(s)
    ensures ServerEvents(evs) <= Sum(Budgets(s.reqs))
  {
    RunIsBounded(ar, EMPTY, evs);
  }

  // ---------- No deadlock ----------

  predicate Finished(slot: Slot) {
    slot.Exported? || (slot.Working? && slot.task.Done?)
  }

  predicate Complete(s: Session) {
    forall i :: 0 <= i < |s.slots| ==> Finished(s.slots[i])
  }

  lemma {:induction false} FindReady(ar: Arith, s: Session, k: nat, task: Task) returns (path: seq<nat>)
    requires Inv(ar, s) && k <= |s.reqs| && TaskScoped(task, k) && !task.Done?
    requires forall j :: 0 <= j < k ==> Finished(s.slots[j])
    ensures Fire(ar, s, task, path).Some?
    decreases task
  {
    path := [];
    match task
    case Reading(_) =>
    case Calling(_, _) =>
    case Running(body) =>
      if !body.Done? {
        var inner := FindReady(ar, s, k, body);
        path := [0] + inner;
        assert path[1..] == inner;
      }
    case Joining(f, ts) =>
      if !SomeFailed(ts) && !AllDone(ts) {
        var c :| 0 <= c < |ts| && !ts[c].Done?;
        var inner := FindReady(ar, s, k, ts[c]);
        path := [c] + inner;
        assert path[1..] == inner;
      }
  }

  lemma {:induction false} FirstUnfinished(s: Session, i: nat) returns (k: nat)
    requires i < |s.slots| && !Finished(s.slots[i])
    ensures k <= i && !Finished(s.slots[k]) && forall j :: 0 <= j < k ==> Finished(s.slots[j])
  {
    k := i;
    if j: nat :| j < i && !Finished(s.slots[j]) {
      k := FirstUnfinished(s, j);
    }
  }

  /** No deadlock: unless everything has answered, some request or promise is ready. */
  lemma NoDeadlock(ar: Arith, s: Session) returns (ev: Event)
    requires Inv(ar, s) && !Complete(s)
    ensures !ev.Send? && Next(ar, s, ev).Some?
  {
    var i: nat :| i < |s.slots| && !Finished(s.slots[i]);
    var k := FirstUnfinished(s, i);
    if s.slots[k].Queued? {
      ev := Process(k);
    } else {
      assert SlotGood(ar, s.reqs, k, s.slots[k]);
      var path := FindReady(ar, s, k, s.slots[k].task);
      ev := Resolve(k, path);
    }
  }

  // ---------- Waiting for every answer before sending the next request ----------

  /** The run of `evs` from `s` sends a request only when everything sent before has answered. */
  predicate Waits(ar: Arith, s: Session, evs: seq<Event>)
    decreases |evs|
  {
    evs == [] ||
    var next := Next(ar, s, evs[0]);
    (evs[0].Send? ==> Complete(s)) && (next.Some? ==> Waits(ar, next.value, evs[1..]))
  }

  /** In such a run, when a request is sent, every one before has been processed and every evaluation is done. */
  lemma {:induction false} WaitsMeans(ar: Arith, s: Session, evs: seq<Event>, k: nat, before: Session)
    requires Waits(ar, s, evs) && k < |evs| && evs[k].Send? && Run(ar, s, evs[..k]) == Some(before)
    ensures forall i :: 0 <= i < |before.slots| ==>
      !before.slots[i].Queued? && (before.slots[i].Working? ==> before.slots[i].task.Done?)
    decreases |evs|
  {
    if k == 0 {
      assert evs[..0] == [];
      forall i | 0 <= i < |before.slots| ensures Finished(before.slots[i]) {}
    } else {
      assert evs[..k][1..] == evs[1..][..k - 1] && evs[..k][0] == evs[0];
      WaitsMeans(ar, Next(ar, s, evs[0]).value, evs[1..], k - 1, before);
    }
  }

  lemma {:induction false} RunAppend(ar: Arith, s: Session, evs: seq<Event>, more: seq<Event>)
    requires Run(ar, s, evs).Some? && Waits(ar, s, evs) && Waits(ar, Run(ar, s, evs).value, more)
    ensures Run(ar, s, evs + more) == Run(ar, Run(ar, s, evs).value, more)
    ensures Waits(ar, s, evs + more)
    decreases |evs|
  {
    if evs == [] {
      assert evs + more == more;
    } else {
      assert (evs + more)[1..] == evs[1..] + more;
      RunAppend(ar, Next(ar, s, evs[0]).value, evs[1..], more);
    }
  }

  /** From any reachable session the server alone can bring every answer in. */
  lemma {:induction false} Drain(ar: Arith, s: Session) returns (evs: seq<Event>)
    requires Inv(ar, s)
    ensures Waits(ar, s, evs) && Run(ar, s, evs).Some?
    ensures Complete(Run(ar, s, evs).value) && Run(ar, s, evs).value.reqs == s.reqs
    decreases Measure(s)
  {
    evs := [];
    if !Complete(s) {
      var ev := NoDeadlock(ar, s);
      NextKeepsInv(ar, s, ev);
      SlotStepDecreases(ar, s, ev);
      var rest := Drain(ar, Next(ar, s, ev).value);
      evs := [ev] + rest;
      assert evs[1..] == rest;
    }
  }

  /** Every script of requests has a waiting run that answers all of it. */
  lemma {:induction false} WaitingRunExists(ar: Arith, t: Table) returns (evs: seq<Event>)
    requires ScopedTable(t)
    ensures Waits(ar, EMPTY, evs) && Run(ar, EMPTY, evs).Some?
    ensures Run(ar, EMPTY, evs).value.reqs == t && Complete(Run(ar, EMPTY, evs).value)
  {
    evs := [];
    if t != [] {
      var k := |t| - 1;
      var before := WaitingRunExists(ar, t[..k]);
      RunKeepsInv(ar, EMPTY, before);
      var s := Run(ar, EMPTY, before).value;
      assert RequestScoped(t[k], k);
      var s' := Next(ar, s, Send(t[k])).value;
      NextKeepsInv(ar, s, Send(t[k]));
      assert s'.reqs == t;
      var rest := Drain(ar, s');
      var tail := [Send(t[k])] + rest;
      assert tail[1..] == rest;
      RunAppend(ar, EMPTY, before, tail);
      evs := before + tail;
    }
  }

  /**
   Pipelining refines waiting: take any run at all that has sent the requests `t`, under any
   processing order. The session that waits for each answer before it sends the next request
   exists, answers everything, and whatever the pipelined run has answered is the same answer.
   */
  lemma PipeliningRefinesWaiting(ar: Arith, evs: seq<Event>, s: Session) returns (waiting: seq<Event>, w: Session)
    requires Run(ar, EMPTY, evs) == Some(s)
    ensures Waits(ar, EMPTY, waiting) && Run(ar, EMPTY, waiting) == Some(w)
    ensures w.reqs == s.reqs && |w.slots| == |s.slots| && Complete(w)
    ensures forall i: nat, o :: Answered(s, i, o) ==> Answered(w, i, o)
  {
    RunKeepsInv(ar, EMPTY, evs);
    waiting := WaitingRunExists(ar, s.reqs);
    w := Run(ar, EMPTY, waiting).value;
    RunKeepsInv(ar, EMPTY, waiting);
    forall i: nat, o | Answered(s, i, o) ensures Answered(w, i, o) {
      assert SlotGood(ar, s.reqs, i, s.slots[i]) && SlotGood(ar, w.reqs, i, w.slots[i]);
      assert Finished(w.slots[i]);
    }
  }
}
