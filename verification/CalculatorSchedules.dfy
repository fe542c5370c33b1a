/**
 Every schedule of every session answers what the left-to-right evaluator answers, and a
 successful evaluation sends the same number of calls on all of them.
 */
module CalculatorSchedules {
  import opened Options
  import opened CalculatorMeaning
  import opened CalculatorMachine

  // ---------- What a half-finished evaluation still means ----------

  ghost function Denote(ar: Arith, t: Table, task: Task): Outcome
    decreases task
  {
    match task
    case Done(o) => o
    case Reading(i) => Answer(ar, t, i)
    case Joining(f, ts) =>
      var os := DenoteAll(ar, t, ts);
      if AllValues(os) then Apply(ar, t, f, Values(os)) else Failed
    case Calling(f, vs) => Apply(ar, t, f, vs)
    case Running(body) => Denote(ar, t, body)
  }

  ghost function DenoteAll(ar: Arith, t: Table, ts: seq<Task>): (os: seq<Outcome>)
    ensures |os| == |ts|
    ensures forall i :: 0 <= i < |ts| ==> os[i] == Denote(ar, t, ts[i])
    decreases ts
  {
    if ts == [] then [] else [Denote(ar, t, ts[0])] + DenoteAll(ar, t, ts[1..])
  }

  /** The task names only capabilities below `k`. */
  predicate TaskScoped(task: Task, k: nat) {
    match task
    case Done(_) => true
    case Reading(i) => i < k
    case Joining(f, ts) => f < k && forall i :: 0 <= i < |ts| ==> TaskScoped(ts[i], k)
    case Calling(f, _) => f < k
    case Running(body) => TaskScoped(body, k)
  }

  // ---------- What an evaluation still has to do ----------

  /** The price of evaluating `e` in full, bodies of called functions included. */
  ghost function Weight(p: Prices, t: Table, e: Expr): nat
    decreases |t|, 1, e
  {
    match e
    case PreviousResult(_) => p.read
    case Call(f, es) => p.join + p.deliver + Callee(p, t, f) + Sum(WeightAll(p, t, es))
    case _ => 0
  }

  ghost function WeightAll(p: Prices, t: Table, es: seq<Expr>): (ws: seq<nat>)
    ensures |ws| == |es|
    ensures forall i :: 0 <= i < |es| ==> ws[i] == Weight(p, t, es[i])
    decreases |t|, 1, es
  {
    if es == [] then [] else [Weight(p, t, es[0])] + WeightAll(p, t, es[1..])
  }

  /** The price of what a call message sets off at the callee. */
  ghost function Callee(p: Prices, t: Table, f: nat): nat
    decreases |t|, 0
  {
    if f < |t| && t[f].DefFunction? then p.back + Weight(p, t[..f], t[f].body) else 0
  }

  ghost function Remaining(p: Prices, t: Table, task: Task): nat
    decreases task
  {
    match task
    case Done(_) => 0
    case Reading(_) => p.read
    case Joining(f, ts) => p.join + p.deliver + Callee(p, t, f) + Sum(RemainingAll(p, t, ts))
    case Calling(f, _) => p.deliver + Callee(p, t, f)
    case Running(body) => p.back + Remaining(p, t, body)
  }

  ghost function RemainingAll(p: Prices, t: Table, ts: seq<Task>): (ws: seq<nat>)
    ensures |ws| == |ts|
    ensures forall i :: 0 <= i < |ts| ==> ws[i] == Remaining(p, t, ts[i])
    decreases ts
  {
    if ts == [] then [] else [Remaining(p, t, ts[0])] + RemainingAll(p, t, ts[1..])
  }

  lemma {:induction false} WeightPrefix(p: Prices, t: Table, k: nat, e: Expr)
    requires k <= |t| && Scoped(e, k)
    ensures Weight(p, t[..k], e) == Weight(p, t, e)
    decreases e
  {
    if e.Call? {
      forall i | 0 <= i < |e.params| ensures Weight(p, t[..k], e.params[i]) == Weight(p, t, e.params[i]) {
        WeightPrefix(p, t, k, e.params[i]);
      }
      assert WeightAll(p, t[..k], e.params) == WeightAll(p, t, e.params);
      assert t[..k][..e.func] == t[..e.func];
    }
  }

  // ---------- Starting ----------

  lemma {:induction false} StartKeeps(ar: Arith, p: Prices, t: Table, k: nat, e: Expr, ps: seq<Double>)
    requires Scoped(e, k)
    ensures Start(e, ps).None? ==> Eval(ar, t, e, ps) == Failed
    ensures Start(e, ps).Some? ==>
      var task := Start(e, ps).value;
      TaskScoped(task, k) && Denote(ar, t, task) == Eval(ar, t, e, ps) && Remaining(p, t, task) == Weight(p, t, e)
    decreases e
  {
    if e.Call? {
      var es := e.params;
      forall i | 0 <= i < |es|
        ensures Start(es[i], ps).None? ==> Eval(ar, t, es[i], ps) == Failed
        ensures Start(es[i], ps).Some? ==>
          var task := Start(es[i], ps).value;
          TaskScoped(task, k) && Denote(ar, t, task) == Eval(ar, t, es[i], ps)
          && Remaining(p, t, task) == Weight(p, t, es[i])
      {
        StartKeeps(ar, p, t, k, es[i], ps);
      }
      var tasks := StartAll(es, ps);
      if tasks.Some? {
        assert DenoteAll(ar, t, tasks.value) == EvalAll(ar, t, es, ps);
        assert RemainingAll(p, t, tasks.value) == WeightAll(p, t, es);
      }
    }
  }

  lemma LaunchKeeps(ar: Arith, p: Prices, t: Table, k: nat, e: Expr, ps: seq<Double>)
    requires k <= |t| && Scoped(e, k)
    ensures TaskScoped(Launch(e, ps), k)
    ensures Denote(ar, t, Launch(e, ps)) == Eval(ar, t[..k], e, ps)
    ensures Remaining(p, t, Launch(e, ps)) <= Weight(p, t[..k], e)
    ensures Eval(ar, t[..k], e, ps).Value? ==> Remaining(p, t, Launch(e, ps)) == Weight(p, t[..k], e)
  {
    StartKeeps(ar, p, t, k, e, ps);
    EvalPrefix(ar, t, k, e, ps);
    WeightPrefix(p, t, k, e);
  }

  // ---------- The session invariant ----------

  /** What slot `i` holds agrees with the meaning of request `i`. */
  ghost predicate SlotGood(ar: Arith, t: Table, i: nat, slot: Slot)
    requires i < |t|
  {
    match slot
    case Queued => true
    case Exported => !t[i].Evaluate?
    case Working(task, calls) =>
      && t[i].Evaluate?
      && TaskScoped(task, i)
      && Denote(ar, t, task) == Answer(ar, t, i)
      && var whole := Weight(CALLS, t[..i], t[i].expr);
         calls + Remaining(CALLS, t, task) <= whole
         && (Answer(ar, t, i).Value? ==> calls + Remaining(CALLS, t, task) == whole)
  }

  ghost predicate Inv(ar: Arith, s: Session) {
    && |s.slots| == |s.reqs|
    && ScopedTable(s.reqs)
    && forall i :: 0 <= i < |s.slots| ==> SlotGood(ar, s.reqs, i, s.slots[i])
  }

  /** A step changes neither what a task means nor, with the step paid, what it costs. */
  ghost predicate Keeps(ar: Arith, p: Prices, t: Table, k: nat, task: Task, fired: Fired) {
    && TaskScoped(fired.task, k)
    && Denote(ar, t, fired.task) == Denote(ar, t, task)
    && var after := Price(p, fired.kind) + Remaining(p, t, fired.task);
       after <= Remaining(p, t, task) && (Denote(ar, t, task).Value? ==> after == Remaining(p, t, task))
  }

  lemma DeliverKeeps(ar: Arith, p: Prices, s: Session, k: nat, f: nat, vs: seq<Double>)
    requires Inv(ar, s) && k <= |s.reqs| && f < k && FireDeliver(ar, s, f, vs).Some?
    ensures Keeps(ar, p, s.reqs, k, Calling(f, vs), FireDeliver(ar, s, f, vs).value)
  {
    if s.reqs[f].DefFunction? {
      assert RequestScoped(s.reqs[f], f);
      LaunchKeeps(ar, p, s.reqs, f, s.reqs[f].body, vs);
      TaskScopedWeaken(Launch(s.reqs[f].body, vs), f, k);
    }
  }

  lemma {:induction false} TaskScopedWeaken(task: Task, j: nat, k: nat)
    requires TaskScoped(task, j) && j <= k
    ensures TaskScoped(task, k)
    decreases task
  {
    match task
    case Joining(_, ts) =>
      forall i | 0 <= i < |ts| ensures TaskScoped(ts[i], k) {
        TaskScopedWeaken(ts[i], j, k);
      }
    case Running(body) => TaskScopedWeaken(body, j, k);
    case _ =>
  }

  lemma FailedJoinKeeps(ar: Arith, p: Prices, t: Table, k: nat, f: nat, ts: seq<Task>)
    requires p.abort <= p.join && TaskScoped(Joining(f, ts), k) && SomeFailed(ts)
    ensures Keeps(ar, p, t, k, Joining(f, ts), Fired(Done(Failed), Abort))
  {
    var i :| 0 <= i < |ts| && ts[i] == Done(Failed);
    assert DenoteAll(ar, t, ts)[i] == Failed;
  }

  lemma DoneDenotes(ar: Arith, t: Table, ts: seq<Task>)
    requires AllDone(ts) && !SomeFailed(ts)
    ensures AllValues(DenoteAll(ar, t, ts)) && Values(DenoteAll(ar, t, ts)) == DoneValues(ts)
  {
    var os := DenoteAll(ar, t, ts);
    assert forall i :: 0 <= i < |ts| ==> ts[i] == Done(Value(DoneValues(ts)[i])) && os[i] == ts[i].outcome;
  }

  lemma DoneIsPaid(p: Prices, t: Table, ts: seq<Task>)
    requires AllDone(ts)
    ensures Sum(RemainingAll(p, t, ts)) == 0
  {
    SumOfZeros(RemainingAll(p, t, ts));
  }

  lemma JoinKeeps(ar: Arith, p: Prices, t: Table, k: nat, f: nat, ts: seq<Task>)
    requires p.abort <= p.join && TaskScoped(Joining(f, ts), k) && FireJoin(f, ts).Some?
    ensures Keeps(ar, p, t, k, Joining(f, ts), FireJoin(f, ts).value)
  {
    if SomeFailed(ts) {
      FailedJoinKeeps(ar, p, t, k, f, ts);
    } else {
      DoneDenotes(ar, t, ts);
      DoneIsPaid(p, t, ts);
    }
  }

  lemma {:induction false} FireKeeps(ar: Arith, p: Prices, s: Session, k: nat, task: Task, path: seq<nat>)
    requires Inv(ar, s) && k <= |s.reqs| && p.abort <= p.join && TaskScoped(task, k)
    requires Fire(ar, s, task, path).Some?
    ensures Keeps(ar, p, s.reqs, k, task, Fire(ar, s, task, path).value)
    decreases task
  {
    var t := s.reqs;
    match task
    case Reading(i) => assert SlotGood(ar, t, i, s.slots[i]);
    case Calling(f, vs) => DeliverKeeps(ar, p, s, k, f, vs);
    case Running(body) => if path != [] { FireKeeps(ar, p, s, k, body, path[1..]); }
    case Joining(f, ts) =>
      if path == [] {
        JoinKeeps(ar, p, t, k, f, ts);
      } else {
        var c := path[0];
        FireKeeps(ar, p, s, k, ts[c], path[1..]);
        ArgumentKeeps(ar, p, t, k, f, ts, c, Fire(ar, s, ts[c], path[1..]).value);
      }
  }

  lemma RemainingUpdate(p: Prices, t: Table, ts: seq<Task>, c: nat, task: Task)
    requires c < |ts|
    ensures Sum(RemainingAll(p, t, ts[c := task])) + Remaining(p, t, ts[c])
      == Sum(RemainingAll(p, t, ts)) + Remaining(p, t, task)
  {
    var ws := RemainingAll(p, t, ts);
    assert RemainingAll(p, t, ts[c := task]) == ws[c := Remaining(p, t, task)];
    SumUpdate(ws, c, Remaining(p, t, task));
  }

  lemma ArgumentKeeps(ar: Arith, p: Prices, t: Table, k: nat, f: nat, ts: seq<Task>, c: nat, inner: Fired)
    requires c < |ts| && TaskScoped(Joining(f, ts), k) && Keeps(ar, p, t, k, ts[c], inner)
    ensures Keeps(ar, p, t, k, Joining(f, ts), Fired(Joining(f, ts[c := inner.task]), inner.kind))
  {
    var ts' := ts[c := inner.task];
    assert DenoteAll(ar, t, ts') == DenoteAll(ar, t, ts);
    RemainingUpdate(p, t, ts, c, inner.task);
    if Denote(ar, t, Joining(f, ts)).Value? {
      assert DenoteAll(ar, t, ts)[c].Value?;
    }
  }

  // ---------- Growing the table ----------

  lemma {:induction false} TableGrows(ar: Arith, p: Prices, t: Table, r: Request, task: Task)
    requires TaskScoped(task, |t|)
    ensures Denote(ar, t + [r], task) == Denote(ar, t, task)
    ensures Remaining(p, t + [r], task) == Remaining(p, t, task)
    decreases task
  {
    var u := t + [r];
    assert u[..|t|] == t;
    match task
    case Done(_) =>
    case Reading(i) => AnswerPrefix(ar, u, |t|, i);
    case Calling(f, vs) => assert u[..f] == t[..f];
    case Running(body) => TableGrows(ar, p, t, r, body);
    case Joining(f, ts) =>
      forall i | 0 <= i < |ts|
        ensures Denote(ar, u, ts[i]) == Denote(ar, t, ts[i])
        ensures Remaining(p, u, ts[i]) == Remaining(p, t, ts[i])
      {
        TableGrows(ar, p, t, r, ts[i]);
      }
      assert DenoteAll(ar, u, ts) == DenoteAll(ar, t, ts);
      assert RemainingAll(p, u, ts) == RemainingAll(p, t, ts);
      assert u[..f] == t[..f];
  }

  lemma SlotGrows(ar: Arith, t: Table, r: Request, i: nat, slot: Slot)
    requires i < |t| && SlotGood(ar, t, i, slot)
    ensures SlotGood(ar, t + [r], i, slot)
  {
    assert (t + [r])[..|t|] == t;
    assert (t + [r])[..i] == t[..i];
    if slot.Working? {
      TaskScopedWeaken(slot.task, i, |t|);
      TableGrows(ar, CALLS, t, r, slot.task);
    }
  }

  // ---------- The invariant holds in every reachable session ----------

  lemma NextKeepsInv(ar: Arith, s: Session, ev: Event)
    requires Inv(ar, s) && Next(ar, s, ev).Some?
    ensures Inv(ar, Next(ar, s, ev).value)
  {
    var s' := Next(ar, s, ev).value;
    match ev
    case Send(r) =>
      forall i | 0 <= i < |s.slots| ensures SlotGood(ar, s'.reqs, i, s.slots[i]) {
        SlotGrows(ar, s.reqs, r, i, s.slots[i]);
      }
    case Process(i) =>
      if s.reqs[i].Evaluate? {
        assert RequestScoped(s.reqs[i], i);
        LaunchKeeps(ar, CALLS, s.reqs, i, s.reqs[i].expr, []);
      }
    case Resolve(i, path) =>
      assert SlotGood(ar, s.reqs, i, s.slots[i]);
      FireKeeps(ar, CALLS, s, i, s.slots[i].task, path);
  }

  lemma {:induction false} RunKeepsInv(ar: Arith, s: Session, evs: seq<Event>)
    requires Inv(ar, s) && Run(ar, s, evs).Some?
    ensures Inv(ar, Run(ar, s, evs).value)
    decreases |evs|
  {
    if evs != [] {
      NextKeepsInv(ar, s, evs[0]);
      RunKeepsInv(ar, Next(ar, s, evs[0]).value, evs[1..]);
    }
  }

  /** The answer of slot `i`, once its promise has resolved. */
  predicate Answered(s: Session, i: nat, o: Outcome) {
    i < |s.slots| && s.slots[i].Working? && s.slots[i].task == Done(o)
  }

  /**
   Schedule independence: whatever the client sends and whichever promises resolve first, an
   evaluation that has answered answered what the recursive evaluator says.
   */
  lemma ScheduleIndependence(ar: Arith, evs: seq<Event>, s: Session, i: nat, o: Outcome)
    requires Run(ar, EMPTY, evs) == Some(s) && Answered(s, i, o)
    ensures i < |s.reqs| && s.reqs[i].Evaluate? && o == Eval(ar, s.reqs[..i], s.reqs[i].expr, [])
  {
    RunKeepsInv(ar, EMPTY, evs);
    assert SlotGood(ar, s.reqs, i, s.slots[i]);
  }

  /** In every reachable session stored bodies and expressions name only earlier requests. */
  lemma ReachableScoped(ar: Arith, evs: seq<Event>, s: Session)
    requires Run(ar, EMPTY, evs) == Some(s)
    ensures |s.slots| == |s.reqs| && ScopedTable(s.reqs)
  {
    RunKeepsInv(ar, EMPTY, evs);
  }

  /**
   Exact cost: on every schedule a successful evaluation has sent exactly the calls its
   expression unfolds to, and no evaluation ever sends more.
   */
  lemma ExactCost(ar: Arith, evs: seq<Event>, s: Session, i: nat)
    requires Run(ar, EMPTY, evs) == Some(s) && i < |s.slots| && s.slots[i].Working?
    ensures i < |s.reqs| && s.reqs[i].Evaluate?
    ensures s.slots[i].calls <= Weight(CALLS, s.reqs[..i], s.reqs[i].expr)
    ensures forall v :: s.slots[i].task == Done(Value(v)) ==>
      s.slots[i].calls == Weight(CALLS, s.reqs[..i], s.reqs[i].expr)
  {
    RunKeepsInv(ar, EMPTY, evs);
    assert SlotGood(ar, s.reqs, i, s.slots[i]);
  }
}
