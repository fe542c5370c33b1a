/**
 The calculator server as it runs: every promise that is ready may resolve next.

 An evaluation in progress is a tree of promises (`Task`). Starting an expression builds
 the tree of all its arguments at once; a schedule then picks, step after step, a slot of
 the session and a path into its tree. Requests are processed in any order too, and the
 client may send more of them at any time.
 */
module CalculatorMachine {
  import opened Options
  import opened CalculatorMeaning

  datatype Task =
    | Done(outcome: Outcome)                      // a resolved promise
    | Reading(value: nat)                         // read() sent to a value capability
    | Joining(func: nat, args: seq<Task>)         // joinPromises over the arguments
    | Calling(func: nat, vs: seq<Double>)         // call() sent to a function capability
    | Running(body: Task)                         // the callee evaluates its stored body

  /** `Join` sends a `call()` message; `Abort` is a join that passes a failure on. */
  datatype Kind = Read | Join | Abort | Deliver | Return

  /** What each kind of step counts for. */
  datatype Prices = Prices(read: nat, join: nat, abort: nat, deliver: nat, back: nat)

  /** Counts the `call()` messages. */
  const CALLS := Prices(0, 1, 0, 0, 0)

  /** Counts the steps. */
  const STEPS := Prices(1, 1, 1, 1, 1)

  function Price(p: Prices, kind: Kind): nat {
    match kind
    case Read => p.read
    case Join => p.join
    case Abort => p.abort
    case Deliver => p.deliver
    case Return => p.back
  }

  // ---------- Starting an expression ----------

  /** The promise for `e`; `None` when a required check throws while the tree is being built. */
  function Start(e: Expr, ps: seq<Double>): Option<Task>
    decreases e
  {
    match e
    case Literal(n) => Some(Done(Value(n)))
    case PreviousResult(i) => Some(Reading(i))
    case Parameter(k) => if k < |ps| then Some(Done(Value(ps[k]))) else None
    case Call(f, es) =>
      var tasks := StartAll(es, ps);
      if tasks.None? then None else Some(Joining(f, tasks.value))
    case Unknown => None
  }

  function StartAll(es: seq<Expr>, ps: seq<Double>): (tasks: Option<seq<Task>>)
    ensures tasks.Some? ==> |tasks.value| == |es|
    ensures tasks.Some? ==> forall i :: 0 <= i < |es| ==> Start(es[i], ps) == Some(tasks.value[i])
    ensures tasks.None? ==> exists i :: 0 <= i < |es| && Start(es[i], ps).None?
    decreases es
  {
    if es == [] then Some([]) else
    var head, tail := Start(es[0], ps), StartAll(es[1..], ps);
    if head.None? then None
    else if tail.None? then
      var i :| 0 <= i < |es[1..]| && Start(es[1..][i], ps).None?;
      assert Start(es[i + 1], ps).None?;
      None
    else Some([head.value] + tail.value)
  }

  /** A throw turns into a failed promise of the surrounding method call. */
  function Launch(e: Expr, ps: seq<Double>): Task {
    var task := Start(e, ps);
    if task.Some? then task.value else Done(Failed)
  }

  // ---------- The session ----------

  datatype Slot =
    | Queued                              // the request has not been processed
    | Exported                            // it answered with a function capability
    | Working(task: Task, calls: nat)     // it evaluates; `calls` call() messages so far

  datatype Session = Session(reqs: Table, slots: seq<Slot>)

  const EMPTY := Session([], [])

  datatype Event =
    | Send(request: Request)
    | Process(slot: nat)
    | Resolve(slot: nat, path: seq<nat>)

  datatype Fired = Fired(task: Task, kind: Kind)

  predicate AllDone(ts: seq<Task>) {
    forall i :: 0 <= i < |ts| ==> ts[i].Done?
  }

  predicate SomeFailed(ts: seq<Task>) {
    exists i :: 0 <= i < |ts| && ts[i] == Done(Failed)
  }

  function DoneValues(ts: seq<Task>): (vs: seq<Double>)
    requires AllDone(ts) && !SomeFailed(ts)
    ensures |vs| == |ts| && forall i :: 0 <= i < |ts| ==> ts[i] == Done(Value(vs[i]))
  {
    assert forall i :: 0 <= i < |ts| ==> ts[i].Done? && ts[i] != Done(Failed);
    Values(seq(|ts|, i requires 0 <= i < |ts| => ts[i].outcome))
  }

  /** Reading waits for the value to be there: calls on a promised capability queue up behind it. */
  function FireRead(s: Session, i: nat): Option<Fired> {
    if i >= |s.slots| then Some(Fired(Done(Failed), Read)) else
    match s.slots[i]
    case Queued => None
    case Exported => Some(Fired(Done(Failed), Read))
    case Working(task, _) => if task.Done? then Some(Fired(task, Read)) else None
  }

  /** A join may fail as soon as one argument failed, or wait for the others: both are allowed. */
  function FireJoin(f: nat, ts: seq<Task>): Option<Fired> {
    if SomeFailed(ts) then Some(Fired(Done(Failed), Abort))
    else if AllDone(ts) then Some(Fired(Calling(f, DoneValues(ts)), Join))
    else None
  }

  function FireDeliver(ar: Arith, s: Session, f: nat, vs: seq<Double>): Option<Fired> {
    if f >= |s.slots| || f >= |s.reqs| then Some(Fired(Done(Failed), Deliver))
    else if s.slots[f].Queued? then None
    else
      match s.reqs[f]
      case GetOperator(op) => Some(Fired(Done(Operate(ar, op, vs)), Deliver))
      case DefFunction(n, body) =>
        if |vs| == Unsigned(n) then Some(Fired(Running(Launch(body, vs)), Deliver))
        else Some(Fired(Done(Failed), Deliver))
      case ClientFunction(run) => Some(Fired(Done(run(vs)), Deliver))
      case Evaluate(_) => Some(Fired(Done(Failed), Deliver))
  }

  /** Resolves the promise at `path`; `None` when there is none there or it is not ready. */
  function Fire(ar: Arith, s: Session, task: Task, path: seq<nat>): Option<Fired>
    decreases task
  {
    match task
    case Done(_) => None
    case Reading(i) => if path == [] then FireRead(s, i) else None
    case Joining(f, ts) =>
      if path == [] then FireJoin(f, ts)
      else if path[0] >= |ts| then None
      else
        var inner := Fire(ar, s, ts[path[0]], path[1..]);
        if inner.None? then None
        else Some(Fired(Joining(f, ts[path[0] := inner.value.task]), inner.value.kind))
    case Calling(f, vs) => if path == [] then FireDeliver(ar, s, f, vs) else None
    case Running(body) =>
      if path == [] then (if body.Done? then Some(Fired(body, Return)) else None)
      else
        var inner := Fire(ar, s, body, path[1..]);
        if inner.None? then None else Some(Fired(Running(inner.value.task), inner.value.kind))
  }

  function Processed(r: Request): Slot {
    if r.Evaluate? then Working(Launch(r.expr, []), 0) else Exported
  }

  function Next(ar: Arith, s: Session, ev: Event): Option<Session> {
    match ev
    case Send(r) =>
      // The client holds only the capabilities of requests it has sent.
      if RequestScoped(r, |s.reqs|) then Some(Session(s.reqs + [r], s.slots + [Queued])) else None
    case Process(i) =>
      if i < |s.slots| && i < |s.reqs| && s.slots[i].Queued?
      then Some(s.(slots := s.slots[i := Processed(s.reqs[i])])) else None
    case Resolve(i, path) =>
      if i >= |s.slots| || !s.slots[i].Working? then None else
      var fired := Fire(ar, s, s.slots[i].task, path);
      if fired.None? then None
      else
        var Fired(task, kind) := fired.value;
        Some(s.(slots := s.slots[i := Working(task, s.slots[i].calls + Price(CALLS, kind))]))
  }

  function Run(ar: Arith, s: Session, evs: seq<Event>): Option<Session>
    decreases |evs|
  {
    if evs == [] then Some(s) else
    var next := Next(ar, s, evs[0]);
    if next.None? then None else Run(ar, next.value, evs[1..])
  }
}
