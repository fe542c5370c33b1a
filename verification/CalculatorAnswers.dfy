/**
 What particular requests answer in a reachable session, and how many call messages they send, in
 terms of the other requests alone: previous results, the four operators, stored functions,
 functions of the client, and the sessions of the sample client.
 */
module CalculatorAnswers {
  import opened Options
  import opened CalculatorMeaning
  import opened CalculatorMachine
  import opened CalculatorSchedules
  import opened CalculatorStatic
  import opened CalculatorInlining

  /** Slot `i` evaluates `e` in a session that the events reach, and has answered `o`. */
  ghost predicate Answers(ar: Arith, evs: seq<Event>, s: Session, i: nat, e: Expr, o: Outcome) {
    && Run(ar, EMPTY, evs) == Some(s) && i < |s.reqs| && s.reqs[i] == Evaluate(e)
    && i < |s.slots| && s.slots[i].Working? && s.slots[i].task == Done(o)
  }

  /** An answer is what the expression means over all the requests there are. */
  lemma AnswerIsMeaning(ar: Arith, evs: seq<Event>, s: Session, i: nat, e: Expr, o: Outcome)
    requires Answers(ar, evs, s, i, e, o)
    ensures ScopedTable(s.reqs) && Scoped(e, i) && o == Eval(ar, s.reqs, e, [])
  {
    ScheduleIndependence(ar, evs, s, i, o);
    ReachableScoped(ar, evs, s);
    assert RequestScoped(s.reqs[i], i);
    EvalPrefix(ar, s.reqs, i, e, []);
  }

  /** Expressions that no other request is needed for, and those that name one of the wrong kind. */
  lemma SimpleAnswers(ar: Arith, evs: seq<Event>, s: Session, j: nat, e: Expr, o: Outcome)
    requires Answers(ar, evs, s, j, e, o)
    ensures e.Literal? ==> o == Value(e.n) && s.slots[j].calls == 0
    ensures e.Parameter? || e.Unknown? ==> o == Failed
    ensures e.PreviousResult? ==> e.value < |s.reqs| && (!s.reqs[e.value].Evaluate? ==> o == Failed)
    ensures e.Call? ==> e.func < |s.reqs| && (s.reqs[e.func].Evaluate? ==> o == Failed)
  {
    AnswerIsMeaning(ar, evs, s, j, e, o);
    ExactCost(ar, evs, s, j);
  }

  // ---------- What stays ----------

  /** The requests that a run sends, in order. */
  function SentBy(evs: seq<Event>): seq<Request> {
    if evs == [] then [] else SentNow(evs[0]) + SentBy(evs[1..])
  }

  function SentNow(ev: Event): seq<Request> {
    if ev.Send? then [ev.request] else []
  }

  lemma EventKeepsRequests(ar: Arith, s: Session, ev: Event)
    requires Next(ar, s, ev).Some?
    ensures Next(ar, s, ev).value.reqs == s.reqs + SentNow(ev)
  {
    assert s.reqs + [] == s.reqs;
  }

  lemma Associate(a: seq<Request>, b: seq<Request>, c: seq<Request>)
    ensures (a + b) + c == a + (b + c)
  {}

  lemma {:induction false} RequestsAreSent(ar: Arith, s: Session, evs: seq<Event>)
    requires Run(ar, s, evs).Some?
    ensures Run(ar, s, evs).value.reqs == s.reqs + SentBy(evs)
    decreases |evs|
  {
    if evs != [] {
      EventKeepsRequests(ar, s, evs[0]);
      RequestsAreSent(ar, Next(ar, s, evs[0]).value, evs[1..]);
      Associate(s.reqs, SentNow(evs[0]), SentBy(evs[1..]));
    }
  }

  /** An answer, once given, is there for good, and so is what it cost. */
  lemma {:induction false} AnswersStay(ar: Arith, s: Session, evs: seq<Event>, i: nat)
    requires Run(ar, s, evs).Some? && i < |s.slots| && s.slots[i].Working? && s.slots[i].task.Done?
    ensures i < |Run(ar, s, evs).value.slots| && Run(ar, s, evs).value.slots[i] == s.slots[i]
    decreases |evs|
  {
    if evs != [] {
      AnswersStay(ar, Next(ar, s, evs[0]).value, evs[1..], i);
    }
  }

  // ---------- Previous results ----------

  /** Reading a previous result gives what that request answered, value or failure. */
  lemma PreviousResultIsRead(ar: Arith, evs: seq<Event>, s: Session, i: nat, j: nat, e: Expr, o: Outcome, p: Outcome)
    requires Answers(ar, evs, s, i, e, o) && Answers(ar, evs, s, j, PreviousResult(i), p)
    ensures p == o
  {
    AnswerIsMeaning(ar, evs, s, i, e, o);
    AnswerIsMeaning(ar, evs, s, j, PreviousResult(i), p);
    EvalPrefix(ar, s.reqs, i, e, []);
  }

  /** `e` with the value `v` written in place of the previous result `i`. */
  function WithValue(e: Expr, i: nat, v: Double): Expr
    decreases e
  {
    match e
    case PreviousResult(k) => if k == i then Literal(v) else e
    case Call(f, es) => Call(f, WithValueAll(es, i, v))
    case _ => e
  }

  function WithValueAll(es: seq<Expr>, i: nat, v: Double): (out: seq<Expr>)
    ensures |out| == |es| && forall k :: 0 <= k < |es| ==> out[k] == WithValue(es[k], i, v)
    decreases es
  {
    if es == [] then [] else [WithValue(es[0], i, v)] + WithValueAll(es[1..], i, v)
  }

  lemma {:induction false} WithValueMeans(ar: Arith, t: Table, e: Expr, ps: seq<Double>, i: nat, v: Double)
    requires Eval(ar, t, PreviousResult(i), []) == Value(v)
    ensures Eval(ar, t, WithValue(e, i, v), ps) == Eval(ar, t, e, ps)
    decreases e
  {
    if e.Call? {
      var es := e.params;
      forall k | 0 <= k < |es| ensures Eval(ar, t, WithValue(es[k], i, v), ps) == Eval(ar, t, es[k], ps) {
        WithValueMeans(ar, t, es[k], ps, i, v);
      }
      assert EvalAll(ar, t, WithValueAll(es, i, v), ps) == EvalAll(ar, t, es, ps);
    }
  }

  /** So does reading one anywhere inside an expression: writing the value there gives the same answer. */
  lemma PreviousResultIsItsValue(
    ar: Arith, evs: seq<Event>, s: Session, i: nat, before: Expr, v: Double,
    j: nat, e: Expr, o: Outcome, k: nat, p: Outcome)
    requires Answers(ar, evs, s, i, before, Value(v))
    requires Answers(ar, evs, s, j, e, o) && Answers(ar, evs, s, k, WithValue(e, i, v), p)
    ensures p == o
  {
    AnswerIsMeaning(ar, evs, s, i, before, Value(v));
    AnswerIsMeaning(ar, evs, s, j, e, o);
    AnswerIsMeaning(ar, evs, s, k, WithValue(e, i, v), p);
    EvalPrefix(ar, s.reqs, i, before, []);
    WithValueMeans(ar, s.reqs, e, [], i, v);
  }

  // ---------- Calls ----------

  function Literals(vs: seq<Double>): (es: seq<Expr>)
    ensures |es| == |vs| && forall k :: 0 <= k < |vs| ==> es[k] == Literal(vs[k])
  {
    seq(|vs|, k requires 0 <= k < |vs| => Literal(vs[k]))
  }

  lemma CallOfLiterals(ar: Arith, t: Table, f: nat, vs: seq<Double>)
    ensures Eval(ar, t, Call(f, Literals(vs)), []) == Apply(ar, t, f, vs)
  {
    var os := EvalAll(ar, t, Literals(vs), []);
    assert forall k :: 0 <= k < |vs| ==> os[k] == Value(vs[k]);
    assert Values(os) == vs;
  }

  /** A call of two literals costs its own message and what the callee sends. */
  lemma CostOfLiterals(t: Table, f: nat, vs: seq<Double>)
    ensures Weight(CALLS, t, Call(f, Literals(vs))) == 1 + Callee(CALLS, t, f)
  {
    var ws := WeightAll(CALLS, t, Literals(vs));
    assert forall k :: 0 <= k < |ws| ==> ws[k] == 0;
    SumOfZeros(ws);
  }

  /** The four operators: each takes its two arguments in their order, in one call message. */
  lemma OperatorsAnswer(
    ar: Arith, evs: seq<Event>, s: Session, f: nat, op: nat, j: nat, a: Double, b: Double, o: Outcome)
    requires Answers(ar, evs, s, j, Call(f, [Literal(a), Literal(b)]), o)
    requires f < |s.reqs| && s.reqs[f] == GetOperator(op)
    ensures op == 0 ==> o == Value(ar.add(a, b))
    ensures op == 1 ==> o == Value(ar.subtract(a, b))
    ensures op == 2 ==> o == Value(ar.multiply(a, b))
    ensures op == 3 ==> o == Value(ar.divide(a, b))
    ensures op > 3 ==> o == Failed
    ensures o.Value? ==> s.slots[j].calls == 1
  {
    var e := Call(f, [Literal(a), Literal(b)]);
    assert Literals([a, b]) == [Literal(a), Literal(b)];
    AnswerIsMeaning(ar, evs, s, j, e, o);
    CallOfLiterals(ar, s.reqs, f, [a, b]);
    ExactCost(ar, evs, s, j);
    WeightPrefix(CALLS, s.reqs, j, e);
    CostOfLiterals(s.reqs, f, [a, b]);
  }

  /** With any other number of arguments an operator fails. */
  lemma OperatorsTakeTwo(
    ar: Arith, evs: seq<Event>, s: Session, f: nat, op: nat, j: nat, vs: seq<Double>, o: Outcome)
    requires Answers(ar, evs, s, j, Call(f, Literals(vs)), o)
    requires f < |s.reqs| && s.reqs[f] == GetOperator(op) && |vs| != 2
    ensures o == Failed
  {
    AnswerIsMeaning(ar, evs, s, j, Call(f, Literals(vs)), o);
    CallOfLiterals(ar, s.reqs, f, vs);
  }

  /** A function of the client gets the arguments in their order and answers for itself. */
  lemma ClientFunctionAnswers(
    ar: Arith, evs: seq<Event>, s: Session, f: nat, run: seq<Double> -> Outcome, j: nat, vs: seq<Double>, o: Outcome)
    requires Answers(ar, evs, s, j, Call(f, Literals(vs)), o)
    requires f < |s.reqs| && s.reqs[f] == ClientFunction(run)
    ensures o == run(vs) && (o.Value? ==> s.slots[j].calls == 1)
  {
    var e := Call(f, Literals(vs));
    AnswerIsMeaning(ar, evs, s, j, e, o);
    CallOfLiterals(ar, s.reqs, f, vs);
    ExactCost(ar, evs, s, j);
    WeightPrefix(CALLS, s.reqs, j, e);
    CostOfLiterals(s.reqs, f, vs);
  }

  /** A stored function answers what its body would with the arguments written in. */
  lemma StoredFunctionAnswers(
    ar: Arith, evs: seq<Event>, s: Session, f: nat, n: int, body: Expr, j: nat, vs: seq<Double>, o: Outcome,
    k: nat, p: Outcome)
    requires f < |s.reqs| && s.reqs[f] == DefFunction(n, body)
    requires Answers(ar, evs, s, j, Call(f, Literals(vs)), o) && |vs| == n < 0x1_0000_0000
    requires Answers(ar, evs, s, k, Subst(body, Literals(vs)), p)
    ensures o == p
  {
    AnswerIsMeaning(ar, evs, s, j, Call(f, Literals(vs)), o);
    AnswerIsMeaning(ar, evs, s, k, Subst(body, Literals(vs)), p);
    CallOfLiterals(ar, s.reqs, f, vs);
    var os := EvalAll(ar, s.reqs, Literals(vs), []);
    assert forall i :: 0 <= i < |vs| ==> os[i] == Value(vs[i]);
    assert Values(os) == vs;
    SubstMeans(ar, s.reqs, body, Literals(vs), []);
    assert RequestScoped(s.reqs[f], f);
    EvalPrefix(ar, s.reqs, f, body, vs);
  }

  /** The stored count is unsigned: a constant function takes as many arguments as that, or none at all. */
  lemma ArityIsUnsigned(
    ar: Arith, evs: seq<Event>, s: Session, f: nat, n: int, v: Double, j: nat, vs: seq<Double>, o: Outcome)
    requires f < |s.reqs| && s.reqs[f] == DefFunction(n, Literal(v)) && -0x8000_0000 <= n < 0x8000_0000
    requires Answers(ar, evs, s, j, Call(f, Literals(vs)), o)
    ensures o == if |vs| == (if n < 0 then n + 0x1_0000_0000 else n) then Value(v) else Failed
  {
    AnswerIsMeaning(ar, evs, s, j, Call(f, Literals(vs)), o);
    CallOfLiterals(ar, s.reqs, f, vs);
  }

  // ---------- The sample client's sessions ----------

  /** 123 + 45 - 67 is 101, in two call messages. */
  lemma AddAndSubtract(
    ar: Arith, double: int -> Double, evs: seq<Event>, s: Session, add: nat, subtract: nat, j: nat, o: Outcome)
    requires ExactOnIntegers(ar, double)
    requires ar.subtract(double(168), double(67)) == double(101)
    requires add < |s.reqs| && s.reqs[add] == GetOperator(0)
    requires subtract < |s.reqs| && s.reqs[subtract] == GetOperator(1)
    requires var sum := Call(add, [Literal(double(123)), Literal(double(45))]);
      Answers(ar, evs, s, j, Call(subtract, [sum, Literal(double(67))]), o)
    ensures o == Value(double(101)) && s.slots[j].calls == 2
  {
    var t := s.reqs;
    var sum := Call(add, [Literal(double(123)), Literal(double(45))]);
    var e := Call(subtract, [sum, Literal(double(67))]);
    AnswerIsMeaning(ar, evs, s, j, e, o);
    assert ExactAt(ar, double, 123, 45);
    CallOfTwo(ar, t, add, Literal(double(123)), Literal(double(45)), [], double(123), double(45));
    CallOfTwo(ar, t, subtract, sum, Literal(double(67)), [], double(168), double(67));
    ExactCost(ar, evs, s, j);
    WeightPrefix(CALLS, t, j, e);
    WeightOfTwo(t, add, Literal(double(123)), Literal(double(45)));
    WeightOfTwo(t, subtract, sum, Literal(double(67)));
  }

  lemma SumOfOne(a: nat)
    ensures Sum([a]) == a
  {
    assert [a][1..] == [];
  }

  lemma SumOfTwo(a: nat, b: nat)
    ensures Sum([a, b]) == a + b
  {
    assert [a, b][1..] == [b];
    SumOfOne(b);
  }

  lemma WeightOfTwo(t: Table, f: nat, a: Expr, b: Expr)
    ensures Weight(CALLS, t, Call(f, [a, b]))
      == 1 + Callee(CALLS, t, f) + Weight(CALLS, t, a) + Weight(CALLS, t, b)
  {
    var es := [a, b];
    var ws := WeightAll(CALLS, t, es);
    assert ws == [Weight(CALLS, t, es[0]), Weight(CALLS, t, es[1])];
    SumOfTwo(Weight(CALLS, t, a), Weight(CALLS, t, b));
  }

  lemma WeightOfOne(t: Table, f: nat, a: Expr)
    ensures Weight(CALLS, t, Call(f, [a])) == 1 + Callee(CALLS, t, f) + Weight(CALLS, t, a)
  {
    var es := [a];
    var ws := WeightAll(CALLS, t, es);
    assert ws == [Weight(CALLS, t, es[0])];
    SumOfOne(Weight(CALLS, t, a));
  }

  /** 4 * 6 + 3 is 27 and 4 * 6 + 5 is 29, with the product named before it is there. */
  lemma PipelinedProduct(
    ar: Arith, double: int -> Double, evs: seq<Event>, s: Session, add: nat, multiply: nat,
    product: nat, o: Outcome, c: int, j: nat, p: Outcome)
    requires ExactOnIntegers(ar, double) && 0 <= c < 9000
    requires add < |s.reqs| && s.reqs[add] == GetOperator(0)
    requires multiply < |s.reqs| && s.reqs[multiply] == GetOperator(2)
    requires Answers(ar, evs, s, product, Call(multiply, [Literal(double(4)), Literal(double(6))]), o)
    requires Answers(ar, evs, s, j, Call(add, [PreviousResult(product), Literal(double(c))]), p)
    ensures o == Value(double(24)) && p == Value(double(24 + c))
  {
    OperatorsAnswer(ar, evs, s, multiply, 2, product, double(4), double(6), o);
    assert ExactAt(ar, double, 4, 6) && ExactAt(ar, double, 24, c);
    var t := s.reqs;
    var e := Call(multiply, [Literal(double(4)), Literal(double(6))]);
    AnswerIsMeaning(ar, evs, s, product, e, o);
    EvalPrefix(ar, t, product, e, []);
    AnswerIsMeaning(ar, evs, s, j, Call(add, [PreviousResult(product), Literal(double(c))]), p);
    CallOfTwo(ar, t, add, PreviousResult(product), Literal(double(c)), [], double(24), double(c));
  }

  /** Evaluating f of the sample sends three call messages and g of it six. */
  lemma SampleCosts(c: Constants, x: Double, y: Double)
    ensures Weight(CALLS, SampleTable(c), Call(2, [Literal(x), Literal(y)])) == 3
    ensures Weight(CALLS, SampleTable(c), Call(3, [Literal(x)])) == 6
  {
    var t := SampleTable(c);
    FCosts(c);
    WeightOfTwo(t, 2, Literal(x), Literal(y));
    WeightOfOne(t, 3, Literal(x));
    var u := t[..3];
    assert u[..2] == t[..2];
    var next := Call(0, [Parameter(0), Literal(c.one)]);
    WeightOfTwo(u, 0, Parameter(0), Literal(c.one));
    WeightOfTwo(u, 2, Parameter(0), next);
    WeightOfTwo(u, 1, t[3].body.params[0], Literal(c.two));
  }

  lemma FCosts(c: Constants)
    ensures Weight(CALLS, SampleTable(c)[..2], SampleTable(c)[2].body) == 2
  {
    var t := SampleTable(c)[..2];
    WeightOfTwo(t, 1, Parameter(0), Literal(c.hundred));
    WeightOfTwo(t, 0, Call(1, [Parameter(0), Literal(c.hundred)]), Parameter(1));
  }

  /** In a session in which f and g are defined, a call of g answers the formula, after exactly six messages. */
  lemma SampleSession(ar: Arith, c: Constants, evs: seq<Event>, s: Session, j: nat, x: Double, o: Outcome)
    requires Answers(ar, evs, s, j, Call(3, [Literal(x)]), o) && SampleTable(c) <= s.reqs
    ensures o == Value(ar.multiply(ar.add(ar.multiply(x, c.hundred), ar.add(x, c.one)), c.two))
    ensures s.slots[j].calls == 6
  {
    var e := Call(3, [Literal(x)]);
    AnswerIsMeaning(ar, evs, s, j, e, o);
    assert s.reqs[..4] == SampleTable(c);
    EvalPrefix(ar, s.reqs, 4, e, []);
    SampleFunctions(ar, c, x, x);
    ExactCost(ar, evs, s, j);
    WeightPrefix(CALLS, s.reqs, j, e);
    WeightPrefix(CALLS, s.reqs, 4, e);
    SampleCosts(c, x, x);
  }

  // ---------- The bound is reached ----------

  /** `k` calls of function `f`, one inside the other. */
  function Nest(f: nat, k: nat): Expr {
    if k == 0 then Parameter(0) else Call(f, [Nest(f, k - 1)])
  }

  /** A function of the client and `n` stored ones, each calling the one before it `k` times. */
  function Tower(k: nat, n: nat): (t: Table)
    ensures |t| == n + 1
  {
    if n == 0 then [ClientFunction(vs => if |vs| == 1 then Value(vs[0]) else Failed)]
    else Tower(k, n - 1) + [DefFunction(1, Nest(n - 1, k))]
  }

  lemma NodesOfOne(f: nat, a: Expr)
    ensures CallNodes(Call(f, [a])) == 1 + CallNodes(a)
  {
    var es := [a];
    assert CallNodesAll(es) == [CallNodes(es[0])];
    SumOfOne(CallNodes(a));
  }

  lemma OneMore(k: nat, unit: nat)
    requires k > 0
    ensures k * unit == (k - 1) * unit + unit
  {}

  lemma {:induction false} NestCosts(t: Table, f: nat, k: nat)
    ensures Weight(CALLS, t, Nest(f, k)) == k * (1 + Callee(CALLS, t, f)) && CallNodes(Nest(f, k)) == k
  {
    if k > 0 {
      NestCosts(t, f, k - 1);
      WeightOfOne(t, f, Nest(f, k - 1));
      NodesOfOne(f, Nest(f, k - 1));
      OneMore(k, 1 + Callee(CALLS, t, f));
    }
  }

  lemma {:induction false} TowerShape(k: nat, n: nat)
    ensures var t := Tower(k, n);
      StoredFunctions(t) == n && BodiesWithin(t, k)
  {
    if n > 0 {
      TowerShape(k, n - 1);
      assert Tower(k, n)[..n] == Tower(k, n - 1);
      NestCosts([], n - 1, k);
      assert BodiesWithin(Tower(k, n), k) by {
        var t, u := Tower(k, n), Tower(k, n - 1);
        forall i | 0 <= i < |t| && t[i].DefFunction? ensures CallNodes(t[i].body) <= k {
          if i < n { assert t[i] == u[i]; }
        }
      }
    }
  }

  /** With n stored functions of k call nodes the bound on the calls is reached, for every k and n. */
  lemma {:induction false} BoundIsReached(k: nat, n: nat)
    ensures var t := Tower(k, n);
      && StoredFunctions(t) == n && BodiesWithin(t, k) && CallNodes(Nest(n, k)) == k
      && Weight(CALLS, t, Nest(n, k)) == PowerSum(k, n)
  {
    var t := Tower(k, n);
    TowerShape(k, n);
    NestCosts(t, n, k);
    if n > 0 {
      BoundIsReached(k, n - 1);
      assert t[..n] == Tower(k, n - 1);
      PowerSumFactors(k, n);
    }
  }

  /** The bound for few functions, written out. */
  lemma BoundWrittenOut(k: nat)
    ensures PowerSum(k, 0) == k && PowerSum(k, 1) == k + k * k && PowerSum(k, 2) == k + k * k + k * k * k
  {
    assert Pow(k, 1) == k * Pow(k, 0) == k;
    assert Pow(k, 2) == k * Pow(k, 1) == k * k;
    assert Pow(k, 3) == k * Pow(k, 2) == k * (k * k);
  }
}
