/**
 What can be told about an evaluation before it runs: whether it will fail, and how many calls
 it will send.
 */
module CalculatorStatic {
  import opened Options
  import opened CalculatorMeaning
  import opened CalculatorMachine
  import opened CalculatorSchedules

  /** Every capability of the session was made by the server. */
  predicate ServerMade(t: Table) {
    forall i :: 0 <= i < |t| ==> !t[i].ClientFunction?
  }

  // ---------- Failure is static ----------

  /** A place evaluation reaches: an expression, the capabilities it sees, and its number of parameters. */
  datatype Node = Node(t: Table, e: Expr, arity: nat)

  /** The node's own check: index in range, matching arity, known operator, right kind of capability. */
  predicate Sound(nd: Node) {
    match nd.e
    case Literal(_) => true
    case Parameter(k) => k < nd.arity
    case PreviousResult(i) => i < |nd.t| && nd.t[i].Evaluate?
    case Call(f, es) =>
      f < |nd.t| &&
      (match nd.t[f]
       case GetOperator(op) => |es| == 2 && op < 4
       case DefFunction(n, _) => |es| == Unsigned(n)
       case _ => false)
    case Unknown => false
  }

  /** Where evaluation goes from here: the arguments, the called body, the evaluation being read. */
  function Children(nd: Node): (cs: seq<Node>)
    ensures forall c :: 0 <= c < |cs| ==> |cs[c].t| < |nd.t| || (cs[c].t == nd.t && cs[c].e < nd.e)
  {
    match nd.e
    case PreviousResult(i) =>
      if i < |nd.t| && nd.t[i].Evaluate? then [Node(nd.t[..i], nd.t[i].expr, 0)] else []
    case Call(f, es) =>
      seq(|es|, i requires 0 <= i < |es| => Node(nd.t, es[i], nd.arity))
      + if f < |nd.t| && nd.t[f].DefFunction? then [Node(nd.t[..f], nd.t[f].body, |es|)] else []
    case _ => []
  }

  /** The node reached by following `path`. */
  function Reach(nd: Node, path: seq<nat>): Option<Node>
    decreases |path|
  {
    if path == [] then Some(nd)
    else if path[0] < |Children(nd)| then Reach(Children(nd)[path[0]], path[1..])
    else None
  }

  ghost predicate SoundEverywhere(nd: Node) {
    forall path :: Reach(nd, path).Some? ==> Sound(Reach(nd, path).value)
  }

  lemma {:induction false} SoundStepwise(nd: Node)
    ensures SoundEverywhere(nd)
      <==> Sound(nd) && forall c :: 0 <= c < |Children(nd)| ==> SoundEverywhere(Children(nd)[c])
  {
    var cs := Children(nd);
    if SoundEverywhere(nd) {
      assert Reach(nd, []) == Some(nd);
      forall c, path | 0 <= c < |cs| && Reach(cs[c], path).Some? ensures Sound(Reach(cs[c], path).value) {
        assert ([c] + path)[1..] == path;
        assert Reach(nd, [c] + path) == Reach(cs[c], path);
      }
    }
    if Sound(nd) && forall c :: 0 <= c < |cs| ==> SoundEverywhere(cs[c]) {
      forall path | Reach(nd, path).Some? ensures Sound(Reach(nd, path).value) {
        if path != [] { assert SoundEverywhere(cs[path[0]]); }
      }
    }
  }

  /**
   Failure is static: over capabilities made by the server an evaluation succeeds exactly when
   every node it reaches passes its own check. Argument values never matter.
   */
  lemma {:induction false} FailureIsStatic(ar: Arith, t: Table, e: Expr, ps: seq<Double>)
    requires ServerMade(t)
    ensures Eval(ar, t, e, ps).Value? <==> SoundEverywhere(Node(t, e, |ps|))
    decreases |t|, e
  {
    var nd := Node(t, e, |ps|);
    var cs := Children(nd);
    SoundStepwise(nd);
    match e
    case PreviousResult(i) =>
      if i < |t| && t[i].Evaluate? {
        var none: seq<Double> := [];
        FailureIsStatic(ar, t[..i], t[i].expr, none);
        assert cs[0] == Node(t[..i], t[i].expr, |none|);
      }
    case Call(f, es) =>
      var os := EvalAll(ar, t, es, ps);
      forall i | 0 <= i < |es|
        ensures cs[i] == Node(t, es[i], |ps|)
        ensures os[i].Value? <==> SoundEverywhere(cs[i])
      {
        FailureIsStatic(ar, t, es[i], ps);
      }
      if f < |t| && t[f].DefFunction? {
        assert |cs| == |es| + 1 && cs[|es|] == Node(t[..f], t[f].body, |es|);
        if AllValues(os) { FailureIsStatic(ar, t[..f], t[f].body, Values(os)); }
      }
    case _ =>
  }

  // ---------- The number of calls is bounded ----------

  function CallNodes(e: Expr): nat
    decreases e
  {
    if e.Call? then 1 + Sum(CallNodesAll(e.params)) else 0
  }

  function CallNodesAll(es: seq<Expr>): (ns: seq<nat>)
    ensures |ns| == |es| && forall i :: 0 <= i < |es| ==> ns[i] == CallNodes(es[i])
    decreases es
  {
    if es == [] then [] else [CallNodes(es[0])] + CallNodesAll(es[1..])
  }

  function StoredFunctions(t: Table): nat {
    if t == [] then 0 else StoredFunctions(t[..|t| - 1]) + if t[|t| - 1].DefFunction? then 1 else 0
  }

  function Pow(k: nat, n: nat): nat {
    if n == 0 then 1 else k * Pow(k, n - 1)
  }

  /** k + k^2 + ... + k^(n+1) */
  function PowerSum(k: nat, n: nat): nat {
    if n == 0 then k else PowerSum(k, n - 1) + Pow(k, n + 1)
  }

  lemma {:induction false} PowerSumFactors(k: nat, n: nat)
    requires n > 0
    ensures PowerSum(k, n) == k * (1 + PowerSum(k, n - 1))
  {
    if n == 1 {
      assert Pow(k, 2) == k * Pow(k, 1) && Pow(k, 1) == k * Pow(k, 0);
    } else {
      PowerSumFactors(k, n - 1);
      assert Pow(k, n + 1) == k * Pow(k, n);
      Distribute(k, 1 + PowerSum(k, n - 2), Pow(k, n));
      assert PowerSum(k, n - 1) == PowerSum(k, n - 2) + Pow(k, n);
    }
  }

  lemma Distribute(k: nat, a: nat, b: nat)
    ensures k * (a + b) == k * a + k * b
  {}

  lemma {:induction false} PowerSumMonotone(k: nat, m: nat, n: nat)
    requires m <= n
    ensures PowerSum(k, m) <= PowerSum(k, n)
    decreases n
  {
    if m < n { PowerSumMonotone(k, m, n - 1); }
  }

  lemma {:induction false} StoredBelow(t: Table, f: nat)
    requires f < |t|
    ensures StoredFunctions(t[..f]) + (if t[f].DefFunction? then 1 else 0) <= StoredFunctions(t)
  {
    var last := |t| - 1;
    if f < last {
      StoredBelow(t[..last], f);
      assert t[..last][..f] == t[..f];
    }
  }

  /** No stored body has more than `k` call nodes. */
  predicate BodiesWithin(t: Table, k: nat) {
    forall i :: 0 <= i < |t| && t[i].DefFunction? ==> CallNodes(t[i].body) <= k
  }

  lemma Combine(a: nat, b: nat, x: nat, y: nat, unit: nat)
    requires a <= x * unit && b <= y * unit
    ensures a + b <= (x + y) * unit
  {}

  /** A call node costs one call message and what the callee sends, at most `unit` together. */
  lemma {:induction false} CostPerNode(t: Table, e: Expr, unit: nat)
    requires forall f :: 0 <= f < |t| ==> 1 + Callee(CALLS, t, f) <= unit
    requires 1 <= unit
    ensures Weight(CALLS, t, e) <= CallNodes(e) * unit
    decreases e, 1
  {
    if e.Call? {
      var callee := Callee(CALLS, t, e.func);
      assert 1 + callee <= unit;
      var args, nodes := Sum(WeightAll(CALLS, t, e.params)), Sum(CallNodesAll(e.params));
      CostOfAll(t, e.params, unit);
      Combine(1 + callee, args, 1, nodes, unit);
      assert Weight(CALLS, t, e) == 1 + callee + args;
      assert CallNodes(e) == 1 + nodes;
    } else {
      assert Weight(CALLS, t, e) == 0;
    }
  }

  lemma {:induction false} CostOfAll(t: Table, es: seq<Expr>, unit: nat)
    requires forall f :: 0 <= f < |t| ==> 1 + Callee(CALLS, t, f) <= unit
    requires 1 <= unit
    ensures Sum(WeightAll(CALLS, t, es)) <= Sum(CallNodesAll(es)) * unit
    decreases es, 0
  {
    var ws, ns := WeightAll(CALLS, t, es), CallNodesAll(es);
    if es == [] {
      assert Sum(ws) == 0 && Sum(ns) == 0;
    } else {
      CostPerNode(t, es[0], unit);
      CostOfAll(t, es[1..], unit);
      assert ws[1..] == WeightAll(CALLS, t, es[1..]) && ns[1..] == CallNodesAll(es[1..]);
      Combine(ws[0], Sum(ws[1..]), ns[0], Sum(ns[1..]), unit);
    }
  }

  /** With n stored functions and at most k call nodes anywhere: at most k + k^2 + ... + k^(n+1) calls. */
  lemma {:induction false} CostIsBounded(t: Table, e: Expr, k: nat)
    requires BodiesWithin(t, k) && CallNodes(e) <= k
    ensures Weight(CALLS, t, e) <= PowerSum(k, StoredFunctions(t))
    decreases |t|
  {
    var n := StoredFunctions(t);
    var dearest := if n == 0 then 0 else PowerSum(k, n - 1);
    forall f | 0 <= f < |t| ensures 1 + Callee(CALLS, t, f) <= 1 + dearest {
      StoredBelow(t, f);
      if t[f].DefFunction? {
        CostIsBounded(t[..f], t[f].body, k);
        PowerSumMonotone(k, StoredFunctions(t[..f]), n - 1);
      }
    }
    CostPerNode(t, e, 1 + dearest);
    MultiplyMonotone(CallNodes(e), k, 1 + dearest);
    if n > 0 { PowerSumFactors(k, n); }
  }

  lemma MultiplyMonotone(a: nat, b: nat, c: nat)
    requires a <= b
    ensures a * c <= b * c
  {}

  /** The bound holds for what any schedule of any session really sends. */
  lemma SchedulesAreBounded(ar: Arith, evs: seq<Event>, s: Session, i: nat, k: nat)
    requires Run(ar, EMPTY, evs) == Some(s) && i < |s.slots| && s.slots[i].Working?
    requires i < |s.reqs| && s.reqs[i].Evaluate?
    requires BodiesWithin(s.reqs, k) && CallNodes(s.reqs[i].expr) <= k
    ensures s.slots[i].calls <= PowerSum(k, StoredFunctions(s.reqs[..i]))
  {
    ExactCost(ar, evs, s, i);
    CostIsBounded(s.reqs[..i], s.reqs[i].expr, k);
  }
}
