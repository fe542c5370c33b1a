/**
 The meaning of a calculator session, with no concurrency in it: what each request
 answers when everything is computed left to right, one call at a time.

 A session is a table of requests. A request is named by its position, because the
 capability it returns (a function or a value) is named that way in later requests,
 before or after the answer has come back.
 */
module CalculatorMeaning {
  import opened Options

  /** A double is carried as its 64 bits; the model never looks inside. */
  type Double = n: int | 0 <= n < 0x1_0000_0000_0000_0000

  /** The four operators of the machine. Every claim holds for every choice of them. */
  datatype Arith = Arith(
    add: (Double, Double) -> Double,
    subtract: (Double, Double) -> Double,
    multiply: (Double, Double) -> Double,
    divide: (Double, Double) -> Double)

  datatype Outcome = Value(v: Double) | Failed

  datatype Expr =
    | Literal(n: Double)
    | PreviousResult(value: nat)
    | Parameter(index: nat)
    | Call(func: nat, params: seq<Expr>)
    | Unknown  // a union tag the server was not compiled with

  datatype Request =
    | GetOperator(op: nat)
    | DefFunction(paramCount: int, body: Expr)
    | ClientFunction(run: seq<Double> -> Outcome)  // hosted by the client: a pure partial function
    | Evaluate(expr: Expr)

  type Table = seq<Request>

  /** The constructor stores the signed 32-bit count of the wire in an unsigned field. */
  function Unsigned(n: int): nat {
    n % 0x1_0000_0000
  }

  function Operate(ar: Arith, op: nat, args: seq<Double>): Outcome {
    if |args| != 2 then Failed
    else if op == 0 then Value(ar.add(args[0], args[1]))
    else if op == 1 then Value(ar.subtract(args[0], args[1]))
    else if op == 2 then Value(ar.multiply(args[0], args[1]))
    else if op == 3 then Value(ar.divide(args[0], args[1]))
    else Failed
  }

  ghost predicate AllValues(os: seq<Outcome>) {
    forall i :: 0 <= i < |os| ==> os[i].Value?
  }

  function Values(os: seq<Outcome>): (vs: seq<Double>)
    requires AllValues(os)
    ensures |vs| == |os| && forall i :: 0 <= i < |os| ==> vs[i] == os[i].v
  {
    seq(|os|, i requires 0 <= i < |os| => os[i].v)
  }

  /** Recursive evaluation of `e` with parameters `ps`; a capability sees only what was there before it. */
  ghost function Eval(ar: Arith, t: Table, e: Expr, ps: seq<Double>): Outcome
    decreases |t|, 1, e
  {
    match e
    case Literal(n) => Value(n)
    case PreviousResult(i) => Answer(ar, t, i)
    case Parameter(k) => if k < |ps| then Value(ps[k]) else Failed
    case Call(f, es) =>
      var os := EvalAll(ar, t, es, ps);
      if AllValues(os) then Apply(ar, t, f, Values(os)) else Failed
    case Unknown => Failed
  }

  ghost function EvalAll(ar: Arith, t: Table, es: seq<Expr>, ps: seq<Double>): (os: seq<Outcome>)
    ensures |os| == |es|
    ensures forall i :: 0 <= i < |es| ==> os[i] == Eval(ar, t, es[i], ps)
    decreases |t|, 1, es
  {
    if es == [] then [] else [Eval(ar, t, es[0], ps)] + EvalAll(ar, t, es[1..], ps)
  }

  /** What reading the value capability `i` gives; anything that is not a value capability fails. */
  ghost function Answer(ar: Arith, t: Table, i: nat): Outcome
    decreases |t|, 0
  {
    if i < |t| && t[i].Evaluate? then Eval(ar, t[..i], t[i].expr, []) else Failed
  }

  /** What calling the function capability `f` gives; anything that is not a function fails. */
  ghost function Apply(ar: Arith, t: Table, f: nat, vs: seq<Double>): Outcome
    decreases |t|, 0
  {
    if f >= |t| then Failed else
    match t[f]
    case GetOperator(op) => Operate(ar, op, vs)
    case DefFunction(n, body) => if |vs| == Unsigned(n) then Eval(ar, t[..f], body, vs) else Failed
    case ClientFunction(run) => run(vs)
    case Evaluate(_) => Failed
  }

  // ---------- Scoping ----------

  /** `e` names only capabilities below `k`. */
  predicate Scoped(e: Expr, k: nat) {
    match e
    case PreviousResult(i) => i < k
    case Call(f, es) => f < k && forall i :: 0 <= i < |es| ==> Scoped(es[i], k)
    case _ => true
  }

  predicate RequestScoped(r: Request, k: nat) {
    match r
    case DefFunction(_, body) => Scoped(body, k)
    case Evaluate(e) => Scoped(e, k)
    case _ => true
  }

  /** Every request names only earlier ones. */
  predicate ScopedTable(t: Table) {
    forall i :: 0 <= i < |t| ==> RequestScoped(t[i], i)
  }

  lemma {:induction false} ScopedWeaken(e: Expr, j: nat, k: nat)
    requires Scoped(e, j) && j <= k
    ensures Scoped(e, k)
    decreases e
  {
    if e.Call? {
      forall i | 0 <= i < |e.params| ensures Scoped(e.params[i], k) {
        ScopedWeaken(e.params[i], j, k);
      }
    }
  }

  /** Later requests never change what an expression means. */
  lemma {:induction false} EvalPrefix(ar: Arith, t: Table, k: nat, e: Expr, ps: seq<Double>)
    requires k <= |t| && Scoped(e, k)
    ensures Eval(ar, t[..k], e, ps) == Eval(ar, t, e, ps)
    decreases e
  {
    match e
    case PreviousResult(i) =>
      assert t[..k][..i] == t[..i];
    case Call(f, es) =>
      forall i | 0 <= i < |es| ensures Eval(ar, t[..k], es[i], ps) == Eval(ar, t, es[i], ps) {
        EvalPrefix(ar, t, k, es[i], ps);
      }
      assert EvalAll(ar, t[..k], es, ps) == EvalAll(ar, t, es, ps);
      assert t[..k][..f] == t[..f];
    case _ =>
  }

  lemma AnswerPrefix(ar: Arith, t: Table, k: nat, i: nat)
    requires i < k <= |t|
    ensures Answer(ar, t[..k], i) == Answer(ar, t, i)
  {
    assert t[..k][..i] == t[..i];
  }
}
