/**
 Replacing calls of stored functions by their bodies: when it keeps the outcome, and exactly
 when it does not. Also the answers the sample client asserts.
 */
module CalculatorInlining {
  import opened Options
  import opened CalculatorMeaning
  import opened CalculatorStatic

  /** `body` with parameter k replaced by `args[k]`; a parameter that is not there stays a failure. */
  function Subst(body: Expr, args: seq<Expr>): Expr
    decreases body
  {
    match body
    case Parameter(k) => if k < |args| then args[k] else Unknown
    case Call(f, es) => Call(f, SubstAll(es, args))
    case _ => body
  }

  function SubstAll(es: seq<Expr>, args: seq<Expr>): (out: seq<Expr>)
    ensures |out| == |es| && forall i :: 0 <= i < |es| ==> out[i] == Subst(es[i], args)
    decreases es
  {
    if es == [] then [] else [Subst(es[0], args)] + SubstAll(es[1..], args)
  }

  predicate Inlinable(t: Table, f: nat, arity: nat) {
    f < |t| && t[f].DefFunction? && Unsigned(t[f].paramCount) == arity
  }

  /** Inlines every call of a stored function, in the arguments and in the bodies, until none is left. */
  function Inline(t: Table, e: Expr): Expr
    decreases |t|, e
  {
    match e
    case Call(f, es) =>
      var args := InlineAll(t, es);
      if f < |t| && t[f].DefFunction? then
        if Unsigned(t[f].paramCount) == |es| then Subst(Inline(t[..f], t[f].body), args) else Unknown
      else Call(f, args)
    case _ => e
  }

  function InlineAll(t: Table, es: seq<Expr>): (out: seq<Expr>)
    ensures |out| == |es| && forall i :: 0 <= i < |es| ==> out[i] == Inline(t, es[i])
    decreases |t|, es
  {
    if es == [] then [] else [Inline(t, es[0])] + InlineAll(t, es[1..])
  }

  /** No call of a stored function is left. */
  predicate Flat(t: Table, e: Expr)
    decreases e
  {
    e.Call? ==> !(e.func < |t| && t[e.func].DefFunction?) && forall i :: 0 <= i < |e.params| ==> Flat(t, e.params[i])
  }

  lemma {:induction false} SubstShape(t: Table, k: nat, body: Expr, args: seq<Expr>)
    requires Scoped(body, k) && Flat(t, body)
    requires forall i :: 0 <= i < |args| ==> Scoped(args[i], k) && Flat(t, args[i])
    ensures Scoped(Subst(body, args), k) && Flat(t, Subst(body, args))
    decreases body
  {
    if body.Call? {
      forall i | 0 <= i < |body.params|
        ensures Scoped(Subst(body.params[i], args), k) && Flat(t, Subst(body.params[i], args))
      {
        SubstShape(t, k, body.params[i], args);
      }
    }
  }

  lemma {:induction false} FlatPrefix(t: Table, k: nat, e: Expr)
    requires k <= |t| && Scoped(e, k) && Flat(t[..k], e)
    ensures Flat(t, e)
    decreases e
  {
    if e.Call? {
      forall i | 0 <= i < |e.params| ensures Flat(t, e.params[i]) { FlatPrefix(t, k, e.params[i]); }
    }
  }

  /** Inlining ends with operators and client functions only, and names nothing new. */
  lemma {:induction false} InlineIsFlat(t: Table, e: Expr)
    requires ScopedTable(t) && Scoped(e, |t|)
    ensures Flat(t, Inline(t, e)) && Scoped(Inline(t, e), |t|)
    decreases |t|, e
  {
    if e.Call? {
      var f, es := e.func, e.params;
      forall i | 0 <= i < |es| ensures Flat(t, Inline(t, es[i])) && Scoped(Inline(t, es[i]), |t|) {
        InlineIsFlat(t, es[i]);
      }
      if Inlinable(t, f, |es|) {
        assert RequestScoped(t[f], f);
        InlineIsFlat(t[..f], t[f].body);
        var body := Inline(t[..f], t[f].body);
        FlatPrefix(t, f, body);
        ScopedWeaken(body, f, |t|);
        SubstShape(t, |t|, body, InlineAll(t, es));
      }
    }
  }

  // ---------- Substitution ----------

  /** Arguments are evaluated with the caller's parameters, the body with its own. */
  lemma {:induction false} SubstMeans(ar: Arith, t: Table, body: Expr, args: seq<Expr>, ps: seq<Double>)
    requires AllValues(EvalAll(ar, t, args, ps))
    ensures Eval(ar, t, Subst(body, args), ps) == Eval(ar, t, body, Values(EvalAll(ar, t, args, ps)))
    decreases body
  {
    if body.Call? {
      var es, vs := body.params, Values(EvalAll(ar, t, args, ps));
      forall i | 0 <= i < |es| ensures Eval(ar, t, Subst(es[i], args), ps) == Eval(ar, t, es[i], vs) {
        SubstMeans(ar, t, es[i], args, ps);
      }
      assert EvalAll(ar, t, SubstAll(es, args), ps) == EvalAll(ar, t, es, vs);
    }
  }

  /** Every argument of every inlined call, at every depth, succeeds. */
  ghost predicate ArgumentsSucceed(ar: Arith, t: Table, e: Expr, ps: seq<Double>)
    decreases |t|, e
  {
    e.Call? ==>
      && (forall i :: 0 <= i < |e.params| ==> ArgumentsSucceed(ar, t, e.params[i], ps))
      && (Inlinable(t, e.func, |e.params|) ==>
            var os := EvalAll(ar, t, e.params, ps);
            AllValues(os) && ArgumentsSucceed(ar, t[..e.func], t[e.func].body, Values(os)))
  }

  /** Inlining preserves meaning whenever all arguments succeed, whether the evaluation then succeeds or not. */
  lemma {:induction false} InliningPreservesMeaning(ar: Arith, t: Table, e: Expr, ps: seq<Double>)
    requires ScopedTable(t) && Scoped(e, |t|) && ArgumentsSucceed(ar, t, e, ps)
    ensures Eval(ar, t, Inline(t, e), ps) == Eval(ar, t, e, ps)
    decreases |t|, e
  {
    if e.Call? {
      var f, es := e.func, e.params;
      var args := InlineAll(t, es);
      forall i | 0 <= i < |es| ensures Eval(ar, t, args[i], ps) == Eval(ar, t, es[i], ps) {
        InliningPreservesMeaning(ar, t, es[i], ps);
      }
      var os := EvalAll(ar, t, es, ps);
      assert EvalAll(ar, t, args, ps) == os;
      if Inlinable(t, f, |es|) {
        assert RequestScoped(t[f], f);
        InliningPreservesMeaning(ar, t[..f], t[f].body, Values(os));
        InlineIsFlat(t[..f], t[f].body);
        var body := Inline(t[..f], t[f].body);
        EvalPrefix(ar, t, f, body, Values(os));
        SubstMeans(ar, t, body, args, ps);
      }
    }
  }

  /** A successful evaluation had only successful arguments, so inlining keeps every successful outcome. */
  lemma {:induction false} SuccessSurvivesInlining(ar: Arith, t: Table, e: Expr, ps: seq<Double>)
    requires ScopedTable(t) && Scoped(e, |t|) && Eval(ar, t, e, ps).Value?
    ensures Eval(ar, t, Inline(t, e), ps) == Eval(ar, t, e, ps)
  {
    SuccessHasGoodArguments(ar, t, e, ps);
    InliningPreservesMeaning(ar, t, e, ps);
  }

  lemma {:induction false} SuccessHasGoodArguments(ar: Arith, t: Table, e: Expr, ps: seq<Double>)
    requires Eval(ar, t, e, ps).Value?
    ensures ArgumentsSucceed(ar, t, e, ps)
    decreases |t|, e
  {
    if e.Call? {
      var os := EvalAll(ar, t, e.params, ps);
      forall i | 0 <= i < |e.params| ensures ArgumentsSucceed(ar, t, e.params[i], ps) {
        assert os[i].Value?;
        SuccessHasGoodArguments(ar, t, e.params[i], ps);
      }
      if Inlinable(t, e.func, |e.params|) {
        SuccessHasGoodArguments(ar, t[..e.func], t[e.func].body, Values(os));
      }
    }
  }

  // ---------- Exactly when inlining one call keeps a failure ----------

  predicate Occurs(k: nat, e: Expr)
    decreases e
  {
    match e
    case Parameter(j) => j == k
    case Call(_, es) => exists i :: 0 <= i < |es| && Occurs(k, es[i])
    case _ => false
  }

  /** The substituted body succeeds when the body is sound and every argument it mentions succeeds. */
  lemma {:induction false} SubstSucceeds(ar: Arith, t: Table, body: Expr, args: seq<Expr>, ps: seq<Double>)
    requires ServerMade(t)
    ensures Eval(ar, t, Subst(body, args), ps).Value? <==>
      SoundEverywhere(Node(t, body, |args|)) && MentionedSucceed(ar, t, body, args, ps)
    decreases body
  {
    var nd := Node(t, body, |args|);
    var cs := Children(nd);
    SoundStepwise(nd);
    match body
    case Literal(_) =>
    case Unknown =>
    case Parameter(_) =>
    case PreviousResult(_) =>
      var zeros: seq<Double> := seq(|args|, i => 0);
      FailureIsStatic(ar, t, body, zeros);
      assert Subst(body, args) == body;
      assert Eval(ar, t, body, zeros) == Eval(ar, t, body, ps);
    case Call(f, es) =>
      forall i | 0 <= i < |es|
        ensures Eval(ar, t, Subst(es[i], args), ps).Value? <==>
          SoundEverywhere(Node(t, es[i], |args|)) && MentionedSucceed(ar, t, es[i], args, ps)
      {
        SubstSucceeds(ar, t, es[i], args, ps);
      }
      CallSucceeds(ar, t, f, SubstAll(es, args), ps);
      forall i | 0 <= i < |es| ensures cs[i] == Node(t, es[i], |args|) {}
      if f < |t| && t[f].DefFunction? { assert cs[|es|] == Node(t[..f], t[f].body, |es|); }
      MentionedInCall(ar, t, f, es, args, ps);
  }

  /** Every argument that `body` mentions succeeds. */
  ghost predicate MentionedSucceed(ar: Arith, t: Table, body: Expr, args: seq<Expr>, ps: seq<Double>) {
    forall k :: 0 <= k < |args| && Occurs(k, body) ==> Eval(ar, t, args[k], ps).Value?
  }

  lemma MentionedInCall(ar: Arith, t: Table, f: nat, es: seq<Expr>, args: seq<Expr>, ps: seq<Double>)
    ensures MentionedSucceed(ar, t, Call(f, es), args, ps) <==>
      forall i :: 0 <= i < |es| ==> MentionedSucceed(ar, t, es[i], args, ps)
  {
    if forall i :: 0 <= i < |es| ==> MentionedSucceed(ar, t, es[i], args, ps) {
      forall k | 0 <= k < |args| && Occurs(k, Call(f, es)) ensures Eval(ar, t, args[k], ps).Value? {
        var i :| 0 <= i < |es| && Occurs(k, es[i]);
        assert MentionedSucceed(ar, t, es[i], args, ps);
      }
    }
  }

  /** Over capabilities made by the server a call succeeds when its arguments do and its callee is sound. */
  lemma CallSucceeds(ar: Arith, t: Table, f: nat, es: seq<Expr>, ps: seq<Double>)
    requires ServerMade(t)
    ensures Eval(ar, t, Call(f, es), ps).Value? <==>
      && (forall i :: 0 <= i < |es| ==> Eval(ar, t, es[i], ps).Value?)
      && Sound(Node(t, Call(f, es), 0))
      && (t[f].DefFunction? ==> SoundEverywhere(Node(t[..f], t[f].body, |es|)))
  {
    var os := EvalAll(ar, t, es, ps);
    if AllValues(os) {
      if f < |t| && t[f].DefFunction? { FailureIsStatic(ar, t[..f], t[f].body, Values(os)); }
    } else {
      var i :| 0 <= i < |es| && !os[i].Value?;
    }
  }

  /**
   The exact condition for one call. Replacing a call of a stored function by its body keeps the
   outcome if and only if all arguments succeed, or one the body mentions fails, or the body fails by
   itself. Otherwise the call fails and the inlined body does not.
   */
  lemma InliningOneCallIsExact(ar: Arith, t: Table, f: nat, es: seq<Expr>, ps: seq<Double>)
    requires ServerMade(t) && ScopedTable(t) && Inlinable(t, f, |es|)
    ensures Eval(ar, t, Subst(t[f].body, es), ps) == Eval(ar, t, Call(f, es), ps) <==>
      || (forall i :: 0 <= i < |es| ==> Eval(ar, t, es[i], ps).Value?)
      || (exists k :: 0 <= k < |es| && Occurs(k, t[f].body) && !Eval(ar, t, es[k], ps).Value?)
      || !SoundEverywhere(Node(t, t[f].body, |es|))
  {
    assert RequestScoped(t[f], f);
    var os := EvalAll(ar, t, es, ps);
    if AllValues(os) {
      SubstMeans(ar, t, t[f].body, es, ps);
      EvalPrefix(ar, t, f, t[f].body, Values(os));
    } else {
      SubstSucceeds(ar, t, t[f].body, es, ps);
    }
  }

  /** So inlining is not always sound: a constant function called on an argument that fails. */
  lemma InliningCanHideAFailure(ar: Arith, c: Double)
    ensures var t := [DefFunction(1, Literal(c))];
      Eval(ar, t, Call(0, [Parameter(0)]), []) == Failed
      && Eval(ar, t, Inline(t, Call(0, [Parameter(0)])), []) == Value(c)
  {
    var t := [DefFunction(1, Literal(c))];
    var e := Call(0, [Parameter(0)]);
    assert EvalAll(ar, t, [Parameter(0)], [])[0] == Failed;
    assert Inline(t, e) == Subst(Inline(t[..0], Literal(c)), InlineAll(t, [Parameter(0)]));
  }

  // ---------- Exactly when inlining everything keeps the outcome ----------

  /**
   Sound in every place that the inlined expression still contains: all of the body of an inlined
   call, but only those of its arguments that the inlined body mentions.
   */
  ghost predicate SoundWhereUsed(nd: Node)
    decreases |nd.t|, nd.e
  {
    var Node(t, e, arity) := nd;
    if !e.Call? then SoundEverywhere(nd) else
    && Sound(nd)
    && (if t[e.func].DefFunction? then
          var body := t[e.func].body;
          && SoundWhereUsed(Node(t[..e.func], body, |e.params|))
          && forall k :: 0 <= k < |e.params| && Occurs(k, Inline(t[..e.func], body)) ==>
               SoundWhereUsed(Node(t, e.params[k], arity))
        else
          forall k :: 0 <= k < |e.params| ==> SoundWhereUsed(Node(t, e.params[k], arity)))
  }

  /** What is left of the callee after inlining succeeds exactly when the callee is sound where it is used. */
  lemma InlinedBodySucceeds(ar: Arith, t: Table, f: nat, n: nat)
    requires ServerMade(t) && ScopedTable(t) && Inlinable(t, f, n)
    requires forall vs: seq<Double> :: |vs| == n ==>
      (Eval(ar, t[..f], Inline(t[..f], t[f].body), vs).Value? <==> SoundWhereUsed(Node(t[..f], t[f].body, n)))
    ensures SoundEverywhere(Node(t, Inline(t[..f], t[f].body), n)) <==> SoundWhereUsed(Node(t[..f], t[f].body, n))
  {
    var body := Inline(t[..f], t[f].body);
    var zeros: seq<Double> := seq(n, i => 0);
    assert RequestScoped(t[f], f);
    InlineIsFlat(t[..f], t[f].body);
    EvalPrefix(ar, t, f, body, zeros);
    FailureIsStatic(ar, t, body, zeros);
  }

  lemma {:induction false} InlinedSucceeds(ar: Arith, t: Table, e: Expr, ps: seq<Double>)
    requires ServerMade(t) && ScopedTable(t) && Scoped(e, |t|)
    ensures Eval(ar, t, Inline(t, e), ps).Value? <==> SoundWhereUsed(Node(t, e, |ps|))
    decreases |t|, e
  {
    if !e.Call? {
      FailureIsStatic(ar, t, e, ps);
    } else {
      var f, es := e.func, e.params;
      var args := InlineAll(t, es);
      forall i | 0 <= i < |es| ensures Eval(ar, t, args[i], ps).Value? <==> SoundWhereUsed(Node(t, es[i], |ps|)) {
        InlinedSucceeds(ar, t, es[i], ps);
      }
      if Inlinable(t, f, |es|) {
        assert RequestScoped(t[f], f);
        forall vs: seq<Double> | |vs| == |es|
          ensures Eval(ar, t[..f], Inline(t[..f], t[f].body), vs).Value?
            <==> SoundWhereUsed(Node(t[..f], t[f].body, |es|))
        {
          InlinedSucceeds(ar, t[..f], t[f].body, vs);
        }
        InlinedBodySucceeds(ar, t, f, |es|);
        SubstSucceeds(ar, t, Inline(t[..f], t[f].body), args, ps);
      } else if !t[f].DefFunction? {
        CallSucceeds(ar, t, f, args, ps);
      }
    }
  }

  /**
   The exact condition for the whole transformation, and a static one: inlining every stored function
   keeps the outcome if and only if the expression is sound everywhere, or is already unsound in a
   place that inlining does not throw away.
   */
  lemma InliningIsExact(ar: Arith, t: Table, e: Expr, ps: seq<Double>)
    requires ServerMade(t) && ScopedTable(t) && Scoped(e, |t|)
    ensures Eval(ar, t, Inline(t, e), ps) == Eval(ar, t, e, ps) <==>
      SoundEverywhere(Node(t, e, |ps|)) || !SoundWhereUsed(Node(t, e, |ps|))
  {
    FailureIsStatic(ar, t, e, ps);
    InlinedSucceeds(ar, t, e, ps);
    if Eval(ar, t, e, ps).Value? { SuccessSurvivesInlining(ar, t, e, ps); }
  }

  // ---------- The sample client's own sessions ----------

  /** A call with two arguments that succeed. */
  lemma CallOfTwo(ar: Arith, t: Table, f: nat, a: Expr, b: Expr, ps: seq<Double>, x: Double, y: Double)
    requires Eval(ar, t, a, ps) == Value(x) && Eval(ar, t, b, ps) == Value(y)
    ensures Eval(ar, t, Call(f, [a, b]), ps) == Apply(ar, t, f, [x, y])
  {
    var os := EvalAll(ar, t, [a, b], ps);
    assert os[0] == Value(x) && os[1] == Value(y);
    assert Values(os) == [x, y];
  }

  /** The constants in the sample's functions, as the client encodes 100, 1 and 2. */
  datatype Constants = Constants(hundred: Double, one: Double, two: Double)

  /** f(x, y) = x * 100 + y and g(x) = f(x, x + 1) * 2, over any arithmetic. */
  lemma SampleFunctions(ar: Arith, c: Constants, x: Double, y: Double)
    ensures var t := SampleTable(c);
      Eval(ar, t, Call(2, [Literal(x), Literal(y)]), []) == Value(ar.add(ar.multiply(x, c.hundred), y))
      && Eval(ar, t, Call(3, [Literal(x)]), [])
         == Value(ar.multiply(ar.add(ar.multiply(x, c.hundred), ar.add(x, c.one)), c.two))
  {
    var t := SampleTable(c);
    assert t[..2][..0] == [] && t[..3][..2] == t[..2];
    SampleF(ar, c, x, y);
    CallOfTwo(ar, t, 2, Literal(x), Literal(y), [], x, y);
    SampleG(ar, c, x);
    var os := EvalAll(ar, t, [Literal(x)], []);
    assert os[0] == Value(x) && Values(os) == [x];
  }

  lemma SampleF(ar: Arith, c: Constants, x: Double, y: Double)
    ensures Eval(ar, SampleTable(c)[..2], SampleTable(c)[2].body, [x, y])
      == Value(ar.add(ar.multiply(x, c.hundred), y))
  {
    var t := SampleTable(c)[..2];
    CallOfTwo(ar, t, 1, Parameter(0), Literal(c.hundred), [x, y], x, c.hundred);
    var product := Call(1, [Parameter(0), Literal(c.hundred)]);
    CallOfTwo(ar, t, 0, product, Parameter(1), [x, y], ar.multiply(x, c.hundred), y);
  }

  lemma SampleG(ar: Arith, c: Constants, x: Double)
    ensures Eval(ar, SampleTable(c)[..3], SampleTable(c)[3].body, [x])
      == Value(ar.multiply(ar.add(ar.multiply(x, c.hundred), ar.add(x, c.one)), c.two))
  {
    var t := SampleTable(c);
    var u := t[..3];
    assert t[..3][..2] == t[..2];
    var next := ar.add(x, c.one);
    CallOfTwo(ar, u, 0, Parameter(0), Literal(c.one), [x], x, c.one);
    SampleF(ar, c, x, next);
    CallOfTwo(ar, u, 2, Parameter(0), Call(0, [Parameter(0), Literal(c.one)]), [x], x, next);
    var inner := ar.add(ar.multiply(x, c.hundred), next);
    CallOfTwo(ar, u, 1, t[3].body.params[0], Literal(c.two), [x], inner, c.two);
  }

  function SampleTable(c: Constants): Table {
    [ GetOperator(0),
      GetOperator(2),
      DefFunction(2, Call(0, [Call(1, [Parameter(0), Literal(c.hundred)]), Parameter(1)])),
      DefFunction(1, Call(1, [Call(2, [Parameter(0), Call(0, [Parameter(0), Literal(c.one)])]), Literal(c.two)]))
    ]
  }

  predicate ExactAt(ar: Arith, double: int -> Double, a: int, b: int) {
    ar.add(double(a), double(b)) == double(a + b) && ar.multiply(double(a), double(b)) == double(a * b)
  }

  /** The arithmetic is exact on small integers, as that of doubles is. */
  ghost predicate ExactOnIntegers(ar: Arith, double: int -> Double) {
    forall a: int, b: int :: 0 <= a < 10000 && 0 <= b < 10000 ==> ExactAt(ar, double, a, b)
  }

  /** The two answers that the sample client asserts: f(12, 34) is 1234, and g(21) is 4244. */
  lemma SampleAnswers(ar: Arith, double: int -> Double)
    requires ExactOnIntegers(ar, double)
    ensures var t := SampleTable(Constants(double(100), double(1), double(2)));
      Eval(ar, t, Call(2, [Literal(double(12)), Literal(double(34))]), []) == Value(double(1234))
      && Eval(ar, t, Call(3, [Literal(double(21))]), []) == Value(double(4244))
  {
    var c := Constants(double(100), double(1), double(2));
    SampleFunctions(ar, c, double(12), double(34));
    SampleFunctions(ar, c, double(21), double(22));
    assert ExactAt(ar, double, 12, 100) && ExactAt(ar, double, 1200, 34);
    assert ExactAt(ar, double, 21, 100) && ExactAt(ar, double, 21, 1);
    assert ExactAt(ar, double, 2100, 22) && ExactAt(ar, double, 2122, 2);
  }
}
