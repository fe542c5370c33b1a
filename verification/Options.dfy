/** Result shapes and sums shared by every component of the model. */
module Options {
  datatype Option<+T> = None | Some(value: T)

  /** A byte as the wire and the buffers hold it. */
  type Byte = b: int | 0 <= b < 256

  type Bytes = seq<Byte>

  function Sum(xs: seq<nat>): nat {
    if xs == [] then 0 else xs[0] + Sum(xs[1..])
  }

  lemma {:induction false} SumUpdate(xs: seq<nat>, k: nat, x: nat)
    requires k < |xs|
    ensures Sum(xs[k := x]) + xs[k] == Sum(xs) + x
  {
    if k == 0 {
      assert xs[k := x][1..] == xs[1..];
    } else {
      assert xs[k := x][1..] == xs[1..][k - 1 := x];
      SumUpdate(xs[1..], k - 1, x);
    }
  }

  lemma {:induction false} SumAppend(xs: seq<nat>, x: nat)
    ensures Sum(xs + [x]) == Sum(xs) + x
  {
    if xs == [] {
      assert [] + [x] == [x];
    } else {
      assert (xs + [x])[1..] == xs[1..] + [x];
      SumAppend(xs[1..], x);
    }
  }

  lemma {:induction false} SumOfZeros(xs: seq<nat>)
    requires forall i :: 0 <= i < |xs| ==> xs[i] == 0
    ensures Sum(xs) == 0
  {
    if xs != [] { SumOfZeros(xs[1..]); }
  }

  lemma {:induction false} SumOfOnes(ws: seq<nat>)
    requires forall i :: 0 <= i < |ws| ==> ws[i] == 1
    ensures Sum(ws) == |ws|
  {
    if ws != [] { SumOfOnes(ws[1..]); }
  }

  // ---------- Sums over maps ----------

  ghost function MapSum<V>(m: map<nat, V>, weight: V -> nat): nat
    decreases |m|
  {
    if m == map[] then 0 else
    var a :| a in m;
    Shrinks(m, a);
    weight(m[a]) + MapSum(m - {a}, weight)
  }

  lemma Shrinks<V>(m: map<nat, V>, a: nat)
    requires a in m
    ensures |m - {a}| < |m|
  {
    assert (m - {a}).Keys == m.Keys - {a};
  }

  lemma {:induction false} MapSumRemove<V>(m: map<nat, V>, weight: V -> nat, a: nat)
    requires a in m
    ensures MapSum(m, weight) == weight(m[a]) + MapSum(m - {a}, weight)
    decreases |m|
  {
    var b :| b in m && MapSum(m, weight) == weight(m[b]) + MapSum(m - {b}, weight);
    if a != b {
      Shrinks(m, a);
      Shrinks(m, b);
      MapSumRemove(m - {b}, weight, a);
      MapSumRemove(m - {a}, weight, b);
      assert m - {a} - {b} == m - {b} - {a};
    }
  }

  lemma MapSumAdd<V>(m: map<nat, V>, weight: V -> nat, a: nat, v: V)
    requires a !in m
    ensures MapSum(m[a := v], weight) == MapSum(m, weight) + weight(v)
  {
    MapSumRemove(m[a := v], weight, a);
    assert m[a := v] - {a} == m;
  }

  lemma MapSumUpdate<V>(m: map<nat, V>, weight: V -> nat, a: nat, v: V)
    requires a in m
    ensures MapSum(m[a := v], weight) + weight(m[a]) == MapSum(m, weight) + weight(v)
  {
    MapSumRemove(m, weight, a);
    assert m[a := v] == (m - {a})[a := v];
    MapSumAdd(m - {a}, weight, a, v);
  }
}
