/** Vocabulary shared by the other modules: optional values, bytes and sums. */
module Base {

  datatype Option<+T> = None | Some(value: T)

  type Byte = x: int | 0 <= x < 256

  type Bytes = seq<Byte>

  const MIB: nat := 1048576

  function Min(a: int, b: int): int {
    if a <= b then a else b
  }

  function Max(a: int, b: int): int {
    if a >= b then a else b
  }

  function Sum(xs: seq<int>): int {
    if |xs| == 0 then 0 else Sum(xs[..|xs| - 1]) + xs[|xs| - 1]
  }

  lemma {:induction false} SumAppend(xs: seq<int>, x: int)
    ensures Sum(xs + [x]) == Sum(xs) + x
  {
    assert (xs + [x])[..|xs|] == xs;
  }

  lemma {:induction false} SumUpdate(xs: seq<int>, i: nat, v: int)
    requires i < |xs|
    ensures Sum(xs[i := v]) == Sum(xs) - xs[i] + v
  {
    var n := |xs| - 1;
    if i == n {
      assert xs[i := v][..n] == xs[..n];
    } else {
      SumUpdate(xs[..n], i, v);
      assert xs[i := v][..n] == xs[..n][i := v];
    }
  }

  /** Two sums over sequences that agree everywhere but at one index differ by that entry alone. */
  lemma {:induction false} SumDiffersAt(xs: seq<int>, ys: seq<int>, i: nat)
    requires |xs| == |ys| && i < |xs|
    requires forall j :: 0 <= j < |xs| && j != i ==> xs[j] == ys[j]
    ensures Sum(ys) == Sum(xs) - xs[i] + ys[i]
  {
    assert ys == xs[i := ys[i]];
    SumUpdate(xs, i, ys[i]);
  }

  lemma {:induction false} SumMonotone(xs: seq<int>, ys: seq<int>)
    requires |xs| == |ys|
    requires forall j :: 0 <= j < |xs| ==> xs[j] <= ys[j]
    ensures Sum(xs) <= Sum(ys)
  {
    if |xs| > 0 {
      SumMonotone(xs[..|xs| - 1], ys[..|xs| - 1]);
    }
  }

  lemma {:induction false} SumPointwise(xs: seq<int>, ys: seq<int>, zs: seq<int>)
    requires |xs| == |ys| == |zs|
    requires forall j :: 0 <= j < |xs| ==> zs[j] == xs[j] + ys[j]
    ensures Sum(zs) == Sum(xs) + Sum(ys)
  {
    if |xs| > 0 {
      var n := |xs| - 1;
      SumPointwise(xs[..n], ys[..n], zs[..n]);
    }
  }

  lemma {:induction false} SumNonNegative(xs: seq<int>)
    requires forall j :: 0 <= j < |xs| ==> 0 <= xs[j]
    ensures 0 <= Sum(xs)
  {
    if |xs| > 0 {
      SumNonNegative(xs[..|xs| - 1]);
    }
  }

  lemma {:induction false} SumAtLeast(xs: seq<int>, i: nat)
    requires i < |xs|
    requires forall j :: 0 <= j < |xs| ==> 0 <= xs[j]
    ensures xs[i] <= Sum(xs)
  {
    var n := |xs| - 1;
    if i == n {
      SumNonNegative(xs[..n]);
    } else {
      SumAtLeast(xs[..n], i);
    }
  }
}
