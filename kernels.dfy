/** The kernel and Maximum Mean Discrepancy helpers that each model class defines as
    static methods (`squared_distance`, `compute_kernel`, `compute_mmd`).  The three
    copies are identical, so they are modelled once.  `exp` is a parameter standing
    for the tensor library's elementwise exponential; nothing is assumed about it. */
module Kernels {
  import opened Numerics

  /** The two kernel branches the model classes use. */
  datatype KernelMethod = Rbf | MultiScaleRbf

  /** Sum over features of the squared difference of two rows; never negative. */
  function SqDiff(u: Row, v: Row): (r: real)
    requires |u| == |v|
    ensures r >= 0.0
  {
    if u == [] then 0.0
    else
      var n := |u| - 1;
      SquareSign(u[n] - v[n]);
      SqDiff(u[..n], v[..n]) + Square(u[n] - v[n])
  }

  lemma {:induction false} SqDiffSymmetric(u: Row, v: Row)
    requires |u| == |v|
    ensures SqDiff(u, v) == SqDiff(v, u)
  {
    if u != [] {
      var n := |u| - 1;
      SqDiffSymmetric(u[..n], v[..n]);
      assert Square(u[n] - v[n]) == Square(v[n] - u[n]);
    }
  }

  /** Two rows are at squared distance zero exactly when they are equal. */
  lemma {:induction false} SqDiffZeroIff(u: Row, v: Row)
    requires |u| == |v|
    ensures SqDiff(u, v) == 0.0 <==> u == v
  {
    if u != [] {
      var n := |u| - 1;
      SqDiffZeroIff(u[..n], v[..n]);
      SquareSign(u[n] - v[n]);
      assert u == u[..n] + [u[n]] && v == v[..n] + [v[n]];
      if u == v {
        assert u[..n] == v[..n];
      }
    }
  }

  /** `squared_distance(x, y)`: the |x| x |y| matrix of pairwise squared distances. */
  function SquaredDistance(x: Matrix, y: Matrix, dim: nat): (d: Matrix)
    requires Rect(x, dim) && Rect(y, dim)
    ensures |d| == |x| && Rect(d, |y|)
  {
    seq(|x|, i requires 0 <= i < |x| =>
      seq(|y|, j requires 0 <= j < |y| => SqDiff(x[i], y[j])))
  }

  /** The squared-distance matrix is non-negative, symmetric under swapping its
      arguments (it is transposed), and has zero entries exactly on equal rows. */
  lemma SquaredDistanceProperties(x: Matrix, y: Matrix, dim: nat)
    requires Rect(x, dim) && Rect(y, dim)
    ensures forall i, j :: 0 <= i < |x| && 0 <= j < |y| ==> SquaredDistance(x, y, dim)[i][j] >= 0.0
    ensures forall i, j :: 0 <= i < |x| && 0 <= j < |y| ==>
              (SquaredDistance(x, y, dim)[i][j] == 0.0 <==> x[i] == y[j])
    ensures SquaredDistance(y, x, dim) == Transpose(SquaredDistance(x, y, dim), |y|)
  {
    var d, d' := SquaredDistance(x, y, dim), SquaredDistance(y, x, dim);
    forall i, j | 0 <= i < |x| && 0 <= j < |y|
      ensures d[i][j] >= 0.0 && (d[i][j] == 0.0 <==> x[i] == y[j]) && d'[j][i] == d[i][j]
    {
      SqDiffZeroIff(x[i], y[j]);
      SqDiffSymmetric(x[i], y[j]);
    }
    var t := Transpose(d, |y|);
    assert |d'| == |t|;
    forall j | 0 <= j < |y| ensures d'[j] == t[j] {
      assert |d'[j]| == |t[j]|;
    }
  }

  /** The 19 bandwidths of the multi-scale kernel, in the order the source lists them. */
  type Positive = r: real | r > 0.0 witness 1.0

  const Sigmas: seq<Positive> :=
    [0.000001, 0.00001, 0.0001, 0.001, 0.01, 0.1, 1.0, 5.0, 10.0, 15.0, 20.0, 25.0,
     30.0, 35.0, 100.0, 1000.0, 10000.0, 100000.0, 1000000.0]

  /** The `rbf` entry: the mean squared difference over the `dim` features, divided by
      `dim` once more, negated and exponentiated. */
  function RbfEntry(exp: real -> real, dim: nat, u: Row, v: Row): real
    requires dim > 0 && |u| == dim && |v| == dim
  {
    exp(-(SqDiff(u, v) / (dim as real)) / (dim as real))
  }

  /** Sum over the bandwidths of exp(-d / (2 sigma)). */
  function ScaleSum(exp: real -> real, sigmas: seq<Positive>, d: real): real
  {
    if sigmas == [] then 0.0
    else
      var n := |sigmas| - 1;
      ScaleSum(exp, sigmas[..n], d) + exp(-((1.0 / (2.0 * sigmas[n])) * d))
  }

  /** The `multi-scale-rbf` entry for a pair at squared distance `d`. */
  function MultiScaleEntry(exp: real -> real, d: real): real
  {
    ScaleSum(exp, Sigmas, d) / (|Sigmas| as real)
  }

  /** `compute_kernel(x, y, kind)`. The rbf branch needs a positive width (a mean
      over zero features is NaN there, see `Mmd`). */
  function Kernel(exp: real -> real, kind: KernelMethod, dim: nat, x: Matrix, y: Matrix): (k: Matrix)
    requires Rect(x, dim) && Rect(y, dim)
    requires kind == Rbf ==> dim > 0
    ensures |k| == |x| && Rect(k, |y|)
  {
    match kind
    case Rbf =>
      seq(|x|, i requires 0 <= i < |x| =>
        seq(|y|, j requires 0 <= j < |y| => RbfEntry(exp, dim, x[i], y[j])))
    case MultiScaleRbf =>
      var dist := SquaredDistance(x, y, dim);
      seq(|x|, i requires 0 <= i < |x| =>
        seq(|y|, j requires 0 <= j < |y| => MultiScaleEntry(exp, dist[i][j])))
  }

  /** Each kernel entry depends on the pair of rows only through their squared
      distance: the rbf entry divides it by `dim` twice, the multi-scale entry averages
      exp(-d / (2 sigma)) over the 19 bandwidths. */
  lemma KernelEntries(exp: real -> real, kind: KernelMethod, dim: nat, x: Matrix, y: Matrix, i: nat, j: nat)
    requires Rect(x, dim) && Rect(y, dim)
    requires kind == Rbf ==> dim > 0
    requires i < |x| && j < |y|
    ensures var d := SquaredDistance(x, y, dim)[i][j];
            Kernel(exp, kind, dim, x, y)[i][j] ==
              match kind
              case Rbf => exp(-(d / (dim as real)) / (dim as real))
              case MultiScaleRbf => ScaleSum(exp, Sigmas, d) / 19.0
  {
  }

  /** Both kernels are symmetric: swapping the arguments transposes the matrix. */
  lemma KernelSymmetric(exp: real -> real, kind: KernelMethod, dim: nat, x: Matrix, y: Matrix)
    requires Rect(x, dim) && Rect(y, dim)
    requires kind == Rbf ==> dim > 0
    ensures Kernel(exp, kind, dim, y, x) == Transpose(Kernel(exp, kind, dim, x, y), |y|)
  {
    var k, k' := Kernel(exp, kind, dim, x, y), Kernel(exp, kind, dim, y, x);
    var t := Transpose(k, |y|);
    forall j, i | 0 <= j < |y| && 0 <= i < |x| ensures k'[j][i] == t[j][i] {
      SqDiffSymmetric(x[i], y[j]);
    }
    assert |k'| == |t|;
    forall j | 0 <= j < |y| ensures k'[j] == t[j] {
      assert |k'[j]| == |t[j]|;
    }
  }

  lemma {:induction false} ScaleSumAtZero(exp: real -> real, sigmas: seq<Positive>)
    ensures ScaleSum(exp, sigmas, 0.0) == (|sigmas| as real) * exp(0.0)
  {
    if sigmas != [] {
      var n := |sigmas| - 1;
      ScaleSumAtZero(exp, sigmas[..n]);
      var b: real := 1.0 / (2.0 * sigmas[n]);
      assert -(b * 0.0) == 0.0;
    }
  }

  /** On a pair of equal rows both kernels evaluate to exp(0). */
  lemma KernelOnEqualRows(exp: real -> real, kind: KernelMethod, dim: nat, x: Matrix, y: Matrix, i: nat, j: nat)
    requires Rect(x, dim) && Rect(y, dim)
    requires kind == Rbf ==> dim > 0
    requires i < |x| && j < |y| && x[i] == y[j]
    ensures Kernel(exp, kind, dim, x, y)[i][j] == exp(0.0)
  {
    SqDiffZeroIff(x[i], y[j]);
    match kind
    case Rbf =>
      assert -(0.0 / (dim as real)) / (dim as real) == 0.0;
    case MultiScaleRbf =>
      ScaleSumAtZero(exp, Sigmas);
  }

  /** `compute_mmd(x, y, kind)`: mean(K(x,x)) + mean(K(y,y)) - 2 mean(K(x,y)).
      A mean over an empty batch is NaN, and so is the rbf mean over zero features. */
  function Mmd(exp: real -> real, kind: KernelMethod, dim: nat, x: Matrix, y: Matrix): (r: Scalar)
    requires Rect(x, dim) && Rect(y, dim)
    ensures r.NaN? <==> |x| == 0 || |y| == 0 || (kind == Rbf && dim == 0)
  {
    if kind == Rbf && dim == 0 then NaN
    else
      var kxx := Kernel(exp, kind, dim, x, x);
      var kyy := Kernel(exp, kind, dim, y, y);
      var kxy := Kernel(exp, kind, dim, x, y);
      Sub(Add(Mean(kxx, |x|), Mean(kyy, |y|)), Scale(2.0, Mean(kxy, |y|)))
  }

  /** The discrepancy of a batch with itself is zero (NaN for an empty batch). */
  lemma MmdSelfZero(exp: real -> real, kind: KernelMethod, dim: nat, x: Matrix)
    requires Rect(x, dim)
    ensures Mmd(exp, kind, dim, x, x) ==
            if |x| == 0 || (kind == Rbf && dim == 0) then NaN else Num(0.0)
  {
  }

  /** The discrepancy is symmetric in its two batches, for both kernels. */
  lemma MmdSymmetric(exp: real -> real, kind: KernelMethod, dim: nat, x: Matrix, y: Matrix)
    requires Rect(x, dim) && Rect(y, dim)
    ensures Mmd(exp, kind, dim, x, y) == Mmd(exp, kind, dim, y, x)
  {
    if !(kind == Rbf && dim == 0) {
      var kxy := Kernel(exp, kind, dim, x, y);
      KernelSymmetric(exp, kind, dim, x, y);
      MeanTranspose(kxy, |y|);
    }
  }

  /** The literal example: for x = [[0, 0]] and y = [[1, 1]] the rbf kernel is
      exp(-0.5), because the mean squared difference 1 is divided by the width 2. */
  lemma RbfExample(exp: real -> real)
    ensures Kernel(exp, Rbf, 2, [[0.0, 0.0]], [[1.0, 1.0]]) == [[exp(-0.5)]]
  {
    var u, v := [0.0, 0.0], [1.0, 1.0];
    assert u[..1] == [0.0] && v[..1] == [1.0];
    assert [0.0][..0] == [] && [1.0][..0] == [];
    assert SqDiff(u, v) == 2.0;
    var k := Kernel(exp, Rbf, 2, [u], [v]);
    assert k[0][0] == RbfEntry(exp, 2, u, v) == exp(-0.5);
    assert k[0] == [exp(-0.5)];
  }
}
