/** Real-valued tensors as the model files use them: rows of reals, matrices of rows,
    sums, means and transposes.  A reduction over an empty tensor yields NaN in the
    tensor library; `Scalar` keeps that outcome explicit instead of excluding it. */
module Numerics {

  datatype Option<+T> = None | Some(value: T)

  datatype Result<+T, +E> = Ok(value: T) | Err(error: E)

  /** A floating-point scalar as far as the model needs it: a real number, or NaN. */
  datatype Scalar = Num(v: real) | NaN

  /** IEEE addition: NaN absorbs. */
  function Add(a: Scalar, b: Scalar): (r: Scalar)
    ensures r.NaN? <==> a.NaN? || b.NaN?
    ensures r.Num? ==> r.v == a.v + b.v
  {
    if a.NaN? || b.NaN? then NaN else Num(a.v + b.v)
  }

  function Sub(a: Scalar, b: Scalar): (r: Scalar)
    ensures r.NaN? <==> a.NaN? || b.NaN?
    ensures r.Num? ==> r.v == a.v - b.v
  {
    if a.NaN? || b.NaN? then NaN else Num(a.v - b.v)
  }

  /** Multiplication by a constant coefficient; `0 * NaN` is NaN as in IEEE arithmetic. */
  function Scale(c: real, a: Scalar): (r: Scalar)
    ensures r.NaN? <==> a.NaN?
    ensures r.Num? ==> r.v == c * a.v
  {
    if a.NaN? then NaN else Num(c * a.v)
  }

  /** IEEE division by a non-zero number: NaN stays NaN. */
  function Divide(a: Scalar, d: real): (r: Scalar)
    requires d != 0.0
    ensures r.NaN? <==> a.NaN?
  {
    if a.NaN? then NaN else Num(a.v / d)
  }

  function Mul(a: real, b: real): real
  {
    a * b
  }

  function Square(d: real): real
  {
    Mul(d, d)
  }

  lemma ProductPositive(a: real, b: real)
    requires (a > 0.0 && b > 0.0) || (a < 0.0 && b < 0.0)
    ensures Mul(a, b) > 0.0
  {
  }

  /** A square is non-negative, and positive unless its argument is zero. */
  lemma SquareSign(d: real)
    ensures Square(d) >= 0.0
    ensures Square(d) == 0.0 <==> d == 0.0
  {
    if d != 0.0 {
      ProductPositive(d, d);
    }
  }

  type Row = seq<real>
  type Matrix = seq<Row>

  /** Every row of `m` has exactly `w` entries: `m` is an |m| x w matrix. */
  ghost predicate Rect(m: Matrix, w: nat)
  {
    forall i :: 0 <= i < |m| ==> |m[i]| == w
  }

  /** Sum of a vector, accumulated from the front as a reduction does. */
  function Sum(s: seq<real>): real
  {
    if s == [] then 0.0 else Sum(s[..|s| - 1]) + s[|s| - 1]
  }

  lemma {:induction false} SumNonNegative(s: seq<real>)
    requires forall k :: 0 <= k < |s| ==> s[k] >= 0.0
    ensures Sum(s) >= 0.0
  {
    if s != [] {
      SumNonNegative(s[..|s| - 1]);
    }
  }

  /** A sum of non-negative terms is zero exactly when every term is zero. */
  lemma {:induction false} SumZeroIff(s: seq<real>)
    requires forall k :: 0 <= k < |s| ==> s[k] >= 0.0
    ensures Sum(s) == 0.0 <==> forall k :: 0 <= k < |s| ==> s[k] == 0.0
  {
    if s != [] {
      var init := s[..|s| - 1];
      SumZeroIff(init);
      SumNonNegative(init);
      if Sum(s) == 0.0 {
        forall k | 0 <= k < |s| ensures s[k] == 0.0 {
          if k < |s| - 1 {
            assert s[k] == init[k];
          }
        }
      }
    }
  }

  /** Summing `n` copies of `c` gives `n * c`. */
  lemma {:induction false} SumConstant(s: seq<real>, c: real)
    requires forall k :: 0 <= k < |s| ==> s[k] == c
    ensures Sum(s) == (|s| as real) * c
  {
    if s != [] {
      SumConstant(s[..|s| - 1], c);
    }
  }

  lemma {:induction false} SumAppend(s: seq<real>, t: seq<real>)
    ensures Sum(s + t) == Sum(s) + Sum(t)
  {
    if t == [] {
      assert s + t == s;
    } else {
      assert (s + t)[..|s + t| - 1] == s + t[..|t| - 1];
      SumAppend(s, t[..|t| - 1]);
    }
  }

  /** Sum of all entries, row by row. */
  function MatrixSum(m: Matrix): real
  {
    if m == [] then 0.0 else MatrixSum(m[..|m| - 1]) + Sum(m[|m| - 1])
  }

  /** The mean of an |m| x w matrix; NaN when it has no entries. */
  function Mean(m: Matrix, w: nat): (r: Scalar)
    ensures r.NaN? <==> |m| == 0 || w == 0
  {
    if |m| * w == 0 then NaN else Num(MatrixSum(m) / ((|m| * w) as real))
  }

  /** The w x |m| transpose of an |m| x w matrix. */
  function Transpose(m: Matrix, w: nat): (t: Matrix)
    requires Rect(m, w)
    ensures |t| == w && Rect(t, |m|)
    ensures forall j, i :: 0 <= j < w && 0 <= i < |m| ==> t[j][i] == m[i][j]
  {
    seq(w, j requires 0 <= j < w => seq(|m|, i requires 0 <= i < |m| => m[i][j]))
  }

  /** Row sums that each grow by r[j] grow the total by Sum(r). */
  lemma {:induction false} MatrixSumRowwise(a: Matrix, b: Matrix, r: seq<real>)
    requires |a| == |b| == |r|
    requires forall j :: 0 <= j < |a| ==> Sum(a[j]) == Sum(b[j]) + r[j]
    ensures MatrixSum(a) == MatrixSum(b) + Sum(r)
  {
    if a != [] {
      var n := |a| - 1;
      MatrixSumRowwise(a[..n], b[..n], r[..n]);
    }
  }

  /** Transposing does not change the sum of the entries. */
  lemma {:induction false} MatrixSumTranspose(m: Matrix, w: nat)
    requires Rect(m, w)
    ensures MatrixSum(Transpose(m, w)) == MatrixSum(m)
  {
    if m == [] {
      var t := Transpose(m, w);
      forall j | 0 <= j < w ensures Sum(t[j]) == 0.0 {
        assert t[j] == [];
      }
      ZeroRowsSum(t);
    } else {
      var n := |m| - 1;
      var init := m[..n];
      MatrixSumTranspose(init, w);
      var t, t' := Transpose(m, w), Transpose(init, w);
      forall j | 0 <= j < w ensures Sum(t[j]) == Sum(t'[j]) + m[n][j] {
        assert t[j][..n] == t'[j];
      }
      MatrixSumRowwise(t, t', m[n]);
    }
  }

  lemma {:induction false} ZeroRowsSum(t: Matrix)
    requires forall j :: 0 <= j < |t| ==> Sum(t[j]) == 0.0
    ensures MatrixSum(t) == 0.0
  {
    if t != [] {
      ZeroRowsSum(t[..|t| - 1]);
    }
  }

  /** The mean of a matrix equals the mean of its transpose. */
  lemma MeanTranspose(m: Matrix, w: nat)
    requires Rect(m, w)
    ensures Mean(Transpose(m, w), |m|) == Mean(m, w)
  {
    MatrixSumTranspose(m, w);
    assert w * |m| == |m| * w;
  }
}
