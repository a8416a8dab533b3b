/** The reconstruction and KL-divergence terms of the three models' losses.  Samples
    are rows (an image sample is its flattened pixels, so summing over the image axes is
    summing over the row).  `exp` is the elementwise exponential, a parameter. */
module Losses {
  import opened Numerics
  import opened Kernels

  /** Two batches of samples of matching shapes. */
  predicate SameShape(a: Matrix, b: Matrix)
  {
    |a| == |b| && forall i :: 0 <= i < |a| ==> |a[i]| == |b[i]|
  }

  /** Per-sample squared error, summed over the features, without a factor. */
  function SquaredErrors(yTrue: Matrix, yPred: Matrix): (r: seq<real>)
    requires SameShape(yTrue, yPred)
    ensures |r| == |yTrue|
  {
    seq(|yTrue|, i requires 0 <= i < |yTrue| => SqDiff(yTrue[i], yPred[i]))
  }

  /** The squared error of each sample is non-negative, and all of them are zero exactly
      when the prediction equals the target. */
  lemma SquaredErrorsZeroIff(yTrue: Matrix, yPred: Matrix)
    requires SameShape(yTrue, yPred)
    ensures var r := SquaredErrors(yTrue, yPred);
            (forall i :: 0 <= i < |r| ==> r[i] >= 0.0) &&
            ((forall i :: 0 <= i < |r| ==> r[i] == 0.0) <==> yTrue == yPred)
  {
    var r := SquaredErrors(yTrue, yPred);
    forall i | 0 <= i < |r| ensures r[i] >= 0.0 && (r[i] == 0.0 <==> yTrue[i] == yPred[i]) {
      SqDiffZeroIff(yTrue[i], yPred[i]);
    }
    if forall i :: 0 <= i < |r| ==> r[i] == 0.0 {
      assert yTrue == yPred;
    }
  }

  /** The summands of the KL term of one sample: exp(lv) + mu^2 - 1 - lv per latent unit. */
  function KlTerms(exp: real -> real, mu: Row, logVar: Row): (t: Row)
    requires |mu| == |logVar|
    ensures |t| == |mu|
  {
    seq(|mu|, k requires 0 <= k < |mu| => exp(logVar[k]) + Square(mu[k]) - 1.0 - logVar[k])
  }

  /** The KL term summed over the latent units, as the hand-written graph computes it. */
  function KlSum(exp: real -> real, mu: Row, logVar: Row): real
    requires |mu| == |logVar|
  {
    0.5 * Sum(KlTerms(exp, mu, logVar))
  }

  /** The KL term averaged over the latent units, as the Keras model computes it; NaN for
      an empty latent row. */
  function KlMean(exp: real -> real, mu: Row, logVar: Row): (r: Scalar)
    requires |mu| == |logVar|
    ensures r.NaN? <==> mu == []
  {
    if mu == [] then NaN else Num(0.5 * (Sum(KlTerms(exp, mu, logVar)) / (|mu| as real)))
  }

  /** When exp(t) >= 1 + t everywhere, as the true exponential satisfies, every KL
      summand and hence both KL terms are non-negative; at the prior (mu = 0, log-variance
      0, exp(0) = 1) the KL terms are zero. */
  lemma KlNonNegative(exp: real -> real, mu: Row, logVar: Row)
    requires |mu| == |logVar|
    requires forall t :: exp(t) >= 1.0 + t
    ensures KlSum(exp, mu, logVar) >= 0.0
    ensures KlMean(exp, mu, logVar).Num? ==> KlMean(exp, mu, logVar).v >= 0.0
  {
    var t := KlTerms(exp, mu, logVar);
    forall k | 0 <= k < |t| ensures t[k] >= 0.0 {
      SquareSign(mu[k]);
      assert exp(logVar[k]) >= 1.0 + logVar[k];
    }
    SumNonNegative(t);
  }

  lemma KlAtPrior(exp: real -> real, mu: Row, logVar: Row)
    requires |mu| == |logVar| && exp(0.0) == 1.0
    requires forall k :: 0 <= k < |mu| ==> mu[k] == 0.0 && logVar[k] == 0.0
    ensures KlSum(exp, mu, logVar) == 0.0
    ensures mu != [] ==> KlMean(exp, mu, logVar) == Num(0.0)
  {
    var t := KlTerms(exp, mu, logVar);
    forall k | 0 <= k < |t| ensures t[k] == 0.0 {
      assert Square(mu[k]) == 0.0;
    }
    SumConstant(t, 0.0);
  }

  /** Per-sample reconstruction-plus-KL losses of the hand-written graph: half the
      squared error plus alpha times the summed KL term. */
  function KlReconSamples(exp: real -> real, alpha: real, x: Matrix, xHat: Matrix,
                          mu: Matrix, logVar: Matrix): (r: seq<real>)
    requires SameShape(x, xHat) && SameShape(mu, logVar) && |mu| == |x|
    ensures |r| == |x|
  {
    seq(|x|, i requires 0 <= i < |x| =>
      0.5 * SqDiff(x[i], xHat[i]) + alpha * KlSum(exp, mu[i], logVar[i]))
  }

  /** `kl_recon_loss` of the hand-written graph: the batch mean of the per-sample losses;
      NaN for an empty batch. */
  function KlReconLoss(exp: real -> real, alpha: real, x: Matrix, xHat: Matrix,
                       mu: Matrix, logVar: Matrix): (r: Scalar)
    requires SameShape(x, xHat) && SameShape(mu, logVar) && |mu| == |x|
    ensures r.NaN? <==> x == []
  {
    var s := KlReconSamples(exp, alpha, x, xHat, mu, logVar);
    if s == [] then NaN else Num(Sum(s) / (|s| as real))
  }

  /** With a non-negative KL weight and an exponential above its tangent at 0, the
      loss is non-negative. */
  lemma KlReconLossNonNegative(exp: real -> real, alpha: real, x: Matrix, xHat: Matrix,
                               mu: Matrix, logVar: Matrix)
    requires SameShape(x, xHat) && SameShape(mu, logVar) && |mu| == |x|
    requires alpha >= 0.0 && forall t :: exp(t) >= 1.0 + t
    ensures KlReconLoss(exp, alpha, x, xHat, mu, logVar).Num? ==>
            KlReconLoss(exp, alpha, x, xHat, mu, logVar).v >= 0.0
  {
    var s := KlReconSamples(exp, alpha, x, xHat, mu, logVar);
    forall i | 0 <= i < |s| ensures s[i] >= 0.0 {
      KlNonNegative(exp, mu[i], logVar[i]);
      assert alpha * KlSum(exp, mu[i], logVar[i]) >= 0.0;
    }
    SumNonNegative(s);
  }

  /** The per-sample `kl_recon_loss` of the Keras conditional model: half the squared
      error plus alpha times the averaged KL term. */
  function KlReconSample(exp: real -> real, alpha: real, yTrue: Row, yPred: Row, mu: Row, logVar: Row): (r: Scalar)
    requires |yTrue| == |yPred| && |mu| == |logVar|
    ensures r.NaN? <==> mu == []
  {
    var kl := KlMean(exp, mu, logVar);
    if kl.NaN? then NaN else Num(0.5 * SqDiff(yTrue, yPred) + alpha * kl.v)
  }

  /** A perfect reconstruction at the prior costs nothing; otherwise, with a
      non-negative KL weight, the per-sample loss is positive when the reconstruction is
      wrong. */
  lemma KlReconSampleZeroIff(exp: real -> real, alpha: real, yTrue: Row, yPred: Row, mu: Row, logVar: Row)
    requires |yTrue| == |yPred| && |mu| == |logVar| && mu != []
    requires exp(0.0) == 1.0 && forall k :: 0 <= k < |mu| ==> mu[k] == 0.0 && logVar[k] == 0.0
    ensures KlReconSample(exp, alpha, yTrue, yPred, mu, logVar) == Num(0.0) <==> yTrue == yPred
  {
    KlAtPrior(exp, mu, logVar);
    SqDiffZeroIff(yTrue, yPred);
  }
}
