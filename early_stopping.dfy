/** Early stopping of the hand-written training loop: the validation-loss history, the
    patience counter and the epoch at which the loop breaks.  The history holds one mean
    validation loss per epoch run, which is NaN when a batch's loss was. */
module EarlyStopping {
  import opened Numerics

  /** The float comparison `a > bound`: false when `a` is NaN. */
  predicate Exceeds(a: Scalar, bound: real)
  {
    a.Num? && a.v > bound
  }

  /** Epoch k improved on epoch k-1 by more than `minDelta`; epoch 0 never did, and
      neither does an epoch whose loss or predecessor's loss is NaN. */
  predicate Improved(hist: seq<Scalar>, k: nat, minDelta: real)
    requires k < |hist|
  {
    k > 0 && Exceeds(Sub(hist[k - 1], hist[k]), minDelta)
  }

  /** The patience counter after the epochs whose losses are `hist`: reset to zero by an
      improving epoch, incremented by any other; it never exceeds the number of epochs. */
  function PatienceCount(hist: seq<Scalar>, minDelta: real): (r: nat)
    ensures r <= |hist|
  {
    if hist == [] then 0
    else if Improved(hist, |hist| - 1, minDelta) then 0
    else PatienceCount(hist[..|hist| - 1], minDelta) + 1
  }

  /** Whether an epoch is improving depends only on the losses up to it. */
  lemma ImprovedPrefix(hist: seq<Scalar>, m: nat, k: nat, minDelta: real)
    requires k < m <= |hist|
    ensures Improved(hist[..m], k, minDelta) <==> Improved(hist, k, minDelta)
  {
  }

  /** The counter exceeds p exactly when the last p+1 epochs all failed to improve: it
      counts the trailing run of non-improving epochs. */
  lemma {:induction false} PatienceCountStreak(hist: seq<Scalar>, minDelta: real, p: nat)
    ensures PatienceCount(hist, minDelta) > p <==>
            |hist| > p && forall k :: |hist| - 1 - p <= k < |hist| ==> !Improved(hist, k, minDelta)
  {
    if hist != [] {
      var n := |hist| - 1;
      var init := hist[..n];
      if !Improved(hist, n, minDelta) && p > 0 {
        PatienceCountStreak(init, minDelta, p - 1);
        forall k: nat | n - p <= k < n ensures Improved(init, k, minDelta) <==> Improved(hist, k, minDelta) {
          ImprovedPrefix(hist, n, k, minDelta);
        }
      }
    }
  }

  /** The epochs of a run whose every epoch fails to improve: the counter equals the
      number of epochs. */
  lemma {:induction false} PatienceCountNoImprovement(hist: seq<Scalar>, minDelta: real)
    requires forall k :: 0 <= k < |hist| ==> !Improved(hist, k, minDelta)
    ensures PatienceCount(hist, minDelta) == |hist|
  {
    if hist != [] {
      var n := |hist| - 1;
      forall k | 0 <= k < n ensures !Improved(hist[..n], k, minDelta) {
        ImprovedPrefix(hist, n, k, minDelta);
      }
      PatienceCountNoImprovement(hist[..n], minDelta);
    }
  }

  /** Epoch 0 never improves, so after it the counter is 1. */
  lemma FirstEpochCount(hist: seq<Scalar>, minDelta: real)
    requires |hist| == 1
    ensures PatienceCount(hist, minDelta) == 1
  {
    assert hist[..0] == [];
  }

  /** A NaN loss is never an improvement, neither for its own epoch nor for the next:
      that epoch increments the counter, whatever the other loss is. */
  lemma NaNNeverResets(hist: seq<Scalar>, k: nat, minDelta: real)
    requires k < |hist| && (hist[k].NaN? || (k > 0 && hist[k - 1].NaN?))
    ensures !Improved(hist, k, minDelta)
    ensures PatienceCount(hist[..k + 1], minDelta) == PatienceCount(hist[..k], minDelta) + 1
  {
    assert hist[..k + 1][..k] == hist[..k];
    ImprovedPrefix(hist, k + 1, k, minDelta);
  }

  /** The loop breaks after the epochs `hist` when the counter exceeds `patience`. */
  predicate Stops(hist: seq<Scalar>, patience: int, minDelta: real)
  {
    hist != [] && PatienceCount(hist, minDelta) > patience
  }

  /** No epoch before the m-th made the loop break. */
  predicate NoEarlierStop(means: seq<Scalar>, m: nat, patience: int, minDelta: real)
    requires m <= |means|
  {
    forall j :: 1 <= j < m ==> !Stops(means[..j], patience, minDelta)
  }

  /** No epoch of the run so far has made the loop break. */
  predicate NeverStopped(hist: seq<Scalar>, patience: int, minDelta: real)
  {
    forall j :: 1 <= j <= |hist| ==> !Stops(hist[..j], patience, minDelta)
  }

  /** Appending an epoch to a run that never stopped: no earlier epoch stops the longer
      run, and it still has never stopped unless the new epoch stops it. */
  lemma NeverStoppedSnoc(prev: seq<Scalar>, hist: seq<Scalar>, patience: int, minDelta: real)
    requires |hist| == |prev| + 1 && hist[..|prev|] == prev
    requires NeverStopped(prev, patience, minDelta)
    ensures NoEarlierStop(hist, |hist|, patience, minDelta)
    ensures !Stops(hist, patience, minDelta) ==> NeverStopped(hist, patience, minDelta)
  {
    forall j | 1 <= j <= |prev| ensures !Stops(hist[..j], patience, minDelta) {
      assert hist[..j] == prev[..j];
    }
    assert hist[..|hist|] == hist;
  }

  /** The history of a run over at most |means| epochs, from epoch m on: epoch k
      appends means[k], and the loop breaks after the first epoch that stops it. */
  function HistoryFrom(means: seq<Scalar>, m: nat, patience: int, minDelta: real): seq<Scalar>
    requires m <= |means|
    decreases |means| - m
  {
    if m == |means| then means
    else if Stops(means[..m + 1], patience, minDelta) then means[..m + 1]
    else HistoryFrom(means, m + 1, patience, minDelta)
  }

  function History(means: seq<Scalar>, patience: int, minDelta: real): seq<Scalar>
  {
    HistoryFrom(means, 0, patience, minDelta)
  }

  /** A run's history is the first stopping prefix of the losses, or all of them. */
  predicate IsHistory(means: seq<Scalar>, h: seq<Scalar>, patience: int, minDelta: real)
  {
    |h| <= |means| && h == means[..|h|] &&
    NoEarlierStop(means, |h|, patience, minDelta) &&
    (|h| == |means| || Stops(h, patience, minDelta))
  }

  lemma {:induction false} HistoryFromIsHistory(means: seq<Scalar>, m: nat, patience: int, minDelta: real)
    requires m <= |means|
    requires forall j :: 1 <= j <= m ==> !Stops(means[..j], patience, minDelta)
    ensures m <= |HistoryFrom(means, m, patience, minDelta)|
    ensures IsHistory(means, HistoryFrom(means, m, patience, minDelta), patience, minDelta)
    decreases |means| - m
  {
    if m < |means| && !Stops(means[..m + 1], patience, minDelta) {
      HistoryFromIsHistory(means, m + 1, patience, minDelta);
    }
  }

  /** Two histories of the same losses are equal: the loop breaks at the first stopping
      epoch and at no other. */
  lemma HistoryUnique(means: seq<Scalar>, h: seq<Scalar>, h': seq<Scalar>, patience: int, minDelta: real)
    requires IsHistory(means, h, patience, minDelta) && IsHistory(means, h', patience, minDelta)
    ensures h == h'
  {
    if |h| < |h'| || |h'| < |h| {
      assert false;
    }
  }

  /** `History` is the history: a prefix of the per-epoch losses, one entry per epoch
      run, ending at the first epoch whose counter exceeds the patience, or after all
      epochs when none does; and any such prefix is `History`. */
  lemma HistoryCharacterized(means: seq<Scalar>, h: seq<Scalar>, patience: int, minDelta: real)
    ensures h == History(means, patience, minDelta) <==> IsHistory(means, h, patience, minDelta)
  {
    HistoryFromIsHistory(means, 0, patience, minDelta);
    if IsHistory(means, h, patience, minDelta) {
      HistoryUnique(means, h, History(means, patience, minDelta), patience, minDelta);
    }
  }

  /** With a non-negative patience and losses that never improve for its first
      patience+1 epochs, the run stops after exactly patience+1 epochs. */
  lemma NoImprovementStopsAtPatience(means: seq<Scalar>, patience: nat, minDelta: real)
    requires patience < |means|
    requires forall k :: 0 <= k <= patience ==> !Improved(means, k, minDelta)
    ensures var h := History(means, patience, minDelta);
            |h| == patience + 1 && Stops(h, patience, minDelta)
  {
    var h := means[..patience + 1];
    forall j | 1 <= j <= patience + 1 ensures PatienceCount(means[..j], minDelta) == j {
      forall k | 0 <= k < j ensures !Improved(means[..j], k, minDelta) {
        ImprovedPrefix(means, j, k, minDelta);
      }
      PatienceCountNoImprovement(means[..j], minDelta);
    }
    assert PatienceCount(means[..patience + 1], minDelta) == patience + 1;
    assert IsHistory(means, h, patience, minDelta);
    HistoryCharacterized(means, h, patience, minDelta);
  }

  /** A negative patience stops the run after its first epoch. */
  lemma NegativePatienceStopsAtOnce(means: seq<Scalar>, patience: int, minDelta: real)
    requires patience < 0 && means != []
    ensures History(means, patience, minDelta) == means[..1]
  {
    assert PatienceCount(means[..1], minDelta) >= 0;
    assert IsHistory(means, means[..1], patience, minDelta);
    HistoryCharacterized(means, means[..1], patience, minDelta);
  }
}
