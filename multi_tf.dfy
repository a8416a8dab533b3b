/** The multi-condition model trained by a hand-written loop: its total loss, and the
    loop's state machine (global step, optimizer updates over mini-batches, the
    validation-loss history with early stopping, and the checkpoints it saves).
    The network, the optimizer and the session are not modelled: an optimizer update is
    recorded by the global step it is fed and the rows it covers, and the validation loss
    of a batch is an oracle `validLoss(epoch, lower, upper)`, which is NaN when the
    batch's loss is (a batch missing a condition has a NaN MMD loss, see
    `MmdLoss.MultiConditionLossNaN`). */
module MultiTf {
  import opened Numerics
  import opened Kernels
  import opened MmdLoss
  import opened Losses
  import opened Batching
  import opened EarlyStopping
  import opened TrainConfig

  /** The total loss minimised: the multi-condition MMD loss plus `kl_recon_loss`.
      None when the rows, label rows and conditions do not fit together. */
  function TrvaeLoss(exp: real -> real, kind: KernelMethod, dim: nat, nConditions: nat,
                     alpha: real, beta: real, x: Matrix, xHat: Matrix, mu: Matrix, logVar: Matrix,
                     mmdHl: Matrix, decoderLabels: Matrix): (r: Option<Scalar>)
    requires Rect(mmdHl, dim) && Rect(decoderLabels, nConditions)
    requires SameShape(x, xHat) && SameShape(mu, logVar) && |mu| == |x|
    ensures r.Some? <==> nConditions > 0 && |decoderLabels| == |mmdHl|
  {
    var mmd := MultiConditionLoss(exp, kind, dim, mmdHl, decoderLabels, nConditions, beta);
    if mmd.None? then None
    else Some(Add(mmd.value, KlReconLoss(exp, alpha, x, xHat, mu, logVar)))
  }

  /** The total is defined exactly when the MMD loss is, is NaN when either part is,
      and otherwise is the sum of the two parts. */
  lemma TrvaeLossParts(exp: real -> real, kind: KernelMethod, dim: nat, nConditions: nat,
                       alpha: real, beta: real, x: Matrix, xHat: Matrix, mu: Matrix, logVar: Matrix,
                       mmdHl: Matrix, decoderLabels: Matrix)
    requires Rect(mmdHl, dim) && Rect(decoderLabels, nConditions)
    requires SameShape(x, xHat) && SameShape(mu, logVar) && |mu| == |x|
    ensures var r := TrvaeLoss(exp, kind, dim, nConditions, alpha, beta, x, xHat, mu, logVar, mmdHl,
                               decoderLabels);
            var mmd := MultiConditionLoss(exp, kind, dim, mmdHl, decoderLabels, nConditions, beta);
            var klRecon := KlReconLoss(exp, alpha, x, xHat, mu, logVar);
            (r.Some? <==> nConditions > 0 && |decoderLabels| == |mmdHl|) &&
            (r.Some? ==> (r.value.NaN? <==> mmd.value.NaN? || x == []) &&
                         (r.value.Num? ==> r.value.v == mmd.value.v + klRecon.v))
  {
  }

  /** One optimizer update: the global step fed as the time step, and the rows
      [lower, upper) of the batch. */
  datatype Update = Update(step: nat, lower: nat, upper: nat)

  /** What a call to `train` returns: the epochs run, the validation-loss history and
      whether the loop broke early. */
  datatype Outcome = Outcome(epochs: nat, lossHist: seq<Scalar>, stopped: bool)

  /** The updates of one training epoch run at global step `step`, batch by batch. */
  function EpochUpdates(step: nat, batches: seq<(nat, nat)>): (u: seq<Update>)
    ensures |u| == |batches|
    ensures forall k :: 0 <= k < |u| ==> u[k] == Update(step, batches[k].0, batches[k].1)
  {
    if batches == [] then []
    else
      var n := |batches| - 1;
      EpochUpdates(step, batches[..n]) + [Update(step, batches[n].0, batches[n].1)]
  }

  /** One more batch adds one update at the end. */
  lemma EpochUpdatesSnoc(step: nat, batches: seq<(nat, nat)>, b: (nat, nat))
    ensures EpochUpdates(step, batches + [b]) == EpochUpdates(step, batches) + [Update(step, b.0, b.1)]
  {
    assert (batches + [b])[..|batches|] == batches;
  }

  /** The updates of `epochs` epochs after global step `start`; epoch `it` runs at step
      start + it + 1. */
  function RunUpdates(start: nat, epochs: nat, batches: seq<(nat, nat)>): seq<Update>
  {
    if epochs == 0 then [] else RunUpdates(start, epochs - 1, batches) + EpochUpdates(start + epochs, batches)
  }

  /** Every epoch feeds each mini-batch once: `epochs * |batches|` updates, each at a
      global step of the run and on one of the batches. */
  lemma {:induction false} RunUpdatesContents(start: nat, epochs: nat, batches: seq<(nat, nat)>)
    ensures var u := RunUpdates(start, epochs, batches);
            |u| == epochs * |batches| &&
            forall k :: 0 <= k < |u| ==>
              start < u[k].step <= start + epochs && (u[k].lower, u[k].upper) in batches
  {
    if epochs > 0 {
      RunUpdatesContents(start, epochs - 1, batches);
      var prev := RunUpdates(start, epochs - 1, batches);
      var last := EpochUpdates(start + epochs, batches);
      var u := prev + last;
      assert |u| == (epochs - 1) * |batches| + |batches|;
      forall k | 0 <= k < |u|
        ensures start < u[k].step <= start + epochs && (u[k].lower, u[k].upper) in batches
      {
        if k >= |prev| {
          assert u[k] == last[k - |prev|];
          assert batches[k - |prev|] == (u[k].lower, u[k].upper);
        } else {
          assert u[k] == prev[k];
        }
      }
    }
  }

  /** The summed validation loss of one epoch over its batches, from 0. */
  function BatchTotal(validLoss: (nat, nat, nat) -> Scalar, it: nat, batches: seq<(nat, nat)>): Scalar
  {
    if batches == [] then Num(0.0)
    else
      var n := |batches| - 1;
      Add(BatchTotal(validLoss, it, batches[..n]), validLoss(it, batches[n].0, batches[n].1))
  }

  /** Some batch of epoch `it` has a NaN validation loss. */
  predicate SomeBatchNaN(validLoss: (nat, nat, nat) -> Scalar, it: nat, batches: seq<(nat, nat)>)
  {
    exists k :: 0 <= k < |batches| && validLoss(it, batches[k].0, batches[k].1).NaN?
  }

  /** The epoch's summed validation loss is NaN exactly when some batch's loss is. */
  lemma {:induction false} BatchTotalNaN(validLoss: (nat, nat, nat) -> Scalar, it: nat,
                                         batches: seq<(nat, nat)>)
    ensures BatchTotal(validLoss, it, batches).NaN? <==> SomeBatchNaN(validLoss, it, batches)
  {
    if batches != [] {
      var n := |batches| - 1;
      BatchTotalNaN(validLoss, it, batches[..n]);
      if validLoss(it, batches[n].0, batches[n].1).NaN? {
        assert 0 <= n < |batches| && validLoss(it, batches[n].0, batches[n].1).NaN?;
      }
      if exists k :: 0 <= k < |batches| && validLoss(it, batches[k].0, batches[k].1).NaN? {
        var k :| 0 <= k < |batches| && validLoss(it, batches[k].0, batches[k].1).NaN?;
        if k < n {
          assert batches[..n][k] == batches[k];
        }
      }
    }
  }

  /** The history entry of epoch `it`: the summed validation loss over the validation
      rows' mini-batches, divided by the number of validation rows. */
  function EpochMean(validLoss: (nat, nat, nat) -> Scalar, it: nat, nValid: nat, batchSize: int): Scalar
    requires nValid > 0
  {
    Divide(BatchTotal(validLoss, it, Batches(nValid, batchSize)), nValid as real)
  }

  /** The history entries of the first `count` epochs, were none of them to stop the loop. */
  function EpochMeans(validLoss: (nat, nat, nat) -> Scalar, nValid: nat, batchSize: int,
                      count: nat): (m: seq<Scalar>)
    requires nValid > 0
    ensures |m| == count
  {
    seq(count, k requires 0 <= k < count => EpochMean(validLoss, k, nValid, batchSize))
  }

  /** With fewer than two conditions the MMD loss is the number `beta * 0.0`, not a
      tensor, and a session refuses to fetch it: the first training batch fails or,
      when there is none, the first validation batch. */
  predicate MmdUnfetchable(nConditions: nat, batchSize: int, nTrain: nat, nValid: nat)
  {
    batchSize > 0 && nConditions < 2 && (nTrain > 0 || nValid > 0)
  }

  /** What `train` returns once the model is restored: the validation error first; no
      epochs when `n_epochs <= 0`; a zero batch size fails in the first epoch, and so do
      the first fetch of a number-valued MMD loss and the first mean validation loss
      over zero rows; with `verbose`, an empty training set fails at the report closing
      the first epoch, unless the loop broke before it (the first epoch's counter is 1,
      so it breaks there exactly when the patience is below 1); without validation every
      epoch runs; with it, the run ends after the history of the early-stopping rule.
      The restore and reshape errors belong to other stages and never arise here. */
  function RunOutcome(nTrain: nat, nConditions: nat, useValidation: bool, validData: Option<nat>,
                      nEpochs: int, batchSize: int,
                      patience: int, minDelta: real, verbose: bool,
                      validLoss: (nat, nat, nat) -> Scalar): (r: Result<Outcome, TrainError>)
    ensures r.Err? ==> r.error != MissingCheckpoint && r.error != ShapeMismatch
  {
    var nE := if nEpochs < 0 then 0 else nEpochs;
    var check := CheckValidation(useValidation, validData);
    if check.Err? then Err(check.error)
    else if nE == 0 then Ok(Outcome(0, [], false))
    else if batchSize == 0 then Err(ZeroBatchSize)
    else if MmdUnfetchable(nConditions, batchSize, nTrain, if useValidation then validData.value else 0) then
      Err(UnfetchableMmdLoss)
    else if useValidation && validData.value == 0 then Err(EmptyValidData)
    else if verbose && nTrain == 0 && (!useValidation || patience >= 1) then Err(EmptyTrainReport)
    else if !useValidation then Ok(Outcome(nE, [], false))
    else
      var h := History(EpochMeans(validLoss, validData.value, batchSize, nE), patience, minDelta);
      Ok(Outcome(|h|, h, Stops(h, patience, minDelta)))
  }

  /** The run's errors: the validation error exactly when validation is requested
      without data; a zero batch size, a number-valued MMD loss fetched, an empty
      validation set, or an empty training set under `verbose` only once an epoch
      starts, and in that order. */
  lemma RunOutcomeErrors(nTrain: nat, nConditions: nat, useValidation: bool, validData: Option<nat>,
                         nEpochs: int, batchSize: int,
                         patience: int, minDelta: real, verbose: bool, validLoss: (nat, nat, nat) -> Scalar)
    ensures var r := RunOutcome(nTrain, nConditions, useValidation, validData, nEpochs, batchSize, patience,
                                minDelta, verbose, validLoss);
            (r == Err(MissingValidData) <==> useValidation && validData.None?) &&
            (r == Err(ZeroBatchSize) <==>
               !(useValidation && validData.None?) && nEpochs > 0 && batchSize == 0) &&
            (r == Err(UnfetchableMmdLoss) <==>
               !(useValidation && validData.None?) && nEpochs > 0 &&
               MmdUnfetchable(nConditions, batchSize, nTrain,
                              if useValidation && validData.Some? then validData.value else 0)) &&
            (r == Err(EmptyValidData) <==>
               useValidation && validData == Some(0) && nEpochs > 0 && batchSize != 0 &&
               !(batchSize > 0 && nConditions < 2 && nTrain > 0)) &&
            (r == Err(EmptyTrainReport) <==>
               !(useValidation && validData.None?) && !(useValidation && validData == Some(0)) &&
               nEpochs > 0 && batchSize != 0 && !(batchSize > 0 && nConditions < 2 && useValidation) &&
               verbose && nTrain == 0 && (!useValidation || patience >= 1))
  {
  }

  /** A successful run: at most `n_epochs` epochs; without validation all of them, with
      no history and no early stop; with validation one history entry per epoch run,
      entry k the mean validation loss of epoch k (NaN when a batch's loss is), breaking
      at the first epoch whose patience count exceeds the patience, and running every
      epoch otherwise; an empty training set under `verbose` succeeds only by breaking
      after the first epoch. */
  lemma RunOutcomeEpochs(nTrain: nat, nConditions: nat, useValidation: bool, validData: Option<nat>,
                         nEpochs: int, batchSize: int,
                         patience: int, minDelta: real, verbose: bool, validLoss: (nat, nat, nat) -> Scalar)
    ensures var r := RunOutcome(nTrain, nConditions, useValidation, validData, nEpochs, batchSize, patience,
                                minDelta, verbose, validLoss);
            var nE := if nEpochs < 0 then 0 else nEpochs;
            r.Ok? ==>
              var o := r.value;
              o.epochs <= nE &&
              (!o.stopped ==> o.epochs == nE) &&
              (!useValidation ==> o.epochs == nE && o.lossHist == [] && !o.stopped) &&
              (useValidation && nE > 0 ==>
                 validData.Some? && validData.value > 0 && |o.lossHist| == o.epochs &&
                 (forall k :: 0 <= k < o.epochs ==>
                    o.lossHist[k] == EpochMean(validLoss, k, validData.value, batchSize)) &&
                 NoEarlierStop(o.lossHist, o.epochs, patience, minDelta) &&
                 (o.stopped <==> PatienceCount(o.lossHist, minDelta) > patience)) &&
              (verbose && nTrain == 0 && nE > 0 ==> useValidation && o.epochs == 1 && o.stopped)
  {
    var r := RunOutcome(nTrain, nConditions, useValidation, validData, nEpochs, batchSize, patience,
                        minDelta, verbose, validLoss);
    var nE := if nEpochs < 0 then 0 else nEpochs;
    if r.Ok? && useValidation && nE > 0 {
      var means := EpochMeans(validLoss, validData.value, batchSize, nE);
      var h := History(means, patience, minDelta);
      HistoryCharacterized(means, h, patience, minDelta);
      assert r.value.lossHist == h;
      forall j | 1 <= j < |h| ensures !Stops(h[..j], patience, minDelta) {
        assert h[..j] == means[..j];
      }
      if verbose && nTrain == 0 {
        FirstEpochCount(means[..1], minDelta);
      }
    }
  }

  /** With validation losses that never improve on the previous epoch by more than the
      threshold, and a patience below `n_epochs`, the run stops after exactly
      patience + 1 epochs. */
  lemma RunOutcomeNoImprovement(nTrain: nat, nConditions: nat, validData: nat, nEpochs: int, batchSize: int,
                                patience: nat, minDelta: real, verbose: bool,
                                validLoss: (nat, nat, nat) -> Scalar)
    requires validData > 0 && batchSize != 0 && patience < nEpochs && (nTrain > 0 || !verbose)
    requires nConditions >= 2 || batchSize < 0
    requires forall k: nat :: 0 < k <= patience ==>
               !Exceeds(Sub(EpochMean(validLoss, k - 1, validData, batchSize),
                            EpochMean(validLoss, k, validData, batchSize)), minDelta)
    ensures RunOutcome(nTrain, nConditions, true, Some(validData), nEpochs, batchSize, patience, minDelta,
                       verbose, validLoss) ==
            Ok(Outcome(patience + 1, EpochMeans(validLoss, validData, batchSize, patience + 1), true))
  {
    var means := EpochMeans(validLoss, validData, batchSize, nEpochs);
    forall k | 0 <= k <= patience ensures !Improved(means, k, minDelta) {
      if k > 0 {
        assert means[k - 1] == EpochMean(validLoss, k - 1, validData, batchSize);
      }
    }
    NoImprovementStopsAtPatience(means, patience, minDelta);
    var h := History(means, patience, minDelta);
    HistoryCharacterized(means, h, patience, minDelta);
    assert h == EpochMeans(validLoss, validData, batchSize, patience + 1);
  }

  /** A validation batch with a NaN loss in each of the first patience + 1 epochs (one
      missing a condition, say) stops the run after exactly patience + 1 epochs,
      whatever the threshold and whatever the other batches' losses. */
  lemma RunOutcomeNaNLosses(nTrain: nat, nConditions: nat, validData: nat, nEpochs: int, batchSize: int,
                            patience: nat, minDelta: real, verbose: bool, validLoss: (nat, nat, nat) -> Scalar)
    requires validData > 0 && batchSize != 0 && patience < nEpochs && (nTrain > 0 || !verbose)
    requires nConditions >= 2 || batchSize < 0
    requires forall k: nat :: k <= patience ==> SomeBatchNaN(validLoss, k, Batches(validData, batchSize))
    ensures RunOutcome(nTrain, nConditions, true, Some(validData), nEpochs, batchSize, patience, minDelta,
                       verbose, validLoss) ==
            Ok(Outcome(patience + 1, EpochMeans(validLoss, validData, batchSize, patience + 1), true))
  {
    var batches := Batches(validData, batchSize);
    forall k: nat | k <= patience ensures EpochMean(validLoss, k, validData, batchSize).NaN? {
      BatchTotalNaN(validLoss, k, batches);
    }
    RunOutcomeNoImprovement(nTrain, nConditions, validData, nEpochs, batchSize, patience, minDelta, verbose,
                            validLoss);
  }

  /** The global step a run starts from: zero on an initial run, else the step of the
      last checkpoint, which the restore brings back. */
  function StartStep(initialRun: bool, checkpoints: seq<nat>): nat
  {
    if initialRun || checkpoints == [] then 0 else checkpoints[|checkpoints| - 1]
  }

  /** The summed validation loss of epoch `it`, batch by batch. */
  method ValidationTotal(validLoss: (nat, nat, nat) -> Scalar, it: nat, nValid: nat, batchSize: nat)
    returns (total: Scalar)
    requires batchSize > 0
    ensures total == BatchTotal(validLoss, it, Batches(nValid, batchSize))
  {
    total := Num(0.0);
    var lower := 0;
    ghost var done: seq<(nat, nat)> := [];
    while lower < nValid
      invariant done + BatchesFrom(lower, nValid, batchSize) == Batches(nValid, batchSize)
      invariant total == BatchTotal(validLoss, it, done)
      decreases nValid - lower
    {
      var upper := Min(lower + batchSize, nValid);
      assert BatchesFrom(lower, nValid, batchSize) ==
             [(lower, upper)] + BatchesFrom(lower + batchSize, nValid, batchSize);
      total := Add(total, validLoss(it, lower, upper));
      ghost var prevDone := done;
      done := done + [(lower, upper)];
      assert done[..|done| - 1] == prevDone;
      lower := lower + batchSize;
    }
    assert BatchesFrom(lower, nValid, batchSize) == [];
    assert done == Batches(nValid, batchSize);
  }

  /** What the epoch loop knows when it ends without an error: at most `n_epochs`
      epochs, all of them unless it broke; no history without validation; with it, the
      per-epoch means with no earlier break, and a break exactly when the last epoch
      stops; an empty training set under `verbose` only after breaking at the first
      epoch; and no number-valued MMD loss fetched. */
  ghost predicate FinishedRun(nTrain: nat, nConditions: nat, useValidation: bool, validData: Option<nat>,
                              nEpochs: int, batchSize: int,
                              patience: int, minDelta: real, verbose: bool,
                              validLoss: (nat, nat, nat) -> Scalar,
                              lossHist: seq<Scalar>, epochs: nat, stopped: bool)
  {
    !(useValidation && validData.None?) &&
    (var nE := if nEpochs < 0 then 0 else nEpochs;
     (nE > 0 ==> batchSize != 0) && epochs <= nE && (!stopped ==> epochs == nE)) &&
    (!useValidation ==> lossHist == [] && !stopped) &&
    (useValidation ==> |lossHist| == epochs) &&
    (useValidation && epochs > 0 ==>
       validData.value > 0 && lossHist == EpochMeans(validLoss, validData.value, batchSize, epochs)) &&
    (useValidation ==> NoEarlierStop(lossHist, epochs, patience, minDelta)) &&
    (useValidation ==> (stopped <==> Stops(lossHist, patience, minDelta))) &&
    (verbose && nTrain == 0 && epochs > 0 ==> useValidation && stopped && epochs == 1) &&
    (var nE := if nEpochs < 0 then 0 else nEpochs;
     nE > 0 ==> !MmdUnfetchable(nConditions, batchSize, nTrain,
                                if useValidation then validData.value else 0))
  }

  /** The state a run reaches, once known, is the one `RunOutcome` describes. */
  lemma TrainResult(nTrain: nat, nConditions: nat, useValidation: bool, validData: Option<nat>,
                    nEpochs: int, batchSize: int,
                    patience: int, minDelta: real, verbose: bool, validLoss: (nat, nat, nat) -> Scalar,
                    lossHist: seq<Scalar>, epochs: nat, stopped: bool)
    requires FinishedRun(nTrain, nConditions, useValidation, validData, nEpochs, batchSize, patience,
                         minDelta, verbose, validLoss, lossHist, epochs, stopped)
    ensures RunOutcome(nTrain, nConditions, useValidation, validData, nEpochs, batchSize, patience,
                       minDelta, verbose, validLoss) ==
            Ok(Outcome(epochs, lossHist, stopped))
  {
    var nE := if nEpochs < 0 then 0 else nEpochs;
    if useValidation && epochs == 1 {
      FirstEpochCount(lossHist, minDelta);
    }
    if useValidation && nE > 0 {
      var means := EpochMeans(validLoss, validData.value, batchSize, nE);
      assert lossHist == means[..epochs];
      forall j | 1 <= j < epochs ensures !Stops(means[..j], patience, minDelta) {
        assert means[..j] == lossHist[..j];
      }
      assert IsHistory(means, lossHist, patience, minDelta);
      HistoryCharacterized(means, lossHist, patience, minDelta);
    }
  }

  /** What the epoch loop knows when epoch `it` fails with `e`: the epochs before it
      passed, and the epoch's own failure conditions hold. */
  ghost predicate FailedEpoch(nTrain: nat, nConditions: nat, useValidation: bool, validData: Option<nat>,
                              nEpochs: int, batchSize: int,
                              patience: int, minDelta: real, verbose: bool,
                              validLoss: (nat, nat, nat) -> Scalar,
                              it: nat, e: TrainError, hist: seq<Scalar>, stop: bool)
  {
    !(useValidation && validData.None?) &&
    it < (if nEpochs < 0 then 0 else nEpochs) &&
    (var nValid := if useValidation then validData.value else 0;
     (it > 0 ==> batchSize != 0 && !(verbose && nTrain == 0) &&
                 !MmdUnfetchable(nConditions, batchSize, nTrain, nValid)) &&
     (e == ZeroBatchSize || e == UnfetchableMmdLoss || e == EmptyValidData || e == EmptyTrainReport) &&
     (e == ZeroBatchSize <==> batchSize == 0) &&
     (e == UnfetchableMmdLoss <==> MmdUnfetchable(nConditions, batchSize, nTrain, nValid)) &&
     (e == EmptyValidData <==>
        batchSize != 0 && useValidation && nValid == 0 &&
        !(batchSize > 0 && nConditions < 2 && nTrain > 0)) &&
     (e == EmptyTrainReport <==>
        batchSize != 0 && !(useValidation && nValid == 0) &&
        !MmdUnfetchable(nConditions, batchSize, nTrain, nValid) &&
        verbose && nTrain == 0 && !stop)) &&
    (e == EmptyTrainReport && useValidation ==>
       hist == EpochMeans(validLoss, validData.value, batchSize, it + 1) &&
       (stop <==> Stops(hist, patience, minDelta)))
  }

  /** An epoch that fails, after the epochs before it passed, fails the run with the
      same error. */
  lemma ErrorResult(nTrain: nat, nConditions: nat, useValidation: bool, validData: Option<nat>,
                    nEpochs: int, batchSize: int,
                    patience: int, minDelta: real, verbose: bool, validLoss: (nat, nat, nat) -> Scalar,
                    it: nat, e: TrainError, hist: seq<Scalar>, stop: bool)
    requires FailedEpoch(nTrain, nConditions, useValidation, validData, nEpochs, batchSize, patience,
                         minDelta, verbose, validLoss, it, e, hist, stop)
    ensures RunOutcome(nTrain, nConditions, useValidation, validData, nEpochs, batchSize, patience,
                       minDelta, verbose, validLoss) == Err(e)
  {
    if e == EmptyTrainReport && useValidation {
      FirstEpochCount(hist, minDelta);
    }
  }

  /** Appending the updates of epoch `it` to those of the epochs before it. */
  lemma RunUpdatesStep(u0: seq<Update>, before: seq<Update>, after: seq<Update>,
                       start: nat, it: nat, batches: seq<(nat, nat)>)
    requires before == u0 + RunUpdates(start, it, batches)
    requires after == before + EpochUpdates(start + it + 1, batches)
    ensures after == u0 + RunUpdates(start, it + 1, batches)
  {
  }

  /** Appends epoch `it`'s mean validation loss to the history and applies the patience
      rule: reset on an improvement by more than `minDelta`, otherwise count up. */
  method RecordValidation(validLoss: (nat, nat, nat) -> Scalar, it: nat, nValid: nat, batchSize: int,
                          validTotal: Scalar, lossHist: seq<Scalar>, patienceCnt: nat, minDelta: real)
    returns (hist: seq<Scalar>, cnt: nat)
    requires nValid > 0 && validTotal == BatchTotal(validLoss, it, Batches(nValid, batchSize))
    requires lossHist == EpochMeans(validLoss, nValid, batchSize, it)
    requires patienceCnt == PatienceCount(lossHist, minDelta)
    ensures hist == EpochMeans(validLoss, nValid, batchSize, it + 1) && hist[..it] == lossHist
    ensures cnt == PatienceCount(hist, minDelta)
  {
    hist := lossHist + [Divide(validTotal, nValid as real)];
    assert hist[..it] == lossHist;
    if it > 0 && Exceeds(Sub(hist[it - 1], hist[it]), minDelta) {
      cnt := 0;
    } else {
      cnt := patienceCnt + 1;
    }
  }

  /** The validation state after `it` epochs that did not stop the loop: the history
      holds their mean validation losses and the counter is the patience count. */
  ghost predicate HistState(validLoss: (nat, nat, nat) -> Scalar, nValid: nat, batchSize: int, it: nat,
                            lossHist: seq<Scalar>, patienceCnt: nat, patience: int, minDelta: real)
  {
    nValid > 0 && lossHist == EpochMeans(validLoss, nValid, batchSize, it) &&
    patienceCnt == PatienceCount(lossHist, minDelta) && NeverStopped(lossHist, patience, minDelta)
  }

  /** The loop's validation variables at the head of epoch `it`: no history without
      validation or before the first epoch; a validation set that passed the first
      epoch is non-empty; over a non-empty one, the history of the epochs run. */
  ghost predicate EpochState(useValidation: bool, nValid: nat, batchSize: int,
                             validLoss: (nat, nat, nat) -> Scalar,
                             patience: int, minDelta: real, it: nat, lossHist: seq<Scalar>, patienceCnt: nat)
  {
    (!useValidation || it == 0 ==> lossHist == []) &&
    (useValidation && it > 0 ==> nValid > 0) &&
    (useValidation && nValid > 0 ==>
       HistState(validLoss, nValid, batchSize, it, lossHist, patienceCnt, patience, minDelta))
  }

  /** The validation half of epoch `it`: sum the validation loss over the batches,
      append its mean and apply the patience rule; `stop` says whether the loop breaks. */
  method ValidateEpoch(validLoss: (nat, nat, nat) -> Scalar, it: nat, nValid: nat, batchSize: int,
                       lossHist: seq<Scalar>, patienceCnt: nat, patience: int, minDelta: real)
    returns (hist: seq<Scalar>, cnt: nat, stop: bool)
    requires batchSize != 0
    requires HistState(validLoss, nValid, batchSize, it, lossHist, patienceCnt, patience, minDelta)
    ensures hist == EpochMeans(validLoss, nValid, batchSize, it + 1) && cnt == PatienceCount(hist, minDelta)
    ensures stop <==> Stops(hist, patience, minDelta)
    ensures NoEarlierStop(hist, |hist|, patience, minDelta)
    ensures !stop ==> HistState(validLoss, nValid, batchSize, it + 1, hist, cnt, patience, minDelta)
  {
    var validTotal := Num(0.0);
    if batchSize > 0 {
      validTotal := ValidationTotal(validLoss, it, nValid, batchSize);
    }
    hist, cnt := RecordValidation(validLoss, it, nValid, batchSize, validTotal, lossHist, patienceCnt,
                                  minDelta);
    NeverStoppedSnoc(lossHist, hist, patience, minDelta);
    stop := cnt > patience;
  }

  /** The training state the loop changes: the global step variable, the checkpoints
      saved (each recorded by the global step it holds) and the optimizer updates run. */
  class Trainer {
    var globalStep: nat
    var checkpoints: seq<nat>
    var updates: seq<Update>

    constructor ()
      ensures globalStep == 0 && checkpoints == [] && updates == []
    {
      globalStep := 0;
      checkpoints := [];
      updates := [];
    }

    /** One optimizer update per mini-batch of the training rows, in order, at the
        current global step. */
    method TrainEpoch(nTrain: nat, batchSize: nat)
      requires batchSize > 0
      modifies this
      ensures updates == old(updates) + EpochUpdates(globalStep, Batches(nTrain, batchSize))
      ensures globalStep == old(globalStep) && checkpoints == old(checkpoints)
    {
      var lower := 0;
      ghost var done: seq<(nat, nat)> := [];
      while lower < nTrain
        invariant done + BatchesFrom(lower, nTrain, batchSize) == BatchesFrom(0, nTrain, batchSize)
        invariant updates == old(updates) + EpochUpdates(globalStep, done)
        invariant globalStep == old(globalStep) && checkpoints == old(checkpoints)
        decreases nTrain - lower
      {
        var upper := Min(lower + batchSize, nTrain);
        ghost var rest := BatchesFrom(lower + batchSize, nTrain, batchSize);
        assert BatchesFrom(lower, nTrain, batchSize) == [(lower, upper)] + rest;
        assert done + [(lower, upper)] + rest == done + ([(lower, upper)] + rest);
        EpochUpdatesSnoc(globalStep, done, (lower, upper));
        updates := updates + [Update(globalStep, lower, upper)];
        done := done + [(lower, upper)];
        lower := lower + batchSize;
      }
      assert done == Batches(nTrain, batchSize);
    }

    /** `train`: reset the global step on an initial run or restore the last checkpoint
        otherwise; reject validation without data; then run the epochs. */
    method Train(nTrain: nat, nConditions: nat, useValidation: bool, validData: Option<nat>, nEpochs: int,
                 batchSize: int, earlyStopLimit: int, threshold: real, initialRun: bool, verbose: bool,
                 validLoss: (nat, nat, nat) -> Scalar)
      returns (r: Result<Outcome, TrainError>)
      modifies this
      ensures !initialRun && old(checkpoints) == [] ==>
                r == Err(MissingCheckpoint) && globalStep == old(globalStep) &&
                updates == old(updates) && checkpoints == old(checkpoints)
      ensures initialRun || old(checkpoints) != [] ==>
                r == RunOutcome(nTrain, nConditions, useValidation, validData, nEpochs, batchSize,
                                earlyStopLimit, threshold,
                                verbose, validLoss)
      ensures var start := StartStep(initialRun, old(checkpoints));
              r.Ok? ==>
                globalStep == start + r.value.epochs &&
                updates == old(updates) + RunUpdates(start, r.value.epochs, Batches(nTrain, batchSize)) &&
                checkpoints == old(checkpoints) +
                               (if r.value.stopped then [globalStep, globalStep] else [globalStep])
      ensures var start := StartStep(initialRun, old(checkpoints));
              r == Err(MissingValidData) ==>
                globalStep == start && updates == old(updates) && checkpoints == old(checkpoints)
      ensures var start := StartStep(initialRun, old(checkpoints));
              r == Err(ZeroBatchSize) || r == Err(UnfetchableMmdLoss) ==>
                globalStep == start + 1 && updates == old(updates) && checkpoints == old(checkpoints)
      ensures var start := StartStep(initialRun, old(checkpoints));
              r == Err(EmptyValidData) ==>
                globalStep == start + 1 && checkpoints == old(checkpoints) &&
                updates == old(updates) + RunUpdates(start, 1, Batches(nTrain, batchSize))
      ensures var start := StartStep(initialRun, old(checkpoints));
              r == Err(EmptyTrainReport) ==>
                globalStep == start + 1 && checkpoints == old(checkpoints) &&
                updates == old(updates) + RunUpdates(start, 1, Batches(nTrain, batchSize))
    {
      if initialRun {
        globalStep := 0;
      } else {
        if checkpoints == [] {
          return Err(MissingCheckpoint);
        }
        globalStep := checkpoints[|checkpoints| - 1];
      }
      if useValidation && validData.None? {
        return Err(MissingValidData);
      }
      r := RunEpochs(nTrain, nConditions, useValidation, validData, nEpochs, batchSize, earlyStopLimit,
                     threshold, verbose, validLoss);
    }

    /** The epoch loop of `train`: each epoch bumps the global step, runs the training
        batches and, with validation, appends the mean validation loss and applies the
        patience rule, breaking (after a save) once the counter exceeds the patience;
        a final save follows the loop. */
    method RunEpochs(nTrain: nat, nConditions: nat, useValidation: bool, validData: Option<nat>, nEpochs: int,
                     batchSize: int, earlyStopLimit: int, threshold: real, verbose: bool,
                     validLoss: (nat, nat, nat) -> Scalar)
      returns (r: Result<Outcome, TrainError>)
      requires !(useValidation && validData.None?)
      modifies this
      ensures r == RunOutcome(nTrain, nConditions, useValidation, validData, nEpochs, batchSize,
                              earlyStopLimit, threshold,
                              verbose, validLoss)
      ensures r.Ok? ==>
                globalStep == old(globalStep) + r.value.epochs &&
                updates == old(updates) +
                           RunUpdates(old(globalStep), r.value.epochs, Batches(nTrain, batchSize)) &&
                checkpoints == old(checkpoints) +
                               (if r.value.stopped then [globalStep, globalStep] else [globalStep])
      ensures r == Err(ZeroBatchSize) || r == Err(UnfetchableMmdLoss) ==>
                globalStep == old(globalStep) + 1 && updates == old(updates) && checkpoints == old(checkpoints)
      ensures r == Err(EmptyValidData) || r == Err(EmptyTrainReport) ==>
                globalStep == old(globalStep) + 1 && checkpoints == old(checkpoints) &&
                updates == old(updates) + RunUpdates(old(globalStep), 1, Batches(nTrain, batchSize))
    {
      var err, epochs, lossHist, stopped := EpochLoop(nTrain, nConditions, useValidation, validData, nEpochs,
                                                      batchSize, earlyStopLimit, threshold, verbose, validLoss);
      if err.Some? {
        ErrorResult(nTrain, nConditions, useValidation, validData, nEpochs, batchSize, earlyStopLimit,
                    threshold, verbose, validLoss, 0, err.value, lossHist, stopped);
        return Err(err.value);
      }
      TrainResult(nTrain, nConditions, useValidation, validData, nEpochs, batchSize, earlyStopLimit,
                  threshold, verbose, validLoss, lossHist, epochs, stopped);
      if stopped {
        checkpoints := checkpoints + [globalStep];
      }
      checkpoints := checkpoints + [globalStep];
      r := Ok(Outcome(epochs, lossHist, stopped));
    }

    /** The epochs of `train` up to the first error, the break or the last epoch: the
        run's error, or the epochs run, the history and whether the loop broke, with the
        global step and the updates of those epochs.  The saves are left to the caller. */
    method EpochLoop(nTrain: nat, nConditions: nat, useValidation: bool, validData: Option<nat>, nEpochs: int,
                     batchSize: int, patience: int, minDelta: real, verbose: bool,
                     validLoss: (nat, nat, nat) -> Scalar)
      returns (err: Option<TrainError>, epochs: nat, lossHist: seq<Scalar>, stopped: bool)
      requires !(useValidation && validData.None?)
      modifies this
      ensures checkpoints == old(checkpoints)
      ensures err.Some? ==>
                FailedEpoch(nTrain, nConditions, useValidation, validData, nEpochs, batchSize, patience,
                            minDelta, verbose, validLoss, 0, err.value, lossHist, stopped) &&
                globalStep == old(globalStep) + 1
      ensures err == Some(ZeroBatchSize) || err == Some(UnfetchableMmdLoss) ==> updates == old(updates)
      ensures err == Some(EmptyValidData) || err == Some(EmptyTrainReport) ==>
                updates == old(updates) + RunUpdates(old(globalStep), 1, Batches(nTrain, batchSize))
      ensures err.None? ==>
                FinishedRun(nTrain, nConditions, useValidation, validData, nEpochs, batchSize, patience,
                            minDelta, verbose, validLoss, lossHist, epochs, stopped) &&
                globalStep == old(globalStep) + epochs &&
                updates == old(updates) + RunUpdates(old(globalStep), epochs, Batches(nTrain, batchSize))
    {
      lossHist := [];
      var patienceCnt: nat := 0;
      var nE: nat := if nEpochs < 0 then 0 else nEpochs;
      var nValid: nat := if useValidation then validData.value else 0;
      ghost var start := globalStep;
      stopped, err, epochs := false, None, 0;
      var it: nat := 0;
      while it < nE
        invariant it <= nE && err.None?
        invariant globalStep == start + it && checkpoints == old(checkpoints)
        invariant updates == old(updates) + RunUpdates(start, it, Batches(nTrain, batchSize))
        invariant it > 0 ==> batchSize != 0 && !(verbose && nTrain == 0) &&
                             !MmdUnfetchable(nConditions, batchSize, nTrain, nValid)
        invariant EpochState(useValidation, nValid, batchSize, validLoss, patience, minDelta, it,
                             lossHist, patienceCnt)
      {
        err, lossHist, patienceCnt, stopped :=
          RunEpoch(nTrain, nConditions, useValidation, nValid, batchSize, patience, minDelta,
                   verbose, validLoss,
                   it, lossHist, patienceCnt, start, old(updates));
        if err.Some? {
          // every error arises in the first epoch
          assert it == 0;
          return;
        }
        if stopped {
          break;
        }
        it := it + 1;
      }
      assert useValidation && !stopped && it > 0 ==>
               NoEarlierStop(lossHist, it, patience, minDelta) && lossHist[..|lossHist|] == lossHist;
      epochs := if stopped then it + 1 else it;
    }

    /** The training half of epoch `it`: fail on a zero batch size, fail at the first
        training batch on a number-valued MMD loss, or run one update per mini-batch. */
    method TrainBatches(nTrain: nat, nConditions: nat, batchSize: int, ghost start: nat, ghost it: nat,
                        ghost u0: seq<Update>)
      returns (err: Option<TrainError>)
      requires globalStep == start + it + 1 && updates == u0 + RunUpdates(start, it, Batches(nTrain, batchSize))
      modifies this
      ensures globalStep == old(globalStep) && checkpoints == old(checkpoints)
      ensures err.None? || err == Some(ZeroBatchSize) || err == Some(UnfetchableMmdLoss)
      ensures err == Some(ZeroBatchSize) <==> batchSize == 0
      ensures err == Some(UnfetchableMmdLoss) <==> batchSize > 0 && nConditions < 2 && nTrain > 0
      ensures err.Some? ==> updates == old(updates)
      ensures err.None? ==> updates == u0 + RunUpdates(start, it + 1, Batches(nTrain, batchSize))
    {
      if batchSize == 0 {
        return Some(ZeroBatchSize);
      } else if batchSize > 0 && nConditions < 2 && nTrain > 0 {
        return Some(UnfetchableMmdLoss);
      }
      ghost var before := updates;
      if batchSize > 0 {
        TrainEpoch(nTrain, batchSize);
      } else {
        // a negative step gives no batches and no updates
        assert EpochUpdates(globalStep, Batches(nTrain, batchSize)) == [];
        assert updates == before + [];
      }
      RunUpdatesStep(u0, before, updates, start, it, Batches(nTrain, batchSize));
      err := None;
    }

    /** One epoch: bump the global step, fail on a zero batch size, fail at the first
        training batch on a number-valued MMD loss, train on every mini-batch, then, with
        validation, fail on an empty validation set or at the first validation batch on a
        number-valued MMD loss, or record the epoch's mean validation loss and apply the
        patience rule; unless that breaks the loop, the verbose report fails on an empty
        training set. */
    method RunEpoch(nTrain: nat, nConditions: nat, useValidation: bool, nValid: nat, batchSize: int,
                    patience: int, minDelta: real, verbose: bool, validLoss: (nat, nat, nat) -> Scalar,
                    it: nat, lossHist: seq<Scalar>, patienceCnt: nat, ghost start: nat, ghost u0: seq<Update>)
      returns (err: Option<TrainError>, hist: seq<Scalar>, cnt: nat, stop: bool)
      requires globalStep == start + it && updates == u0 + RunUpdates(start, it, Batches(nTrain, batchSize))
      requires it > 0 ==> batchSize != 0
      requires EpochState(useValidation, nValid, batchSize, validLoss, patience, minDelta, it, lossHist,
                          patienceCnt)
      modifies this
      ensures globalStep == start + it + 1 && checkpoints == old(checkpoints)
      ensures err.None? || err == Some(ZeroBatchSize) || err == Some(UnfetchableMmdLoss) ||
              err == Some(EmptyValidData) || err == Some(EmptyTrainReport)
      ensures err == Some(ZeroBatchSize) <==> batchSize == 0
      ensures err == Some(UnfetchableMmdLoss) <==>
                MmdUnfetchable(nConditions, batchSize, nTrain, if useValidation then nValid else 0)
      ensures err == Some(EmptyValidData) <==>
                batchSize != 0 && useValidation && nValid == 0 &&
                !(batchSize > 0 && nConditions < 2 && nTrain > 0)
      ensures err == Some(EmptyTrainReport) <==>
                batchSize != 0 && !(useValidation && nValid == 0) &&
                !MmdUnfetchable(nConditions, batchSize, nTrain, if useValidation then nValid else 0) &&
                verbose && nTrain == 0 && !stop
      ensures err == Some(ZeroBatchSize) || err == Some(UnfetchableMmdLoss) ==> updates == old(updates)
      ensures err != Some(ZeroBatchSize) && err != Some(UnfetchableMmdLoss) ==>
                updates == u0 + RunUpdates(start, it + 1, Batches(nTrain, batchSize))
      ensures err.None? && !useValidation ==> hist == [] && !stop
      ensures (err.None? || err == Some(EmptyTrainReport)) && useValidation ==>
                hist == EpochMeans(validLoss, nValid, batchSize, it + 1) &&
                (stop <==> Stops(hist, patience, minDelta)) &&
                NoEarlierStop(hist, |hist|, patience, minDelta)
      ensures err.None? && !stop ==>
                EpochState(useValidation, nValid, batchSize, validLoss, patience, minDelta, it + 1, hist, cnt)
    {
      globalStep := globalStep + 1;
      hist, cnt, stop := lossHist, patienceCnt, false;
      err := TrainBatches(nTrain, nConditions, batchSize, start, it, u0);
      if err.None? {
        if useValidation && nValid == 0 {
          err := Some(EmptyValidData);
        } else if useValidation && batchSize > 0 && nConditions < 2 {
          err := Some(UnfetchableMmdLoss);
        } else if useValidation {
          hist, cnt, stop := ValidateEpoch(validLoss, it, nValid, batchSize, lossHist, patienceCnt,
                                           patience, minDelta);
        }
        if err.None? && !stop && verbose && nTrain == 0 {
          err := Some(EmptyTrainReport);
        }
      }
    }
  }
}
