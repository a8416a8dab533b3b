# trVAE / RCVAE core logic in Dafny

This project models the logic that surrounds the neural networks in three trVAE model
classes:

- `RCCVAE` (`rcvae/models/_rccvae.py`) is the conditional autoencoder trained through Keras.
- `RAE` (`rcvae/models/_rae.py`) is the regularised autoencoder trained through Keras.
- `RCVAEMultiTF` (`rcvae/models/_rcvae_multi_tf.py`) is the multi-condition model, trained by a hand-written TensorFlow loop.

The networks themselves are left abstract. The model covers what the Python code computes around them:

- **Kernels and MMD** (`kernels.dfy`, module `Kernels`). `squared_distance`, the `rbf` and
  `multi-scale-rbf` branches of `compute_kernel`, and `compute_mmd`. The three classes
  define identical copies of these static methods, so they are modelled once. `exp` is a
  function parameter. A mean over an empty batch is `NaN` (`Numerics.Scalar`).
- **Splitting a batch by condition** (`partition.dfy`, module `Partition`).
  `tf.dynamic_partition` is an order-preserving group-by. The two-condition models
  cast float labels to int32, truncating toward zero. The multi-condition model takes
  the argmax of one-hot decoder labels.
- **MMD losses** (`mmd_loss.dfy`, module `MmdLoss`). The two-condition `mmd_loss` is beta
  times the MMD of the two halves. The multi-condition `_loss_function` runs a nested loop
  (an imperative method). The loop is proved equal to a sum over an explicit list of
  visited pairs. Its combinatorics and its closed form are proved on that list.
- **Per-sample losses** (`losses.dfy`, module `Losses`). `reconstruction_loss` of RAE,
  `kl_recon_loss` of RCCVAE, and the graph's `kl_recon_loss` in the multi-condition
  model.
- **The hand-written training loop** (`batching.dfy`, `early_stopping.dfy`, `multi_tf.dfy`;
  modules `Batching`, `EarlyStopping`, `MultiTf`). The loop covers:
  - mini-batch slicing;
  - the global step;
  - the validation-loss history with the patience counter and its `break`;
  - the checkpoints saved.

  `MultiTf.Trainer` is a class whose methods update these fields in place. Every method is
  proved against the functional description `RunOutcome` / `RunUpdates`, and the
  early-stopping properties are proved about that description.

  With fewer than two conditions the nested loop adds nothing, so the MMD loss is the
  Python number `beta * 0.0` rather than a tensor. `sess.run` cannot fetch a number, so
  the first training batch fails, or the first validation batch when there is no training
  data. The model reports this as the error `UnfetchableMmdLoss`.
- **Configuration and label selection** (`train_config.dfy`, `model_store.dfy`,
  `rccvae.dfy`, `rae.dfy`). These cover:
  - the validation-data error;
  - the fake decoder labels;
  - the inputs and targets each Keras `train` hands to `fit`;
  - the reshape into samples;
  - saving and restoring the three models in the model directory (`ModelStore.Network`, a
    class whose fields are the held models);
  - the `data_space` dispatch of `predict`.

Where the design description of the system and its code disagree, the model follows the code:

- **The rbf kernel.** The code takes the mean squared difference (already divided by the
  width `dim`) and divides it by `dim` again. So for `x = [[0,0]]`, `y = [[1,1]]` the
  kernel is `exp(-0.5)`, not `exp(-1)` (`Kernels.RbfExample`).
- **The multi-condition loop.** For `n` conditions it adds the MMD of each adjacent pair
  `(j, j+1)` exactly `n-1-j` times. It never adds a non-adjacent pair. The model keeps this
  weighting rather than summing over all pairs.

## Model

| member | source | states |
|---|---|---|
| Kernels.SqDiff | rcvae/models/_rccvae.py:334-337 | the summed squared difference of two rows of one width, the entry of `squared_distance`, is never negative |
| Kernels.SqDiffZeroIff | rcvae/models/_rccvae.py:334-337 | the summed squared difference of two rows of one width is zero exactly when the rows are equal |
| Kernels.SquaredDistance | rcvae/models/_rccvae.py:334-337 | the pairwise squared-distance matrix has one row per row of x and one column per row of y |
| Kernels.SquaredDistanceProperties | rcvae/models/_rcvae_multi_tf.py:200-203 | every squared distance is non-negative, zero exactly on equal rows, and swapping x and y transposes the matrix |
| Kernels.Kernel | rcvae/models/_rccvae.py:298-332 | both kernel branches give an \|x\| by \|y\| matrix |
| Kernels.KernelEntries | rcvae/models/_rccvae.py:310-332 | an rbf entry is exp(-(d/dim)/dim) for the squared distance d, dividing by dim twice; a multi-scale entry is the sum of exp(-d/(2 sigma)) over the 19 bandwidths divided by 19 |
| Kernels.KernelSymmetric | rcvae/models/_rae.py:153-175 | for both kernels, swapping the arguments transposes the kernel matrix |
| Kernels.KernelOnEqualRows | rcvae/models/_rcvae_multi_tf.py:184-198 | on two equal rows both kernels give exp(0), so the kernel diagonal is exp(0) |
| Kernels.RbfExample | rcvae/models/_rcvae_multi_tf.py:184-190 | the rbf kernel of [[0,0]] and [[1,1]] is exp(-0.5) |
| Kernels.Mmd | rcvae/models/_rccvae.py:339-354 | the MMD is NaN exactly when a batch is empty or the rbf kernel has width 0 |
| Kernels.MmdSelfZero | rcvae/models/_rae.py:182-197 | the MMD of a batch with itself is 0 for both kernels (NaN for an empty batch) |
| Kernels.MmdSymmetric | rcvae/models/_rcvae_multi_tf.py:205-223 | the MMD is symmetric in its two batches for both kernels |
| Partition.TruncToInt | rcvae/models/_rccvae.py:380 | the int32 cast truncates toward zero: the result is within one of the label, on the side of zero |
| Partition.TruncToIntProperties | rcvae/models/_rae.py:218 | integral labels cast to themselves, and a label casts into {0, 1} exactly when it lies strictly between -1 and 2 |
| Partition.CastLabels | rcvae/models/_rae.py:218 | every label is cast to int32, one for one |
| Partition.Split | rcvae/models/_rccvae.py:381 | the partition succeeds exactly when there is one label per row and every label is below the number of groups, and it then gives that many groups |
| Partition.PositionsExact | rcvae/models/_rcvae_multi_tf.py:247 | the rows a group takes are exactly the positions carrying its label, in increasing order |
| Partition.Group | rcvae/models/_rccvae.py:381 | the group of one label, as `tf.dynamic_partition` fills it, holds no more rows than the batch |
| Partition.GroupGathers | rcvae/models/_rccvae.py:381 | group g holds the rows labelled g in their original order |
| Partition.GroupRect | rcvae/models/_rae.py:219 | every group keeps the row width of the batch |
| Partition.GroupEmptyIff | rcvae/models/_rccvae.py:381 | a group is empty exactly when no row carries its label |
| Partition.GroupRelabel | rcvae/models/_rae.py:219 | two labellings that pick the same rows for two labels give the same group |
| Partition.GroupsCoverRows | rcvae/models/_rcvae_multi_tf.py:247 | with every label in range, the groups together hold every row exactly once |
| Partition.EmptyGroups | rcvae/models/_rcvae_multi_tf.py:247 | an empty batch puts no row in any group |
| Partition.OneHot | rcvae/models/_rcvae_multi_tf.py:454 | `to_categorical` of a label is defined exactly for labels in [-n, n) and gives a row of width n with 1.0 in the label's column and 0.0 elsewhere; a negative label counts from the end, column n + label |
| Partition.ArgMax | rcvae/models/_rcvae_multi_tf.py:245 | the argmax is the first position holding the row's maximum |
| Partition.ArgMaxOneHot | rcvae/models/_rcvae_multi_tf.py:245 | the argmax of a one-hot row is its column: the label itself when it is non-negative, n + label when it is negative |
| Partition.ArgMaxLabels | rcvae/models/_rcvae_multi_tf.py:245-246 | the partition keys of the multi-condition loss are one per row and all in [0, n_conditions) |
| Partition.ArgMaxLabelsOfOneHot | rcvae/models/_rcvae_multi_tf.py:245-247 | one-hot encoding labels in [-n_conditions, n_conditions) and taking the argmax gives each label's column, which is the label itself when all labels are non-negative |
| MmdLoss.TwoGroupMmdLoss | rcvae/models/_rccvae.py:377-383 | the two-condition loss is defined exactly when there is one label per row and every label casts to 0 or 1; it is NaN exactly when one condition is absent or the rbf width is 0 |
| MmdLoss.TwoGroupMmdLossSwap | rcvae/models/_rae.py:216-221 | exchanging the labels 0 and 1 leaves the two-condition loss unchanged |
| MmdLoss.InnerPairs | rcvae/models/_rcvae_multi_tf.py:249-250 | outer index i visits i pairs in its inner loop |
| MmdLoss.LoopPairsCount | rcvae/models/_rcvae_multi_tf.py:248-250 | the nested loop adds n(n-1)/2 terms |
| MmdLoss.LoopPairsAdjacent | rcvae/models/_rcvae_multi_tf.py:250-251 | every visited pair is (j, j+1) with j+1 below n, so every group index accessed exists |
| MmdLoss.LoopPairsMultiplicity | rcvae/models/_rcvae_multi_tf.py:248-251 | the pair (j, j+1) is visited n-1-j times when j+1 < n and never otherwise |
| MmdLoss.ConditionGroups | rcvae/models/_rcvae_multi_tf.py:245-247 | the argmax partition gives n_conditions groups of the batch's width |
| MmdLoss.MultiConditionLoss | rcvae/models/_rcvae_multi_tf.py:244-252 | the multi-condition loss is defined exactly when there is at least one condition and one label row per mmd-layer row |
| MmdLoss.MultiConditionMmdLoss | rcvae/models/_rcvae_multi_tf.py:245-252 | the nested loop's result is the multi-condition loss: beta times the MMDs accumulated over the visited pairs of the argmax partition, None when rows and label rows differ in number |
| MmdLoss.MultiConditionLossNaN | rcvae/models/_rcvae_multi_tf.py:248-252 | with two or more conditions the loss is NaN exactly when some condition is absent from the batch or the rbf width is 0; with one condition it is 0 |
| MmdLoss.MultiConditionTwoGroups | rcvae/models/_rcvae_multi_tf.py:245-252 | with two conditions the multi-condition loss is the two-condition loss on the argmax labels |
| MmdLoss.LoopTotalWeighted | rcvae/models/_rcvae_multi_tf.py:248-251 | the loop total over n groups is the sum of (n-1-j) times the MMD of groups j and j+1 |
| MmdLoss.MultiConditionLossWeighted | rcvae/models/_rcvae_multi_tf.py:245-252 | the multi-condition loss in closed form: beta times the (n-1-j)-weighted sum of the adjacent MMDs |
| Losses.SquaredErrors | rcvae/models/_rae.py:212-214 | `reconstruction_loss` gives one summed squared error per sample |
| Losses.SquaredErrorsZeroIff | rcvae/models/_rae.py:212-214 | the per-sample reconstruction loss (no 0.5 factor) is non-negative and all zero exactly when prediction equals target |
| Losses.KlTerms | rcvae/models/_rcvae_multi_tf.py:238-239 | the KL summands of a sample, exp(log_var) + mu^2 - 1 - log_var, one per latent unit |
| Losses.KlMean | rcvae/models/_rccvae.py:373 | the per-unit mean of the KL terms is NaN exactly for an empty latent row |
| Losses.KlNonNegative | rcvae/models/_rcvae_multi_tf.py:238-239 | the KL term, summed or averaged, is non-negative when exp lies above its tangent at 0 |
| Losses.KlAtPrior | rcvae/models/_rccvae.py:373 | the KL term is 0 at mu = 0, log_var = 0 |
| Losses.KlReconSamples | rcvae/models/_rcvae_multi_tf.py:238-241 | the hand-written graph's per-sample loss, half the squared error plus alpha times the summed KL term, one per sample |
| Losses.KlReconLoss | rcvae/models/_rcvae_multi_tf.py:240-241 | the batch mean of the per-sample losses is NaN exactly for an empty batch |
| Losses.KlReconLossNonNegative | rcvae/models/_rcvae_multi_tf.py:238-241 | with alpha >= 0 the loss is non-negative |
| Losses.KlReconSample | rcvae/models/_rccvae.py:369-375 | the Keras per-sample loss is NaN exactly for an empty latent row |
| Losses.KlReconSampleZeroIff | rcvae/models/_rccvae.py:369-375 | at the prior the per-sample loss is 0 exactly when the reconstruction equals the target |
| Batching.Min | rcvae/models/_rcvae_multi_tf.py:448 | `min` is the smaller of its arguments |
| Batching.Batches | rcvae/models/_rcvae_multi_tf.py:447-448 | the batches of one pass; their shape and that they partition the rows are stated by `BatchesFromShape` and `BatchesPartitionRows` |
| Batching.BatchesFromShape | rcvae/models/_rcvae_multi_tf.py:447-448 | the batches from a start are contiguous from it to n, non-empty, at most batch_size rows, and exactly batch_size rows except the last |
| Batching.BatchesFromCoverOnce | rcvae/models/_rcvae_multi_tf.py:466-467 | each row from the start up to n lies in exactly one batch, and no other row lies in any |
| Batching.BatchesPartitionRows | rcvae/models/_rcvae_multi_tf.py:447-448 | an epoch's mini-batches are disjoint and cover [0, n) exactly once; each is non-empty with at most batch_size rows; all but the last have exactly batch_size |
| EarlyStopping.PatienceCount | rcvae/models/_rcvae_multi_tf.py:484-487 | the patience counter, reset by an improving epoch and incremented by any other, never exceeds the number of epochs |
| EarlyStopping.PatienceCountStreak | rcvae/models/_rcvae_multi_tf.py:484-487 | the counter exceeds p exactly when each of the last p+1 epochs failed to improve by more than min_delta |
| EarlyStopping.PatienceCountNoImprovement | rcvae/models/_rcvae_multi_tf.py:484-487 | when no epoch improves, the counter equals the number of epochs |
| EarlyStopping.NeverStoppedSnoc | rcvae/models/_rcvae_multi_tf.py:483-488 | appending an epoch to a run that never stopped leaves no earlier stop, and the run stays unstopped unless the new counter exceeds the patience |
| EarlyStopping.HistoryFromIsHistory | rcvae/models/_rcvae_multi_tf.py:441-491 | the history built epoch by epoch is a prefix of the per-epoch losses that ends at the first stopping epoch or at the last epoch |
| EarlyStopping.HistoryUnique | rcvae/models/_rcvae_multi_tf.py:488-491 | the loop breaks at the first stopping epoch and at no other, so the history is unique |
| EarlyStopping.HistoryCharacterized | rcvae/models/_rcvae_multi_tf.py:441-491 | a sequence is the run's history exactly when it is a prefix of the losses with no earlier stop that stops or uses every epoch |
| EarlyStopping.FirstEpochCount | rcvae/models/_rcvae_multi_tf.py:484-487 | the first epoch never improves, so after it the counter is 1 |
| EarlyStopping.NaNNeverResets | rcvae/models/_rcvae_multi_tf.py:484-487 | an epoch whose mean loss is NaN, and the epoch after it, are never improvements: the counter goes up by one |
| EarlyStopping.NoImprovementStopsAtPatience | rcvae/models/_rcvae_multi_tf.py:484-491 | losses that never improve stop the run after exactly patience+1 epochs |
| EarlyStopping.NegativePatienceStopsAtOnce | rcvae/models/_rcvae_multi_tf.py:486-491 | a negative patience stops the run after its first epoch |
| TrainConfig.CheckValidation | rcvae/models/_rcvae_multi_tf.py:433-434 | validation without validation data is an error, and otherwise the validation data is used exactly when validation is on |
| MultiTf.TrvaeLoss | rcvae/models/_rcvae_multi_tf.py:254 | the total loss is defined exactly when there is at least one condition and one label row per mmd-layer row |
| MultiTf.TrvaeLossParts | rcvae/models/_rcvae_multi_tf.py:254 | the total loss is defined exactly when the MMD loss is, NaN when either part is, and otherwise the MMD loss plus kl_recon_loss |
| MultiTf.EpochUpdates | rcvae/models/_rcvae_multi_tf.py:447-457 | a training epoch runs one optimizer update per mini-batch, in order, at the epoch's global step |
| MultiTf.RunUpdatesContents | rcvae/models/_rcvae_multi_tf.py:441-457 | a run of k epochs makes k times the number of batches updates, each at one of the run's global steps and on one of the batches |
| MultiTf.BatchTotalNaN | rcvae/models/_rcvae_multi_tf.py:463-481 | the epoch's summed validation loss is NaN exactly when some batch's loss is NaN |
| MultiTf.EpochMeans | rcvae/models/_rcvae_multi_tf.py:483 | there is one history entry per epoch |
| MultiTf.RunOutcome | rcvae/models/_rcvae_multi_tf.py:424-498 | the loop's result never reports a missing checkpoint or a reshape error, which belong to the restore and the data preparation |
| MultiTf.RunOutcomeErrors | rcvae/models/_rcvae_multi_tf.py:433-496 | missing validation data fails exactly when validation is on; a zero batch size fails exactly when an epoch starts; with fewer than two conditions the MMD loss is the number `beta * 0.0`, which `sess.run` cannot fetch, so the first training batch fails (lines 248-252, 455-456), or the first validation batch when the training set is empty (line 474); an empty validation set fails exactly when an epoch with validation starts and no training batch failed first; with verbose on, an empty training set fails at the first epoch's report (a division by zero batches) exactly when no fetch failed and the loop does not break before it, i.e. without validation or with a patience of at least 1 |
| MultiTf.RunOutcomeEpochs | rcvae/models/_rcvae_multi_tf.py:441-496 | a run has at most n_epochs epochs and all of them unless it stopped; without validation it never stops; with validation, entry k is the mean validation loss of epoch k (NaN when a batch's loss is), no earlier epoch stopped, and it stopped exactly when the counter exceeds the patience; a verbose run on an empty training set succeeds only by stopping after one epoch |
| MultiTf.RunOutcomeNoImprovement | rcvae/models/_rcvae_multi_tf.py:483-491 | with at least two conditions, validation losses that never improve by more than min_delta (NaN included), with patience below n_epochs, stop the run after exactly patience+1 epochs |
| MultiTf.RunOutcomeNaNLosses | rcvae/models/_rcvae_multi_tf.py:463-491 | with at least two conditions, a NaN batch loss in each of the first patience+1 epochs (a batch missing a condition) stops the run after exactly patience+1 epochs, whatever min_delta and the other losses |
| MultiTf.ValidationTotal | rcvae/models/_rcvae_multi_tf.py:464-482 | the validation loop's total is the sum of the batch losses over the validation mini-batches |
| MultiTf.TrainResult | rcvae/models/_rcvae_multi_tf.py:441-491 | a final loop state with the loop's invariants is the one `RunOutcome` describes |
| MultiTf.ErrorResult | rcvae/models/_rcvae_multi_tf.py:441-496 | an error in an epoch after the earlier epochs passed is the run's error in `RunOutcome` |
| MultiTf.RunUpdatesStep | rcvae/models/_rcvae_multi_tf.py:441-457 | the updates of one more epoch extend the run's updates |
| MultiTf.RecordValidation | rcvae/models/_rcvae_multi_tf.py:483-487 | appending the epoch's mean validation loss and applying the reset-or-increment rule keeps the history equal to the per-epoch means and the counter equal to the patience count |
| MultiTf.ValidateEpoch | rcvae/models/_rcvae_multi_tf.py:463-488 | an epoch's validation extends the history, keeps the counter exact, and stops exactly when the counter exceeds the patience |
| MultiTf.Trainer.constructor | rcvae/models/_rcvae_multi_tf.py:424-427 | a fresh trainer is at global step 0 with no checkpoints and no updates |
| MultiTf.Trainer.TrainEpoch | rcvae/models/_rcvae_multi_tf.py:447-462 | the training batches append one update per mini-batch at the current global step and change nothing else |
| MultiTf.Trainer.Train | rcvae/models/_rcvae_multi_tf.py:424-498 | the step is reset on an initial run and restored from the last checkpoint otherwise (an error without one); the result is `RunOutcome`; the final step is the start plus the epochs run; the updates are those of the epochs run; the checkpoints gain one save, or two on an early stop; each error's state is stated: a zero batch size or a number-valued MMD loss fetched after the step bump and before any update (lines 248-252, 455-456, 474), the empty validation set and the report's division by zero after one epoch's updates |
| MultiTf.Trainer.RunEpochs | rcvae/models/_rcvae_multi_tf.py:437-498 | the epoch loop's result is `RunOutcome`; the global step and updates are those of the epochs run; the checkpoints gain the save at the break and the final save; a zero batch size or a number-valued MMD loss leaves the updates unchanged |
| MultiTf.Trainer.EpochLoop | rcvae/models/_rcvae_multi_tf.py:441-491 | the loop up to its error or break leaves the checkpoints alone; on an error the first epoch failed with the conditions `ErrorResult` needs; otherwise the epochs run, history and break are those `TrainResult` needs, with their global step and updates |
| MultiTf.Trainer.RunEpoch | rcvae/models/_rcvae_multi_tf.py:441-496 | one epoch bumps the global step; it fails exactly on a zero batch size, on a number-valued MMD loss fetched by a training or validation batch (fewer than two conditions, lines 248-252, 455-456, 474), on an empty validation set, or on a verbose report over an empty training set when the loop does not break; otherwise it runs the epoch's updates and, with validation, extends the history and decides the break |
| MultiTf.Trainer.TrainBatches | rcvae/models/_rcvae_multi_tf.py:447-462 | the training half of an epoch fails exactly on a zero batch size, or with fewer than two conditions at the first training batch, without updating; otherwise it appends the epoch's updates |
| ModelStore.Saved | rcvae/models/_rccvae.py:600-604 | saving writes the main model, encoder and decoder files and keeps every other file |
| ModelStore.Loaded | rcvae/models/_rccvae.py:510-512 | loading succeeds exactly when all three files are present and gives their contents |
| ModelStore.LoadAfterSave | rcvae/models/_rae.py:410-414 | loading from the file just saved to gives back the saved models |
| ModelStore.SaveOverwrites | rcvae/models/_rccvae.py:602-604 | a second save under the same name replaces the first (`overwrite=True`) |
| ModelStore.Network.constructor | rcvae/models/_rccvae.py:43-67 | `__init__` keeps the model directory (`model_path`) and `_create_network` builds the three models: a new network holds the given models and directory |
| ModelStore.Network.SetModels | rcvae/models/_rccvae.py:584-598 | fitting replaces the held models and leaves the directory alone |
| ModelStore.Network.Save | rcvae/models/_rccvae.py:600-604 | saving writes the held models into the directory and keeps the held models |
| ModelStore.Network.Restore | rcvae/models/_rccvae.py:510-512 | restoring succeeds exactly when all three files exist and then holds their contents; a missing file stops it: each model is the file's contents when it and every file before it exist, and the model held before otherwise; the directory is unchanged |
| Rccvae.Ones | rcvae/models/_rccvae.py:554 | `np.ones` of the labels' shape is all 1.0 with the same length |
| Rccvae.DecoderLabels | rcvae/models/_rccvae.py:424-427 | under fake labels the decoder gets all ones of the encoder labels' shape, and otherwise the encoder labels |
| Rccvae.FakeLabelsForgetCondition | rcvae/models/_rccvae.py:568-571 | fake decoder labels are the same for any two label vectors of one length, and equal the real ones exactly when every label is 1 |
| Rccvae.ToMmdLayer | rcvae/models/_rccvae.py:410-429 | the mmd-layer output of the whole model fed the data, the encoder labels and, as decoder labels, all ones under `feed_fake` or the encoder labels otherwise |
| Rccvae.ToMmdLayerFake | rcvae/models/_rccvae.py:410-429 | feeding fake labels changes the mmd-layer output only through the decoder labels |
| Rccvae.Remainder | rcvae/models/_rccvae.py:569 | the remainder of the entry count is below the sample size |
| Rccvae.ChunksFlatten | rcvae/models/_rccvae.py:573 | when the sample size divides the entry count, the rows of that size hold the entries in order |
| Rccvae.Reshape | rcvae/models/_rccvae.py:479 | the reshape succeeds exactly when the sample size divides the entry count, and then gives rows of that size with the same entries in the same order |
| Rccvae.ReshapeIdentity | rcvae/models/_rccvae.py:578 | reshaping data that already has rows of the sample size gives it back |
| Rccvae.FlattenChunks | rcvae/models/_rccvae.py:578 | the entries of rows of the sample size divide evenly and chunk back into the same rows |
| Rccvae.TrainPlan | rcvae/models/_rccvae.py:551-598 | missing validation data is an error exactly when validation is on without data; a reshape failure is an error exactly when the training or validation data does not fit the input size; otherwise the inputs are (data, labels, decoder labels), the targets are (data, real labels), and validation feeds its own labels to both encoder and decoder |
| Rccvae.FakeLabelsOnlyChangeDecoderInput | rcvae/models/_rccvae.py:568-575 | training with fake labels differs from training with real labels only in the decoder labels, so the MMD term still splits by the real conditions |
| Rccvae.Train | rcvae/models/_rccvae.py:515-605 | `train` returns the fit plan; on an error nothing changes; otherwise the models become the fitted ones and, when asked, are saved under mmd_cvae.h5, encoder.h5 and decoder.h5 |
| Rccvae.Restore | rcvae/models/_rccvae.py:493-513 | restoring succeeds exactly when mmd_cvae.h5, encoder.h5 and decoder.h5 are present and then holds their contents; loading stops at the first missing file, each model before it replaced and the rest kept |
| Rccvae.Reconstruct | rcvae/models/_rccvae.py:431-452 | latent data goes straight to the decoder; reconstructing primary-space data is reconstructing its encoding as latent data |
| Rccvae.PredictAsWritten | rcvae/models/_rccvae.py:431-491 | predict as written succeeds exactly when the data space is not 'mmd', the input's entries divide into samples of the input size, and the network accepts them: for 'latent' one sample per decoder label and, unless there are none, an input size equal to z_dim; otherwise one sample per encoder label and an encoding of z_dim-wide rows, one per decoder label |
| Rccvae.PredictAsWrittenMmdFails | rcvae/models/_rccvae.py:483-491 | no mmd-layer rows can be predicted as written, while the corrected predict runs the decoder from the mmd layer on them |
| Rccvae.PredictAsWrittenRejectsLatent | rcvae/models/_rccvae.py:479-482 | one two-unit latent row with a four-feature input size fails the reshape as written, and the corrected predict decodes it |
| Rccvae.PredictAsWrittenLatentFails | rcvae/models/_rccvae.py:479-482 | when the input size differs from z_dim, no non-empty latent input can be predicted as written, while the corrected predict decodes every latent input the decoder accepts |
| Rccvae.Predict | rcvae/models/_rccvae.py:481-487 | 'latent' decodes the data directly, succeeding exactly when it is z_dim wide with one row per decoder label; 'mmd' runs the decoder from its mmd layer; any other space reshapes, encodes and decodes, succeeding on samples of the input size exactly when they match the encoder labels in number and the encoding the decoder labels; the reconstruction output is returned |
| Rccvae.PredictThroughLatent | rcvae/models/_rccvae.py:431-487 | predicting from the primary space is predicting from the latent space after encoding when there is one sample per encoder label, and fails otherwise; on samples of the input size the corrected predict agrees with the one as written in every data space but 'mmd' |
| Rae.TrainPlan | rcvae/models/_rae.py:366-392 | missing validation data is an error exactly when validation is on without data; otherwise the data (shuffled when asked) is both input and target, and likewise for the validation data |
| Rae.TrainPlanShuffle | rcvae/models/_rae.py:378-388 | the plan with shuffling is the plan without it on the shuffled data, and without shuffling the inputs are the data as given |
| Rae.TrainPlanPermutesRows | rcvae/models/_rae.py:378-392 | when the shuffle only reorders rows, the inputs and targets hold exactly the training rows, and the validation pair exactly the validation rows |
| Rae.Train | rcvae/models/_rae.py:327-415 | `train` returns the fit plan; on an error nothing changes; otherwise the models become the fitted ones and, when asked, are saved under mmd_rae.h5, encoder.h5 and decoder.h5 |
| Rae.RestoreAsWritten | rcvae/models/_rae.py:322-324 | restore as written succeeds exactly when mmd_ae.h5, encoder.h5 and decoder.h5 are present; loading stops at the first missing file, each model before it replaced and the rest kept, so without mmd_ae.h5 the held models stay as they were |
| Rae.RestoreAsWrittenMissesSave | rcvae/models/_rae.py:322 | a network saved by train into an empty directory cannot be restored as written |
| Rae.TrainThenRestoreAsWritten | rcvae/models/_rae.py:322 | training with a save into an empty model directory and then restoring as written fails the restore and keeps the trained models |
| Rae.Restore | rcvae/models/_rae.py:305-324 | the corrected restore loads the file train saves to, and succeeds exactly when mmd_rae.h5, encoder.h5 and decoder.h5 are present; loading stops at the first missing file, each model before it replaced and the rest kept |
| Rae.RestoreAfterTrain | rcvae/models/_rae.py:410-414 | restoring from the file train saved gives back the trained models |
| Rae.Predict | rcvae/models/_rae.py:248-303 | 'latent' decodes the data directly; any other space is predicting from the latent space after encoding; networks that keep one row per sample predict one row per sample |
| Rae.PredictReconstructs | rcvae/models/_rae.py:248-303 | when the decoder undoes the encoder on the data, predicting from the primary space, or from the latent space on its encoding, gives the data back |

## Left out

- The networks are function parameters: encoder, decoder, the whole model and the decoder run from its mmd layer. This covers Keras and TensorFlow layers, batch norm, dropout and the architecture builders.
- Adam, autodiff and `tf.control_dependencies` are not modelled. An optimizer update is recorded only by its global step and its batch.
- Keras `fit` and its `History`, `EarlyStopping` and `CSVLogger` callbacks are not modelled. `fit` is a function parameter from the held models and the fit plan to the trained models.
- The random sampling in `_sample_z` is not modelled, because it draws random noise.
- Floating-point rounding, overflow and infinities are not modelled. Arithmetic is on `real`, and `exp` is a parameter about which only the stated lemma hypotheses are assumed. NaN is modelled (`Numerics.Scalar`): a mean over nothing, a missing condition in the MMD loss, and the validation losses and history it reaches.
- The `raphy` branch of `compute_kernel` is not modelled. It builds its weights from an evaluated tensor shape.
- The `.h5` files are a map from file name to weights, the TF `Saver` is the list of saved global steps, and `os.makedirs` is not modelled. Printing and logging are not modelled.
- MultiTf.RunOutcome: of the verbose epoch report only its failure is modelled, a `ZeroDivisionError` when the training set is empty (`EmptyTrainReport`). Its printed values are not: the `train_loss`/`mmd_loss` accumulators, and the `inf` it prints with a warning when 0 < n < batch_size.
- `label_encoder` and `shuffle_data` from the utils module are not part of this model. Labels arrive encoded. In `Rae`, shuffling is a function parameter; that it only reorders rows is a hypothesis of `Rae.TrainPlanPermutesRows`.
- The shuffle of `train_data` in the hand-written loop is not modelled. Only row counts enter the loop model.
- Sparse-to-dense conversion and the in-place overwrite of `train_data.X` are not modelled. Data is dense.
- `to_categorical` of each batch in the hand-written loop is `Partition.OneHot`; labels are integers, and the float labels it would also accept are not modelled. The loop model takes the per-batch validation loss as a parameter `validLoss(epoch, lower, upper)` rather than computing it from the network.
- The reshape of the Keras losses' inputs to `x_dim` and `mmd_dim` is not modelled. Samples are already rows.
- Model compilation (`_loss_function` called by `restore_model`) is not modelled.
- `initial_run` in the Keras `train` methods only logs and is not modelled.
- The tests/hyperopt_trVAEMulti.py script and trvae/__init__.py are not part of this model.
- Rccvae.PredictAsWritten: the input shape `x_dim` is modelled by its number of entries, as if one-dimensional. A multi-dimensional `x_dim` with `z_dim` entries is accepted here, though the decoder would refuse its samples.
- Rccvae.Predict: the width check of the decoder run from the mmd layer is not modelled, because `fromMmd` is a function parameter.
- Rae.TrainPlan: the targets are the data alone, and the way Keras pairs `y = X` with the model's two outputs (reconstruction and mmd layer) is not modelled.
- MultiTf.Trainer.Train: the checkpoint a resumed run restores is the last one this trainer saved; a checkpoint directory prepared elsewhere is not modelled.

## Findings

| source | as written | input that shows it | evidently intended | confidence | as-written member | corrected member |
|---|---|---|---|---|---|---|
| rcvae/models/_rccvae.py:479 | `predict` reshapes every input to samples of the input shape `x_dim` before the `data_space` dispatch, including latent and mmd-layer rows, so the decoder, whose input is `z_dim` wide, gets samples of `x_dim`: every non-empty latent input fails unless `x_dim` is `(z_dim,)` | input size 4, `z_dim` 2 and one latent row `[0, 0]` with `data_space='latent'`: two entries do not fill a sample of four, so the reshape fails; two latent rows `[[0, 0], [0, 0]]` reshape into one sample of four, which the decoder refuses | latent and mmd-layer rows go to the decoder as they are; only primary-space data is reshaped | not executed | Rccvae.PredictAsWrittenLatentFails | Rccvae.PredictThroughLatent |
| rcvae/models/_rae.py:322 | `restore_model` loads the main model from `mmd_ae.h5`, while `train` saves it to `mmd_rae.h5` (line 412) | an empty model directory, then `train(save=True)`, then `restore_model()`: `mmd_ae.h5` is missing | restore loads the file train saves to | not executed | Rae.RestoreAsWrittenMissesSave | Rae.RestoreAfterTrain |
| rcvae/models/_rccvae.py:490 | `_reconstruct_from_mmd` passes the layer `decoder_model.layers[1]`, not a tensor, as the `inputs` of a new Keras `Model`, which Keras refuses | any `predict(..., data_space='mmd')` | run the decoder from its mmd layer on the given rows | not executed | Rccvae.PredictAsWrittenMmdFails | Rccvae.Predict |
