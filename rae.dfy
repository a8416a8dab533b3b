/** The regularised autoencoder: what its `train` hands to `fit` (the data as both
    input and target, shuffled when asked), saving and restoring its three models, and
    the `data_space` dispatch of `predict`.  Its reconstruction loss is
    `Losses.SquaredErrors` and its MMD loss `MmdLoss.TwoGroupMmdLoss`.  The encoder and
    decoder are function parameters, and so is the row permutation `shuffle_data`
    applies. */
module Rae {
  import opened Numerics
  import opened TrainConfig
  import opened ModelStore

  /** The file `train` saves the main model under. */
  const SaveFile: string := "mmd_rae.h5"

  /** The file `restore_model` loads the main model from, as written. */
  const RestoreFileAsWritten: string := "mmd_ae.h5"

  /** What `train` hands to `fit`: inputs, targets and, with validation, the validation
      inputs and targets. */
  datatype FitPlan = FitPlan(x: Matrix, y: Matrix, validation: Option<(Matrix, Matrix)>)

  /** The fit plan of `train`: the validation error first; then the data, shuffled when
      asked, as both input and target, and the same for the validation data. */
  function TrainPlan(trainX: Matrix, useValidation: bool, validX: Option<Matrix>, shuffle: bool,
                     permute: Matrix -> Matrix): (r: Result<FitPlan, TrainError>)
    ensures r.Err? <==> useValidation && validX.None?
    ensures r.Err? ==> r.error == MissingValidData
    ensures r.Ok? ==>
              var xs := if shuffle then permute(trainX) else trainX;
              r.value.x == xs && r.value.y == xs &&
              (r.value.validation.Some? <==> useValidation) &&
              (useValidation ==>
                 var vs := if shuffle then permute(validX.value) else validX.value;
                 r.value.validation.value == (vs, vs))
  {
    var check := CheckValidation(useValidation, validX);
    if check.Err? then Err(check.error)
    else
      var xs := if shuffle then permute(trainX) else trainX;
      if !useValidation then Ok(FitPlan(xs, xs, None))
      else
        var vs := if shuffle then permute(validX.value) else validX.value;
        Ok(FitPlan(xs, xs, Some((vs, vs))))
  }

  /** Without shuffling the plan fits the data exactly as given, and shuffling only
      permutes it: the plan with shuffling is the plan without it on permuted data. */
  lemma TrainPlanShuffle(trainX: Matrix, useValidation: bool, validX: Option<Matrix>,
                         permute: Matrix -> Matrix)
    ensures TrainPlan(trainX, useValidation, validX, true, permute) ==
            TrainPlan(permute(trainX), useValidation,
                      if validX.Some? then Some(permute(validX.value)) else None, false, permute)
    ensures !(useValidation && validX.None?) ==>
              TrainPlan(trainX, useValidation, validX, false, permute).value.x == trainX
  {
  }

  /** When the shuffle reorders rows without adding or dropping any, the plan's inputs
      and targets hold exactly the training rows, and its validation pair exactly the
      validation rows, shuffled or not. */
  lemma TrainPlanPermutesRows(trainX: Matrix, useValidation: bool, validX: Option<Matrix>, shuffle: bool,
                              permute: Matrix -> Matrix)
    requires forall m: Matrix :: multiset(permute(m)) == multiset(m)
    ensures var r := TrainPlan(trainX, useValidation, validX, shuffle, permute);
            r.Ok? ==>
              multiset(r.value.x) == multiset(trainX) && multiset(r.value.y) == multiset(trainX) &&
              (useValidation ==>
                 multiset(r.value.validation.value.0) == multiset(validX.value) &&
                 multiset(r.value.validation.value.1) == multiset(validX.value))
  {
  }

  /** `train`: build the fit plan, fit the held models with it and, when asked, save
      them; on an error nothing changes. */
  method Train(net: Network, fit: (Models, FitPlan) -> Models, trainX: Matrix, useValidation: bool,
               validX: Option<Matrix>, shuffle: bool, permute: Matrix -> Matrix, save: bool)
    returns (r: Result<FitPlan, TrainError>)
    modifies net
    ensures r == TrainPlan(trainX, useValidation, validX, shuffle, permute)
    ensures r.Err? ==> net.Current() == old(net.Current()) && net.dir == old(net.dir)
    ensures r.Ok? ==>
              net.Current() == fit(old(net.Current()), r.value) &&
              net.dir == if save then Saved(old(net.dir), SaveFile, net.Current()) else old(net.dir)
  {
    if useValidation && validX.None? {
      return Err(MissingValidData);
    }
    var xs := trainX;
    if shuffle {
      xs := permute(xs);
    }
    var validation: Option<(Matrix, Matrix)> := None;
    if useValidation {
      var vs := validX.value;
      if shuffle {
        vs := permute(vs);
      }
      validation := Some((vs, vs));
    }
    var plan := FitPlan(xs, xs, validation);
    net.SetModels(fit(net.Current(), plan));
    if save {
      net.Save(SaveFile);
    }
    r := Ok(plan);
  }

  /** `restore_model` as written: it loads the main model from a different file than
      `train` saves it to; a missing file stops it, keeping the models loaded before it,
      so without that file the held models stay as they were. */
  method RestoreAsWritten(net: Network) returns (ok: bool)
    modifies net
    ensures ok <==> Loaded(old(net.dir), RestoreFileAsWritten).Some?
    ensures ok ==> net.Current() == Loaded(old(net.dir), RestoreFileAsWritten).value
    ensures net.dir == old(net.dir)
    ensures net.main == (if RestoreFileAsWritten in old(net.dir) then old(net.dir)[RestoreFileAsWritten] else old(net.main))
    ensures net.encoder ==
            (if RestoreFileAsWritten in old(net.dir) && EncoderFile in old(net.dir) then old(net.dir)[EncoderFile] else old(net.encoder))
    ensures net.decoder == (if ok then old(net.dir)[DecoderFile] else old(net.decoder))
    ensures RestoreFileAsWritten !in old(net.dir) ==> !ok && net.Current() == old(net.Current())
  {
    ok := net.Restore(RestoreFileAsWritten);
  }

  /** As written, a network saved by `train` into an empty model directory cannot be
      restored: the main model's file is not where `restore_model` looks. */
  lemma RestoreAsWrittenMissesSave(m: Models)
    ensures Loaded(Saved(map[], SaveFile, m), RestoreFileAsWritten) == None
  {
    assert RestoreFileAsWritten !in Saved(map[], SaveFile, m);
  }

  /** Training with a save into an empty model directory and then restoring as
      written: the restore fails and the trained models stay held. */
  method TrainThenRestoreAsWritten(net: Network, fit: (Models, FitPlan) -> Models, trainX: Matrix,
                                   shuffle: bool, permute: Matrix -> Matrix)
    returns (ok: bool)
    requires net.dir == map[]
    modifies net
    ensures !ok
    ensures net.Current() == fit(old(net.Current()), TrainPlan(trainX, false, None, shuffle, permute).value)
  {
    var r := Train(net, fit, trainX, false, None, shuffle, permute, true);
    assert RestoreFileAsWritten !in net.dir;
    ok := RestoreAsWritten(net);
  }

  /** `restore_model` loading the file `train` saves to; a missing file stops it,
      keeping the models loaded before it. */
  method Restore(net: Network) returns (ok: bool)
    modifies net
    ensures ok <==> Loaded(old(net.dir), SaveFile).Some?
    ensures ok ==> net.Current() == Loaded(old(net.dir), SaveFile).value
    ensures net.dir == old(net.dir)
    ensures net.main == (if SaveFile in old(net.dir) then old(net.dir)[SaveFile] else old(net.main))
    ensures net.encoder ==
            (if SaveFile in old(net.dir) && EncoderFile in old(net.dir) then old(net.dir)[EncoderFile] else old(net.encoder))
    ensures net.decoder == (if ok then old(net.dir)[DecoderFile] else old(net.decoder))
  {
    ok := net.Restore(SaveFile);
  }

  /** Restoring from the file `train` saved gives back the trained models, whatever the
      directory held before. */
  lemma RestoreAfterTrain(dir: Directory, m: Models)
    ensures Loaded(Saved(dir, SaveFile, m), SaveFile) == Some(m)
  {
    LoadAfterSave(dir, SaveFile, m);
  }

  /** A network that outputs one row per input row. */
  ghost predicate KeepsRows(f: Matrix -> Matrix)
  {
    forall m :: |f(m)| == |m|
  }

  /** `predict`: 'latent' decodes the data directly; any other space encodes then
      decodes, which is predicting from the latent space after encoding.  Networks that
      keep one row per sample predict one row per sample. */
  function Predict(encoder: Matrix -> Matrix, decoder: Matrix -> Matrix, data: Matrix,
                   dataSpace: string): (r: Matrix)
    ensures dataSpace == "latent" ==> r == decoder(data)
    ensures dataSpace != "latent" ==> r == Predict(encoder, decoder, encoder(data), "latent")
    ensures KeepsRows(encoder) && KeepsRows(decoder) ==> |r| == |data|
    decreases dataSpace != "latent"
  {
    if dataSpace == "latent" then decoder(data) else decoder(encoder(data))
  }

  /** When the decoder undoes the encoder on the data, predicting from the primary space
      gives the data back, and so does predicting from the latent space on its
      encoding. */
  lemma PredictReconstructs(encoder: Matrix -> Matrix, decoder: Matrix -> Matrix, data: Matrix,
                            dataSpace: string)
    requires decoder(encoder(data)) == data
    ensures dataSpace != "latent" ==> Predict(encoder, decoder, data, dataSpace) == data
    ensures Predict(encoder, decoder, encoder(data), "latent") == data
  {
  }
}
