/** The conditional model trained through Keras: which labels its encoder and decoder
    are fed (the real condition, or all ones under the fake-label modes), the inputs and
    targets `train` hands to `fit`, the reshape of data into samples, the mmd-layer
    read-out and the `data_space` dispatch of `predict`.  The encoder, decoder and
    decoder-from-mmd networks are function parameters; `fit` is a function from the
    held models and the fit plan to the trained models. */
module Rccvae {
  import opened Numerics
  import opened TrainConfig
  import opened ModelStore

  /** The file the main (training) model is saved under and restored from. */
  const CvaeFile: string := "mmd_cvae.h5"

  /** Condition labels, one integer code per sample, held as floats. */
  type Labels = seq<real>

  /** `np.ones(shape=labels.shape)`. */
  function Ones(labels: Labels): (r: Labels)
    ensures |r| == |labels| && forall i :: 0 <= i < |r| ==> r[i] == 1.0
  {
    seq(|labels|, i requires 0 <= i < |labels| => 1.0)
  }

  /** The labels fed to the decoder: all ones of the same shape under a fake-label mode,
      the encoder labels otherwise. */
  function DecoderLabels(encoderLabels: Labels, fake: bool): (r: Labels)
    ensures |r| == |encoderLabels|
    ensures fake ==> forall i :: 0 <= i < |r| ==> r[i] == 1.0
    ensures !fake ==> r == encoderLabels
  {
    if fake then Ones(encoderLabels) else encoderLabels
  }

  /** Under a fake-label mode the decoder labels no longer depend on the samples'
      conditions, and they differ from the real ones exactly when some label is not 1. */
  lemma FakeLabelsForgetCondition(a: Labels, b: Labels)
    requires |a| == |b|
    ensures DecoderLabels(a, true) == DecoderLabels(b, true)
    ensures DecoderLabels(a, true) == DecoderLabels(a, false) <==> forall i :: 0 <= i < |a| ==> a[i] == 1.0
  {
    if forall i :: 0 <= i < |a| ==> a[i] == 1.0 {
      assert Ones(a) == a;
    }
  }

  /** `to_mmd_layer`: the mmd-layer output (the second output) of the whole model fed
      the data, the encoder labels and the chosen decoder labels. */
  function ToMmdLayer(cvae: (Matrix, Labels, Labels) -> (Matrix, Matrix), data: Matrix,
                      encoderLabels: Labels, feedFake: bool): (r: Matrix)
    ensures feedFake ==> r == cvae(data, encoderLabels, Ones(encoderLabels)).1
    ensures !feedFake ==> r == cvae(data, encoderLabels, encoderLabels).1
  {
    cvae(data, encoderLabels, DecoderLabels(encoderLabels, feedFake)).1
  }

  /** Feeding fake labels changes the mmd-layer output only through the decoder labels:
      on samples all labelled 1 it changes nothing, and with fake labels two label
      vectors of one length give the same decoder input. */
  lemma ToMmdLayerFake(cvae: (Matrix, Labels, Labels) -> (Matrix, Matrix), data: Matrix,
                       a: Labels, b: Labels)
    requires |a| == |b|
    ensures (forall i :: 0 <= i < |a| ==> a[i] == 1.0) ==>
              ToMmdLayer(cvae, data, a, true) == ToMmdLayer(cvae, data, a, false)
    ensures cvae(data, a, DecoderLabels(b, true)).1 == ToMmdLayer(cvae, data, a, true)
  {
    FakeLabelsForgetCondition(a, b);
  }

  // ---------------------------------------------------------------------------------
  // Reshaping data into samples

  /** The entries of a matrix in row-major order. */
  function Flatten(m: Matrix): seq<real>
  {
    if m == [] then [] else m[0] + Flatten(m[1..])
  }

  /** Consecutive rows of `w` entries; a shorter tail is dropped. */
  function Chunks(s: seq<real>, w: nat): seq<Row>
    requires w > 0
    decreases |s|
  {
    if |s| < w then [] else [s[..w]] + Chunks(s[w..], w)
  }

  /** n mod w, by repeated subtraction. */
  function Remainder(n: nat, w: nat): (r: nat)
    requires w > 0
    ensures r < w
    decreases n
  {
    if n < w then n else Remainder(n - w, w)
  }

  /** Chunking a sequence whose length `w` divides gives rows of `w` entries holding
      the sequence in order. */
  lemma {:induction false} ChunksFlatten(s: seq<real>, w: nat)
    requires w > 0 && Remainder(|s|, w) == 0
    ensures Rect(Chunks(s, w), w) && Flatten(Chunks(s, w)) == s
    decreases |s|
  {
    if |s| >= w {
      ChunksFlatten(s[w..], w);
      var c := Chunks(s, w);
      assert c[1..] == Chunks(s[w..], w);
      assert s == s[..w] + s[w..];
    }
  }

  /** `np.reshape(m, (-1, w))`: None when the entries do not divide into rows of `w`,
      else the same entries in rows of `w`. */
  function Reshape(m: Matrix, w: nat): (r: Option<Matrix>)
    requires w > 0
    ensures r.Some? <==> Remainder(|Flatten(m)|, w) == 0
    ensures r.Some? ==> Rect(r.value, w) && Flatten(r.value) == Flatten(m)
  {
    var flat := Flatten(m);
    if Remainder(|flat|, w) != 0 then None
    else
      ChunksFlatten(flat, w);
      Some(Chunks(flat, w))
  }

  /** Data already in rows of `w` is reshaped to itself. */
  lemma {:induction false} ReshapeIdentity(m: Matrix, w: nat)
    requires w > 0
    ensures Rect(m, w) ==> Reshape(m, w) == Some(m)
  {
    if Rect(m, w) {
      FlattenChunks(m, w);
    }
  }

  lemma {:induction false} FlattenChunks(m: Matrix, w: nat)
    requires w > 0 && Rect(m, w)
    ensures Remainder(|Flatten(m)|, w) == 0 && Chunks(Flatten(m), w) == m
  {
    if m != [] {
      FlattenChunks(m[1..], w);
      var rest := Flatten(m[1..]);
      var flat := m[0] + rest;
      assert flat[..w] == m[0] && flat[w..] == rest;
      assert m == [m[0]] + m[1..];
    }
  }

  // ---------------------------------------------------------------------------------
  // Training

  /** A data set: the samples' rows and their condition labels. */
  datatype Dataset = Dataset(x: Matrix, labels: Labels)

  /** The model's inputs (data, encoder labels, decoder labels) and targets
      (reconstruction target, labels the MMD term splits the batch by). */
  datatype Inputs = Inputs(data: Matrix, encoderLabels: Labels, decoderLabels: Labels)
  datatype Targets = Targets(recon: Matrix, mmdLabels: Labels)

  /** What `train` hands to `fit`: inputs, targets and, with validation, the validation
      inputs and targets. */
  datatype FitPlan = FitPlan(x: Inputs, y: Targets, validation: Option<(Inputs, Targets)>)

  /** The fit plan of `train`: the validation error first; the samples reshaped to the
      input size (an error when they do not fit); the decoder fed all ones under fake
      labels, while the MMD term always splits by the real labels; validation fed its
      own labels to both encoder and decoder. */
  function TrainPlan(train: Dataset, useValidation: bool, validData: Option<Dataset>,
                     fake: bool, xSize: nat): (r: Result<FitPlan, TrainError>)
    requires xSize > 0
    ensures r == Err(MissingValidData) <==> useValidation && validData.None?
    ensures r == Err(ShapeMismatch) <==>
              !(useValidation && validData.None?) &&
              (Remainder(|Flatten(train.x)|, xSize) != 0 ||
               (useValidation && Remainder(|Flatten(validData.value.x)|, xSize) != 0))
    ensures r.Ok? ==>
              var xs := Reshape(train.x, xSize).value;
              r.value.x == Inputs(xs, train.labels, DecoderLabels(train.labels, fake)) &&
              r.value.y == Targets(xs, train.labels) &&
              (r.value.validation.Some? <==> useValidation) &&
              (useValidation ==>
                 var v := validData.value;
                 var vs := Reshape(v.x, xSize).value;
                 r.value.validation.value == (Inputs(vs, v.labels, v.labels), Targets(vs, v.labels)))
  {
    var check := CheckValidation(useValidation, validData);
    if check.Err? then Err(check.error)
    else
      var xs := Reshape(train.x, xSize);
      if xs.None? then Err(ShapeMismatch)
      else
        var x := Inputs(xs.value, train.labels, DecoderLabels(train.labels, fake));
        var y := Targets(xs.value, train.labels);
        if !useValidation then Ok(FitPlan(x, y, None))
        else
          var v := validData.value;
          var vs := Reshape(v.x, xSize);
          if vs.None? then Err(ShapeMismatch)
          else Ok(FitPlan(x, y, Some((Inputs(vs.value, v.labels, v.labels), Targets(vs.value, v.labels)))))
  }

  /** Training with fake labels differs from training with real ones in the decoder
      labels alone: the same errors, the same data, targets (so the MMD term still splits
      by the real conditions) and validation. */
  lemma FakeLabelsOnlyChangeDecoderInput(train: Dataset, useValidation: bool, validData: Option<Dataset>,
                                         xSize: nat)
    requires xSize > 0
    ensures var f := TrainPlan(train, useValidation, validData, true, xSize);
            var t := TrainPlan(train, useValidation, validData, false, xSize);
            f.Ok? == t.Ok? &&
            (f.Err? ==> f == t) &&
            (f.Ok? ==> f.value == t.value.(x := t.value.x.(decoderLabels := Ones(train.labels))) &&
                       t.value.x.decoderLabels == train.labels)
  {
  }

  /** `train`: build the fit plan, fit the held models with it and, when asked, save
      them; on an error nothing changes. */
  method Train(net: Network, fit: (Models, FitPlan) -> Models, train: Dataset, useValidation: bool,
               validData: Option<Dataset>, fake: bool, xSize: nat, save: bool)
    returns (r: Result<FitPlan, TrainError>)
    requires xSize > 0
    modifies net
    ensures r == TrainPlan(train, useValidation, validData, fake, xSize)
    ensures r.Err? ==> net.Current() == old(net.Current()) && net.dir == old(net.dir)
    ensures r.Ok? ==>
              net.Current() == fit(old(net.Current()), r.value) &&
              net.dir == if save then Saved(old(net.dir), CvaeFile, net.Current()) else old(net.dir)
  {
    if useValidation && validData.None? {
      return Err(MissingValidData);
    }
    var decoderLabels := DecoderLabels(train.labels, fake);
    var xTrain := Reshape(train.x, xSize);
    if xTrain.None? {
      return Err(ShapeMismatch);
    }
    var x := Inputs(xTrain.value, train.labels, decoderLabels);
    var y := Targets(xTrain.value, train.labels);
    var validation: Option<(Inputs, Targets)> := None;
    if useValidation {
      var v := validData.value;
      var xValid := Reshape(v.x, xSize);
      if xValid.None? {
        return Err(ShapeMismatch);
      }
      validation := Some((Inputs(xValid.value, v.labels, v.labels), Targets(xValid.value, v.labels)));
    }
    var plan := FitPlan(x, y, validation);
    net.SetModels(fit(net.Current(), plan));
    if save {
      net.Save(CvaeFile);
    }
    r := Ok(plan);
  }

  /** `restore_model`: load the three models saved by `train`, in order; a missing file
      stops it, keeping the models loaded before it. */
  method Restore(net: Network) returns (ok: bool)
    modifies net
    ensures ok <==> Loaded(old(net.dir), CvaeFile).Some?
    ensures ok ==> net.Current() == Loaded(old(net.dir), CvaeFile).value
    ensures net.dir == old(net.dir)
    ensures net.main == (if CvaeFile in old(net.dir) then old(net.dir)[CvaeFile] else old(net.main))
    ensures net.encoder ==
            (if CvaeFile in old(net.dir) && EncoderFile in old(net.dir) then old(net.dir)[EncoderFile] else old(net.encoder))
    ensures net.decoder == (if ok then old(net.dir)[DecoderFile] else old(net.decoder))
  {
    ok := net.Restore(CvaeFile);
  }

  // ---------------------------------------------------------------------------------
  // Prediction

  /** The networks `predict` runs: the encoder's latent sample, the decoder's two
      outputs (reconstruction, mmd layer) and the decoder run from its mmd layer on. */
  datatype Networks = Networks(encoder: (Matrix, Labels) -> Matrix,
                               decoder: (Matrix, Labels) -> (Matrix, Matrix),
                               fromMmd: Matrix -> (Matrix, Matrix))

  /** The check Keras makes before running a model on data and labels: every sample
      has the width of the model's data input, and there is one label per sample. */
  predicate Fits(rows: Matrix, width: nat, labels: Labels)
  {
    |rows| == |labels| && forall i :: 0 <= i < |rows| ==> |rows[i]| == width
  }

  /** `_reconstruct`: decode the data directly when it is already latent, else its
      encoding; both decoder outputs.  Reconstructing from the primary space is
      reconstructing the encoding from the latent space. */
  function Reconstruct(nets: Networks, data: Matrix, encoderLabels: Labels, decoderLabels: Labels,
                       useData: bool): (r: (Matrix, Matrix))
    ensures useData ==> r == nets.decoder(data, decoderLabels)
    ensures !useData ==>
              r == Reconstruct(nets, nets.encoder(data, encoderLabels), encoderLabels, decoderLabels, true)
    decreases !useData
  {
    var latent := if useData then data else nets.encoder(data, encoderLabels);
    nets.decoder(latent, decoderLabels)
  }

  /** `predict` as written: every input, latent or mmd-layer rows included, is first
      reshaped to samples of the input size; then 'latent' hands those samples to the
      decoder, which refuses them unless they are `z_dim` wide and one per decoder
      label; 'mmd' fails (`_reconstruct_from_mmd` builds a model whose input is a
      layer, not a tensor, which Keras refuses); any other space encodes the samples,
      one per encoder label, and decodes the encoding, one per decoder label. The
      reconstruction output is returned. */
  function PredictAsWritten(nets: Networks, xSize: nat, zDim: nat, data: Matrix, encoderLabels: Labels,
                            decoderLabels: Labels, dataSpace: string): (r: Option<Matrix>)
    requires xSize > 0
    ensures r.Some? <==>
              var input := Reshape(data, xSize);
              input.Some? && dataSpace != "mmd" &&
              (dataSpace == "latent" ==>
                 |input.value| == |decoderLabels| && (input.value == [] || xSize == zDim)) &&
              (dataSpace != "latent" ==>
                 |input.value| == |encoderLabels| &&
                 Fits(nets.encoder(input.value, encoderLabels), zDim, decoderLabels))
  {
    var input := Reshape(data, xSize);
    if input.None? then None
    else if dataSpace == "latent" then
      if Fits(input.value, zDim, decoderLabels) then
        Some(Reconstruct(nets, input.value, encoderLabels, decoderLabels, true).0)
      else None
    else if dataSpace == "mmd" then None
    else if |input.value| == |encoderLabels| &&
            Fits(nets.encoder(input.value, encoderLabels), zDim, decoderLabels) then
      Some(Reconstruct(nets, input.value, encoderLabels, decoderLabels, false).0)
    else None
  }

  /** A latent row narrower than the input size cannot be predicted as written: one
      two-unit row does not fill a sample of four features, so the reshape fails. The
      corrected `predict` decodes it. */
  lemma PredictAsWrittenRejectsLatent(nets: Networks, encoderLabels: Labels, code: real)
    ensures PredictAsWritten(nets, 4, 2, [[0.0, 0.0]], encoderLabels, [code], "latent") == None
    ensures Predict(nets, 4, 2, [[0.0, 0.0]], encoderLabels, [code], "latent") ==
            Some(nets.decoder([[0.0, 0.0]], [code]).0)
  {
    assert Flatten([[0.0, 0.0]]) == [0.0, 0.0] by {
      assert [[0.0, 0.0]][1..] == [];
    }
  }

  /** Unless the input size is the latent size, no latent rows can be predicted as
      written: whether or not they reshape, the decoder gets samples of the input
      size. The corrected `predict` decodes every latent input the decoder accepts. */
  lemma PredictAsWrittenLatentFails(nets: Networks, xSize: nat, zDim: nat, data: Matrix,
                                    encoderLabels: Labels, decoderLabels: Labels)
    requires 0 < xSize && 0 < zDim && xSize != zDim
    requires data != [] && Fits(data, zDim, decoderLabels)
    ensures PredictAsWritten(nets, xSize, zDim, data, encoderLabels, decoderLabels, "latent") == None
    ensures Predict(nets, xSize, zDim, data, encoderLabels, decoderLabels,
                    "latent") == Some(nets.decoder(data, decoderLabels).0)
  {
    assert Flatten(data) == data[0] + Flatten(data[1..]);
    var input := Reshape(data, xSize);
    if input.Some? {
      assert input.value != [] by {
        assert |Flatten(input.value)| >= zDim;
      }
      assert |input.value[0]| == xSize;
    }
  }

  /** No mmd-layer rows can be predicted as written, while the corrected `predict`
      runs the decoder from the mmd layer on them. */
  lemma PredictAsWrittenMmdFails(nets: Networks, xSize: nat, zDim: nat, data: Matrix, encoderLabels: Labels,
                                 decoderLabels: Labels)
    requires xSize > 0
    ensures PredictAsWritten(nets, xSize, zDim, data, encoderLabels, decoderLabels, "mmd") == None
    ensures Predict(nets, xSize, zDim, data, encoderLabels, decoderLabels, "mmd") == Some(nets.fromMmd(data).0)
  {
  }

  /** `predict` with the reshape applied to primary-space data only: latent rows go to
      the decoder as they are, under the decoder's own check, and mmd-layer rows to the
      decoder run from its mmd layer. */
  function Predict(nets: Networks, xSize: nat, zDim: nat, data: Matrix, encoderLabels: Labels,
                   decoderLabels: Labels, dataSpace: string): (r: Option<Matrix>)
    requires xSize > 0
    ensures dataSpace == "latent" ==>
              (r.Some? <==> Fits(data, zDim, decoderLabels)) &&
              (r.Some? ==> r.value == nets.decoder(data, decoderLabels).0)
    ensures dataSpace == "mmd" ==> r == Some(nets.fromMmd(data).0)
    ensures dataSpace != "latent" && dataSpace != "mmd" ==>
              (r.Some? ==> Remainder(|Flatten(data)|, xSize) == 0) &&
              (Rect(data, xSize) ==>
                 (r.Some? <==>
                    |data| == |encoderLabels| && Fits(nets.encoder(data, encoderLabels), zDim, decoderLabels)) &&
                 (r.Some? ==> r.value == nets.decoder(nets.encoder(data, encoderLabels), decoderLabels).0))
  {
    if dataSpace == "latent" then
      if Fits(data, zDim, decoderLabels) then
        Some(Reconstruct(nets, data, encoderLabels, decoderLabels, true).0)
      else None
    else if dataSpace == "mmd" then Some(nets.fromMmd(data).0)
    else
      var input := Reshape(data, xSize);
      ReshapeIdentity(data, xSize);
      if input.None? then None
      else if |input.value| == |encoderLabels| &&
              Fits(nets.encoder(input.value, encoderLabels), zDim, decoderLabels) then
        Some(Reconstruct(nets, input.value, encoderLabels, decoderLabels, false).0)
      else None
  }

  /** Predicting from the primary space is predicting from the latent space after
      encoding, and fails when the samples and encoder labels differ in number; on
      samples of the input size the corrected `predict` agrees with the one as written
      in every data space but 'mmd'. */
  lemma PredictThroughLatent(nets: Networks, xSize: nat, zDim: nat, data: Matrix, encoderLabels: Labels,
                             decoderLabels: Labels, dataSpace: string)
    requires xSize > 0 && Rect(data, xSize)
    ensures dataSpace != "latent" && dataSpace != "mmd" ==>
              (|data| == |encoderLabels| ==>
                 Predict(nets, xSize, zDim, data, encoderLabels, decoderLabels, dataSpace) ==
                 Predict(nets, xSize, zDim, nets.encoder(data, encoderLabels), encoderLabels, decoderLabels,
                         "latent")) &&
              (|data| != |encoderLabels| ==>
                 Predict(nets, xSize, zDim, data, encoderLabels, decoderLabels, dataSpace) == None)
    ensures dataSpace != "mmd" ==>
              Predict(nets, xSize, zDim, data, encoderLabels, decoderLabels, dataSpace) ==
              PredictAsWritten(nets, xSize, zDim, data, encoderLabels, decoderLabels, dataSpace)
  {
    ReshapeIdentity(data, xSize);
  }
}
