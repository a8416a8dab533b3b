/** The Keras models' weights and the model directory they are saved to and restored
    from.  Each model file holds the weights of one Keras model; a network is the main
    (training) model plus its encoder and decoder.  Loading a missing file raises, and
    the models already loaded by then stay loaded. */
module ModelStore {
  import opened Numerics

  /** The weights of one Keras model, abstracted to a flat vector. */
  type Weights = seq<real>

  /** The model directory: file name to the weights saved in it. */
  type Directory = map<string, Weights>

  datatype Models = Models(main: Weights, encoder: Weights, decoder: Weights)

  const EncoderFile: string := "encoder.h5"
  const DecoderFile: string := "decoder.h5"

  /** A main-model file name distinct from the encoder's and decoder's. */
  predicate MainFile(name: string)
  {
    name != EncoderFile && name != DecoderFile
  }

  /** The directory after saving the three models, the main one under `mainFile`:
      the three files are (over)written and every other file is kept. */
  function Saved(dir: Directory, mainFile: string, m: Models): (d: Directory)
    requires MainFile(mainFile)
    ensures d.Keys == dir.Keys + {mainFile, EncoderFile, DecoderFile}
    ensures d[mainFile] == m.main && d[EncoderFile] == m.encoder && d[DecoderFile] == m.decoder
    ensures forall f :: f in dir && MainFile(f) && f != mainFile ==> d[f] == dir[f]
  {
    dir[mainFile := m.main][EncoderFile := m.encoder][DecoderFile := m.decoder]
  }

  /** The three models read back from the directory, None when a file is missing. */
  function Loaded(dir: Directory, mainFile: string): (r: Option<Models>)
    ensures r.Some? <==> mainFile in dir && EncoderFile in dir && DecoderFile in dir
    ensures r.Some? ==> r.value == Models(dir[mainFile], dir[EncoderFile], dir[DecoderFile])
  {
    if mainFile in dir && EncoderFile in dir && DecoderFile in dir then
      Some(Models(dir[mainFile], dir[EncoderFile], dir[DecoderFile]))
    else None
  }

  /** Restoring from the file a network was saved under gives back the saved models,
      whatever the directory held before. */
  lemma LoadAfterSave(dir: Directory, mainFile: string, m: Models)
    requires MainFile(mainFile)
    ensures Loaded(Saved(dir, mainFile, m), mainFile) == Some(m)
  {
  }

  /** A second save under the same name replaces the first. */
  lemma SaveOverwrites(dir: Directory, mainFile: string, m: Models, m': Models)
    requires MainFile(mainFile)
    ensures Saved(Saved(dir, mainFile, m), mainFile, m') == Saved(dir, mainFile, m')
  {
    var d1 := Saved(Saved(dir, mainFile, m), mainFile, m');
    var d2 := Saved(dir, mainFile, m');
    assert forall f :: f in d1 <==> f in d2;
    forall f | f in d1 ensures d1[f] == d2[f] {
    }
  }

  /** A network: the three models it holds (`self.<model>`, `self.encoder_model`,
      `self.decoder_model`) and the model directory it saves to. */
  class Network {
    var main: Weights
    var encoder: Weights
    var decoder: Weights
    var dir: Directory

    function Current(): Models
      reads this
    {
      Models(main, encoder, decoder)
    }

    constructor (m: Models, dir: Directory)
      ensures Current() == m && this.dir == dir
    {
      main, encoder, decoder := m.main, m.encoder, m.decoder;
      this.dir := dir;
    }

    /** Replace the held models, as fitting does. */
    method SetModels(m: Models)
      modifies this
      ensures Current() == m && dir == old(dir)
    {
      main, encoder, decoder := m.main, m.encoder, m.decoder;
    }

    /** Save the three models, the main one under `mainFile`. */
    method Save(mainFile: string)
      requires MainFile(mainFile)
      modifies this
      ensures dir == Saved(old(dir), mainFile, old(Current())) && Current() == old(Current())
    {
      dir := dir[mainFile := main];
      dir := dir[EncoderFile := encoder];
      dir := dir[DecoderFile := decoder];
    }

    /** `restore_model`: load the main model, then the encoder, then the decoder; a
        missing file stops the restore, keeping the models loaded before it.  `ok` says
        whether all three were loaded. */
    method Restore(mainFile: string) returns (ok: bool)
      modifies this
      ensures ok <==> Loaded(old(dir), mainFile).Some?
      ensures ok ==> Current() == Loaded(old(dir), mainFile).value
      ensures dir == old(dir)
      ensures main == (if mainFile in dir then dir[mainFile] else old(main))
      ensures encoder == (if mainFile in dir && EncoderFile in dir then dir[EncoderFile] else old(encoder))
      ensures decoder == (if ok then dir[DecoderFile] else old(decoder))
    {
      if mainFile !in dir {
        return false;
      }
      main := dir[mainFile];
      if EncoderFile !in dir {
        return false;
      }
      encoder := dir[EncoderFile];
      if DecoderFile !in dir {
        return false;
      }
      decoder := dir[DecoderFile];
      return true;
    }
  }
}
