/** The configuration rules the three `train` methods share, and the ways a training
    call can fail before or while it runs. */
module TrainConfig {
  import opened Numerics

  datatype TrainError =
    | MissingValidData   // validation requested but no validation data given
    | MissingCheckpoint  // resuming a run when no checkpoint has been saved
    | ZeroBatchSize      // `range(0, n, 0)` fails
    | EmptyValidData     // the mean validation loss divides by zero rows
    | ShapeMismatch      // the data does not reshape into samples of the model's input shape
    | EmptyTrainReport   // the verbose epoch report divides an empty training set's loss by zero batches
    | UnfetchableMmdLoss // with fewer than two conditions the MMD loss is a number, which a session cannot fetch

  /** The check each `train` makes before fitting: validation requested without
      validation data is an error; otherwise the result is the validation data that will
      be used, none when validation is off. */
  function CheckValidation<D>(useValidation: bool, validData: Option<D>): (r: Result<Option<D>, TrainError>)
    ensures r.Err? <==> useValidation && validData.None?
    ensures r.Err? ==> r.error == MissingValidData
    ensures r.Ok? ==> (r.value.Some? <==> useValidation) && (useValidation ==> r.value == validData)
  {
    if useValidation && validData.None? then Err(MissingValidData)
    else if useValidation then Ok(validData)
    else Ok(None)
  }
}
