/** Error reporting shared by the neuron, link and network models.
    Each C++ `throw` site of the engine becomes one `Error` constructor, and
    an operation that can throw returns an `Outcome` or a `Result`. */
module Results {

  datatype Option<+T> = None | Some(value: T)

  /** The exceptions thrown by the engine, one constructor per throw site. */
  datatype Error =
    // Network build phase (logic_error)
    | InputLayerAlreadySet
    | InputLayerNotSet
    | OutputLayerAlreadySet
    | OutputLayerNotSet
    // Network run phase and lookups (invalid_argument)
    | InputValuesTooShort
    | ExpectedValuesTooShort
    | LayerOutOfBound
    | PositionOutOfBound
    // std::vector::at (out_of_range)
    | OutOfRange
    // Neuron kind guards (logic_error)
    | BiasHasNoInputLinks
    | InputHasNoInputLinks
    | OutputHasNoOutputLinks
    | BiasCannotBeComputed
    | InputCannotBeComputed
    | OnlyOutputComputesDeltaOutput
    | OnlyInputCanBeSet

  /** The outcome of an operation that returns nothing (C++ `void`). */
  datatype Outcome = Pass | Fail(error: Error)

  /** The outcome of an operation that returns a value. */
  datatype Result<+T> = Ok(value: T) | Err(error: Error)
}
