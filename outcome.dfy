/** Optional values, the failures the core can raise, and results that carry
    either a value or one of those failures. */
module Outcome {

  datatype Option<T> = None | Some(value: T)

  /** The failures of the core: a name missing from the asset table
      (a KeyError on the assets dict), a name missing from the area table
      (a KeyError on the functional-areas dict), and a pick index outside
      the drawn node list (an IndexError on the node list). */
  datatype Error =
    | UnknownAsset(name: string)
    | UnknownArea(name: string)
    | IndexOutOfRange(index: nat, length: nat)

  datatype Result<T> = Ok(value: T) | Err(error: Error)
}
