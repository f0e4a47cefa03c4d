/** Failure-aware results for the operations whose Python code raises. */
module Wrappers {

  datatype Option<T> = None | Some(value: T)

  /** The Python exceptions the modelled code can raise, by the condition that raises them. */
  datatype Error =
    | ZeroDivision                   // `x % 0`, `x / 0` or `x // 0`
    | EmptyRandomRange               // `random.randint(0, -1)`
    | ChoiceFromEmpty                // `random.choice([])`
    | SampleLargerThanPopulation     // `random.sample(pop, k)` with k > len(pop)
    | MissingKey                     // a `dict[key]` lookup of an absent key
    | ProportionOutOfRange           // the fast-forklift percentage is outside [0, 100]
    | NoPositiveProcessingTime(truck: nat) // a truck whose total is 0 on every machine
    | NotAnInteger                   // `int(token)` on a token that is not an integer
    | NotAFloat                      // `float(token)` on a token that is not a number
    | MaxOfEmpty                     // `max()` of an empty sequence
    | IndexOutOfRange                // a list index past the end of the list
    | RaggedRows                     // `np.array` of rows of different lengths
    | NotAMatrix                     // unpacking the shape of an array that is not two-dimensional

  datatype Result<T> = Success(value: T) | Failure(error: Error)
}
