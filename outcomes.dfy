/** Shared result types: the optional value of a map lookup, the outcome of an operation that can
    throw, and the three ways a Reactor Mono can complete. */
module Outcomes {

  datatype Option<+T> = None | Some(value: T)

  /** Why an IllegalArgumentException was thrown. */
  datatype ArgumentError =
    | MinutesNotTenth      // minutesPlayed is not a whole multiple of 0.1
    | PlayerIdMismatch     // a game folded into another player's season aggregate
    | TeamIdMismatch       // a game folded into another team's season aggregate
    | SeasonMismatch       // a game folded into an aggregate of another season

  /** The exceptions the core raises or propagates. */
  datatype Error =
    | IllegalArgument(cause: ArgumentError)
    | IllegalState(message: string)
    | NullPointer          // a null reference was dereferenced
    | ArithmeticError      // BigDecimal division by zero
    | StoreFailure         // a repository write reported an error

  datatype Result<+T> = Ok(value: T) | Err(error: Error)

  /** A Mono emits one value, completes empty, or signals an error. */
  datatype Mono<+T> = Just(value: T) | Empty | Error(error: Error)
}
