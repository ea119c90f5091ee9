/** Optional values and the failures the chunk code can raise. */
module Outcomes {

  datatype Option<T> = None | Some(value: T)

  /** The runtime exceptions the chunk code can run into.  None of them is
      caught by the code itself. */
  datatype Error =
    | NegativeSize      // allocating a `short[Size, Size, Size]` with `Size < 0`
    | NullReference     // reading `BlockIDs` before any grid was allocated
    | IndexOutOfRange   // reading `BlockIDs` outside its dimensions

  datatype Result<T> = Success(value: T) | Failure(error: Error)
}
