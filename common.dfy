/**
 Values shared by the oracle server and the dapp client: account handles and
 the optional value that stands for JavaScript's `undefined`.
 */
module Common {

  /** An account handle, as the hexadecimal string web3 hands out. */
  type Address = string

  /** `None` models a JavaScript value that is `undefined` (or `null`). */
  datatype Option<+T> = None | Some(value: T)

  /**
   Reading `xs[i]` from a JavaScript array: the element when `i` is in range,
   `undefined` otherwise (the read never throws).
   */
  function At<T>(xs: seq<T>, i: nat): Option<T>
  {
    if i < |xs| then Some(xs[i]) else None
  }
}
