/** Option and Result: JavaScript's `null`/`NaN` and thrown errors, as values. */
module Wrappers {

  datatype Option<+T> = None | Some(value: T)

  datatype Result<+T> = Ok(value: T) | Err(message: string)

  /** JavaScript truthiness of a possibly-missing id: `null` and `0` are both falsy. */
  predicate Truthy(o: Option<int>)
  {
    o.Some? && o.value != 0
  }
}
