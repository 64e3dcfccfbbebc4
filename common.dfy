/** Shared result shapes: JavaScript's nullable values and the settle outcome of an awaited request. */
module Common {

  /** A value that may be absent (`null` / `undefined` in the application). */
  datatype Option<+T> = None | Some(value: T)

  /** How an awaited generation request settled: the resolved value, or a rejection caught by the handler. */
  datatype Outcome<+T> = Succeeded(value: T) | Failed

  /** JavaScript truthiness of a nullable string: `null` and `""` are falsy. */
  predicate Truthy(o: Option<string>)
  {
    o.Some? && o.value != ""
  }
}
