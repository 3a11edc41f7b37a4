/** Small things shared by the other modules. */
module Wrappers {
  datatype Option<+T> = None | Some(value: T)

  /** A mark without meaning.  A definition that quantifies over Unfolded values
      stays folded in a proof until the mark is mentioned. */
  predicate Unfolded<T>(x: T) { true }
}
