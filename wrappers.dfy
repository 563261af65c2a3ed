/** The optional values of the source: `number | null`, `Item | null`, `Shelf | undefined`. */
module Wrappers {

  datatype Option<+T> = None | Some(value: T)

}
