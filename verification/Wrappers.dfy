/** Small types that several components use. */
module Wrappers {
  /** A value that may be missing. */
  datatype Option<T> = None | Some(value: T)

  /** How a write ends: an error does not say that the write was not taken. */
  datatype Escritura = Hecha | Perdida | Dudosa {
    /** It took effect. */
    predicate Surte() { !Perdida? }
  }
}
