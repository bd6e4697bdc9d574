/** What several parts of the model share: the outcome of a write to a server, and the bounds of an int32. */
module Common {
  /** A write to a server: made, lost, or made with an error reported all the same. */
  datatype Write = Done | Lost | DoneUnseen {
    predicate Took() { !Lost? }
  }

  const MIN_INT32: int := -0x8000_0000
  const MAX_INT32: int := 0x7fff_ffff
}
