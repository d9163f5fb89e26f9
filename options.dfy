/** The optional value used across the model: a missing endpoint, a storage
    error that may or may not occur, the last record of a batch for a key. */
module Options {

  datatype Option<+T> = None | Some(value: T)

}
