/** A value that may be absent: the model of an optional property (`x?: T`) of a schema record. */
module Optional {
  datatype Option<+T> = None | Some(value: T)
}
