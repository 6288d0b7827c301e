/** A value that may be absent: the model's counterpart of a TypeScript `string | null`. */
module Optional {

  datatype Option<+T> = None | Some(value: T)
}
