/** Types every other module uses. */
module Common {
  datatype Option<+T> = None | Some(value: T)

  datatype Result<+T, +E> = Ok(value: T) | Err(error: E)

  /** Node, line, instance and connection ids are strings in the store; only their
      equality matters to the algorithms. */
  datatype Id = Id(text: string)
}
