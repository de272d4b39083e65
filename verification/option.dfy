/** The optional value used wherever the Python code returns or accepts `None`. */
module Optional {

  datatype Option<+T> = None | Some(value: T)
}
