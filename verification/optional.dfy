/** A value that may be absent: a JSON field that a request or response body may lack. */
module Optional {

  datatype Option<+T> = None | Some(value: T)
}
