/** The null-or-value shape used wherever the instrumented code returns a
    reference that may be null. */
module Options {

  datatype Option<+T> = None | Some(value: T)
}
