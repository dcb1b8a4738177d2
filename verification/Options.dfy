/** The shared helpers: a value that may be absent (a null pointer, an undefined result), and counting. */
module Options {
  datatype Option<+T> = None | Some(value: T)

  function One(b: bool): nat { if b then 1 else 0 }
}
