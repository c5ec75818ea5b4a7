/** The miss sentinel of the cache: Python's `None` becomes `None`, a found value `Some(v)`. */
module Options {

  datatype Option<T> = None | Some(value: T)
}
