/** Values shared by the crawler's components. */
module Types {

  /** A URL or raw href, as the crawler handles it: an uninterpreted string. */
  type Url = string

  /** A value that may be missing: Python's `None`, or an `IndexError` that the model returns instead. */
  datatype Option<+T> = None | Some(value: T)
}
