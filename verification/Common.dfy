/** What every part of the model shares. */
module Common {
  /** Nanoseconds on a logical clock. */
  type Time = int

  const SECOND := 1_000_000_000

  datatype Option<T> = None | Some(value: T)
}
