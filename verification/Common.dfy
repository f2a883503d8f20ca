/** Shared value types: optional values, results that may be refused, and replica ids. */
module Common {

  datatype Option<+T> = None | Some(value: T)

  /** A call that either returns a value or is refused with a reason. */
  datatype Result<+T, +E> = Ok(value: T) | Refused(reason: E)

  /** A replica id, known by its rank in the order ids are sorted by. */
  datatype Id = Id(rank: int)
}
