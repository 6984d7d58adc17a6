/** Outcome types shared by the probe modules: an optional value (the
    broker's "no result" sentinel) and a success-or-error result (the
    broker's lookup errors, which the source raises as exceptions). */
module Results {

  datatype Option<+T> = None | Some(value: T)

  datatype Result<+T, +E> = Ok(value: T) | Err(error: E) {

    /** Forgets the error: an error becomes the no-result outcome. */
    function ToOption(): (o: Option<T>)
      ensures o.Some? <==> Ok?
      ensures Ok? ==> o.value == value
    {
      match this
      case Ok(v) => Some(v)
      case Err(_) => None
    }
  }
}
