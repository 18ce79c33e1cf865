/** Option and Result values shared by every module of the model. */
module Base {
  /** A value that may be absent (Python's `None`). */
  datatype Option<T> = None | Some(value: T)

  /** The outcome of a call that may raise: `Err` carries what would be raised. */
  datatype Result<T, E> = Ok(value: T) | Err(error: E)

  /** One for true, zero for false, for counting events. */
  function Bit(b: bool): int { if b then 1 else 0 }

  /** Concatenation is associative; stated once so that long appends need not rediscover it. */
  lemma ConcatAssoc<T>(a: seq<T>, b: seq<T>, c: seq<T>)
    ensures a + b + c == a + (b + c)
  {
  }
}
