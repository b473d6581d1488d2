/** The two failure-carrying types the other modules share. */
module Results {

  datatype Option<+T> = None | Some(value: T)

  /** `anyhow::Result`, without the message. */
  datatype Result<+T> = Ok(value: T) | Err {
    predicate IsFailure() { Err? }

    function PropagateFailure<U>(): Result<U>
      requires Err?
    {
      Err
    }

    function Extract(): T
      requires Ok?
    {
      value
    }
  }
}
