/** Result codes of the driver framework (embedd_error.h) and the nullable-pointer wrapper. */
module EmbeddError {

  /** EMBEDD_RESULT: the two-valued status every fallible operation returns. */
  datatype Status = Ok | Err

  /** The numeric value of a status: OK is 0 and ERR is !OK, that is 1. */
  function Code(s: Status): (c: nat)
    ensures c <= 1
    ensures (c == 0) <==> (s == Ok)
  {
    match s
    case Ok => 0
    case Err => 1
  }

  /** A pointer that may be NULL: None stands for NULL. */
  datatype Option<+T> = None | Some(value: T)
}
