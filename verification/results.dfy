/** The result codes every public write operation returns instead of raising. */
module Results {

  /** `SDFormatResult`, in declaration order (Success is 0). */
  datatype Status =
    | Success
    | AccessDenied
    | DeviceBusy
    | InvalidDevice
    | IOError
    | TooSmall
    | UnknownError

  /** The integer value the C enumeration gives each code. */
  function Code(s: Status): (c: nat)
    ensures c <= 6
    ensures c == 0 <==> s == Success
  {
    match s
    case Success => 0
    case AccessDenied => 1
    case DeviceBusy => 2
    case InvalidDevice => 3
    case IOError => 4
    case TooSmall => 5
    case UnknownError => 6
  }

  /** A value or the code of the failure that prevented it. */
  datatype Result<T> = Ok(value: T) | Fail(status: Status)
}
