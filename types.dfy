/**
 * Values shared by every part of the projected-filesystem instance: the
 * closed `Result` taxonomy, projection states, update failure causes, and
 * the exceptions the managed code can raise.
 */
module Types {

  /** One byte of a buffer exchanged with the driver or written to a file. */
  type byte = x: int | 0 <= x < 256

  /** Exact length in bytes of a placeholder's provider and content identifiers. */
  const PlaceholderIdLength: nat := 128

  /** An identifier buffer of exactly PlaceholderIdLength bytes. */
  type PlaceholderId = s: seq<byte> | |s| == PlaceholderIdLength witness seq(PlaceholderIdLength, _ => 0)

  datatype Option<T> = None | Some(value: T)

  /** The outcome of every outbound operation and provider callback. */
  datatype Result =
    | Success
    | Invalid
    | EIOError
    | EAccessDenied
    | EFileNotFound
    | EPathNotFound
    | EDirectoryNotEmpty
    | EVirtualizationInvalidOperation
    | EDriverNotLoaded
    | ENotYetImplemented

  /** Materialisation status of a path, as the driver reports it. */
  datatype ProjectionState = Empty | Placeholder | Full | Unknown

  /** Why a requested delete or update did not go ahead. */
  datatype UpdateFailureCause = NoFailure | ReadOnly | DirtyData

  /** Exceptions the managed code raises or runs into. */
  datatype Exception =
    | InvalidOperation   // a second start while a session is held
    | ArgumentException  // an identifier that is not PlaceholderIdLength bytes long
    | NullReference      // a driver call made while no session is held

  /** A call that either returns a value or throws. */
  datatype Outcome<T> = Returned(value: T) | Threw(exception: Exception)

  /**
   * The numeric constants of the native side, whose values live outside
   * this model: the Result-to-errno mapping, EPERM, ENOTEMPTY, and the
   * explicit allow/deny answers of a permission event.
   */
  datatype Native = Native(
    toErrno: Result -> int,
    eperm: int,
    enotempty: int,
    projfsAllow: int,
    projfsDeny: int)

  /**
   * The one fact about the errno mapping that the handlers rely on: Success
   * maps to 0, the value the driver reads as "carry on" and the value a
   * permission handler turns into an explicit allow.
   */
  predicate SuccessIsZero(n: Native)
  {
    n.toErrno(Success) == 0
  }

  /** The enum member name that `Result.ToString()` yields. */
  function ResultName(r: Result): (name: string)
    ensures |name| > 0
  {
    match r
    case Success => "Success"
    case Invalid => "Invalid"
    case EIOError => "EIOError"
    case EAccessDenied => "EAccessDenied"
    case EFileNotFound => "EFileNotFound"
    case EPathNotFound => "EPathNotFound"
    case EDirectoryNotEmpty => "EDirectoryNotEmpty"
    case EVirtualizationInvalidOperation => "EVirtualizationInvalidOperation"
    case EDriverNotLoaded => "EDriverNotLoaded"
    case ENotYetImplemented => "ENotYetImplemented"
  }
}
