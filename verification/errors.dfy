/** The exceptions the algorithm service raises, and how `str(e)` renders each of them. */
module Errors {

  datatype Error =
    | ValueError(message: string)         // invalid routine input
    | IndexError(message: string)         // a ragged matrix indexed past a row's end
    | KeyError(key: string)               // a missing key in a dict
    | ZeroDivisionError(message: string)  // `//` by zero
    | StoreError(message: string)         // the record store wrapper's `Exception("Failed to ...")`
    | ProcessingError(message: string)    // the dispatcher's `Exception("Algorithm processing failed: ...")`

  /** `str(e)`: the message; a KeyError renders its key in single quotes. */
  function Str(e: Error): string {
    match e
    case ValueError(m) => m
    case IndexError(m) => m
    case KeyError(k) => "'" + k + "'"
    case ZeroDivisionError(m) => m
    case StoreError(m) => m
    case ProcessingError(m) => m
  }

  /** The message Python gives an IndexError on a list. */
  const ListIndexOutOfRange := "list index out of range"

  /** The message Python gives a ZeroDivisionError raised by `//` on integers. */
  const IntegerDivisionByZero := "integer division or modulo by zero"
}
