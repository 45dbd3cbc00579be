/** Failure-carrying datatypes used in place of Java's null returns and exceptions. */
module Wrappers {

  /** A value that may be missing (Java's nullable reference). */
  datatype Option<+T> = None | Some(value: T)

  /** A value, or the reason the source would not have produced one. */
  datatype Result<+R, +E> = Success(value: R) | Failure(error: E)
}

/** Why a modelled operation produces no value where the Java code throws or never returns. */
module Errors {

  datatype Failure =
    /** `getNext` falls through every branch and returns null for this unit. */
    | UnsupportedUnit
    /** The month or year scan reads its field with `get`; of the modelled fields it throws for `EPOCH_DAY` only. */
    | NotIntField
    /** A day, month or year scan did not stop within the fuel it was given. */
    | ScanExhausted
    /** `truncatedTo` throws for a unit longer than a day. */
    | TruncationUnsupported
    /** A boundary that is not later than its bin start: the layout loop would never end. */
    | NoProgress
    /** `placeRecords` reads the first bin of an empty bin list. */
    | NoBins
}
