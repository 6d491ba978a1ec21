/** Small failure-carrying datatypes shared by the other modules. */
module Wrappers {

  datatype Option<+T> = None | Some(value: T)

  /** The result of a step of the script that either yields a value or raises
      an exception. The script catches none of them, so a `Crash` ends the run. */
  datatype Outcome<+T> = Ok(value: T) | Crash
}
