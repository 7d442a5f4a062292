module Endings {
  /** What a call that may end the process did. */
  datatype Ending = Returned | Exited
}
