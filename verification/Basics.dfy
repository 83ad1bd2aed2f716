/** Small shared datatypes. */
module Basics {
  datatype Option<+T> = None | Some(value: T)

  /** Moments and durations are integers in one unit; `None` is the zero `time.Time`. */
  type Time = int
  type Id = string
}
