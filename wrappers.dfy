/** The nullable values of the front end (`T | null`, an absent record field). */
module Wrappers {
  datatype Option<+T> = None | Some(value: T)
}
