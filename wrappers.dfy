/** The optional value used where the dashboard has nothing to show (a company without rows). */
module Wrappers {
  datatype Option<+T> = None | Some(value: T)
}
