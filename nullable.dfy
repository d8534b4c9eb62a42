/** The `T | null` results of the application, as an option type. */
module Nullable {

  datatype Option<+T> = None | Some(value: T)
}
