/** The optional values of the dashboard's records: a TypeScript `T | undefined` field. */
module Wrappers {

  datatype Option<+T> = None | Some(value: T)
}
