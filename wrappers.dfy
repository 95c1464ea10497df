/** The optional value used for `number | null` and for "no request issued". */
module Wrappers {

  datatype Option<+T> = None | Some(value: T)
}
