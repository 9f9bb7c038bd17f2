/** The optional value used wherever the dashboard can meet a missing key,
    an empty column or a zero denominator. */
module Wrappers {

  datatype Option<+T> = None | Some(value: T)
}
