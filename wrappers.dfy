/** An optional value: `None` stands for JavaScript's NaN or a missing field. */
module Wrappers {

  datatype Option<+T> = None | Some(value: T)

}
