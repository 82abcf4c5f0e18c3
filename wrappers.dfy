/** The optional value used wherever the storefront code uses `null`,
    `undefined` or `NaN` to mean "no value". */
module Wrappers {

  datatype Option<+T> = None | Some(value: T)
}
