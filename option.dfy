/** `Option<T>` as the library uses it (the result of `chebyshev_init`, the
    optional sign slot of `lgammafn_sign`). */
module Opt {
  datatype Option<T> = None | Some(value: T)
}
