/** Option and Result, the two failure-carrying shapes the Rust code uses
    (`Option<&String>` from a lookup, `Result<String, RenderError>` from rendering). */
module Wrappers {

  datatype Option<+T> = None | Some(value: T)

  datatype Result<+T, +E> = Ok(value: T) | Err(error: E)
}
