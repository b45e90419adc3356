/** Rust's `Result`, as returned by the fallible vector conversion and by the
    layer-composition macro's parser. */
module Results {

  datatype Result<+T, +E> = Ok(value: T) | Err(error: E)
}
