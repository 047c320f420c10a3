/** Option and Result wrappers shared by the whole model. Python's `None` is
    `Option.None`; a raised exception that the model tracks is `Result.Err`. */
module Results {

  datatype Option<+T> = None | Some(value: T)

  datatype Result<+T, +E> = Ok(value: T) | Err(error: E)
}
