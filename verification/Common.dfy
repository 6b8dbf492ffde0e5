/** Option and Result values shared by the modules, and the HTTP-style errors the services throw. */
module Common {

  datatype Option<+T> = None | Some(value: T)

  datatype Error =
    | BadRequest
    | Unauthorized
    | NotFound
    | Conflict
    | DatabaseError  // an exception of the database client that the service does not translate

  datatype Result<+T> = Ok(value: T) | Err(error: Error)

  function Min(a: int, b: int): int {
    if a < b then a else b
  }

  function Max(a: int, b: int): int {
    if a < b then b else a
  }

}
