/** Failure-carrying result types shared by both services: a Java `Optional`
    becomes an `Option`, a method that returns a value or throws becomes a
    `Result`, and a `void` method that may throw becomes an `Outcome`. */
module Results {

  datatype Option<+T> = None | Some(value: T)

  datatype Result<+R, +E> = Success(value: R) | Failure(error: E)

  datatype Outcome<+E> = Pass | Fail(error: E)
}
