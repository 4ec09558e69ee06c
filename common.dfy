/** Values shared by the verification handler, the query generator view and the
    generated-test verifier: a nullable reference, an error-or-value result and
    the verifiers' three-valued verdict. */
module Common {

  /** A Java reference that may be null. */
  datatype Option<+T> = None | Some(value: T)

  /** A value or the exception that replaced it. */
  datatype Result<+T, +E> = Success(value: T) | Failure(error: E)

  /** The verdict a model checker returns for one query; UNDEF when it could not decide. */
  datatype ThreeStateBoolean = TRUE | FALSE | UNDEF

  /** Java's string conversion of a possibly null String (`"" + s`). */
  function JavaString(s: Option<string>): (r: string)
    ensures s.Some? ==> r == s.value
    ensures s.None? ==> r == "null"
  {
    match s
    case Some(v) => v
    case None => "null"
  }
}
