/** The exceptions the checkin raises or lets through, as values. */
module Exceptions {
  import opened Schema

  datatype Exception =
    | BimserverDatabaseException(fault: DatabaseFault)
    | UserException(reason: UserFault)
    | NullPointerException

  datatype DatabaseFault =
    | NoObjectsChanged
      /** The inverse fixer could not load a referenced object. */
    | ReferencedObjectNotFound(oid: int, referencedFrom: EClass)

  datatype UserFault =
    | ProjectNotFound(poid: int)
      /** `new UserException(cause)` around an exception of another kind. */
    | CausedBy(cause: Exception)

  /** The two kinds execute is declared to throw. */
  predicate Declared(e: Exception) {
    e.BimserverDatabaseException? || e.UserException?
  }
}
