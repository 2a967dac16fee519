/** Outcome types shared by the store and the services. Every exception the
    TypeScript services throw becomes an `Error` value, so callers must
    handle each case explicitly. */
module Results {

  /** The store's "row or null" answer. */
  datatype Option<+T> = None | Some(value: T)

  /** One constructor per distinct failure the services or the store report. */
  datatype Error =
    | RequestNotFound         // lookup of a request id that is not stored
    | RequestExpired          // the expiration date lies strictly before `now`
    | TypeRoleMismatch        // request type differs from the requester's role
    | AlreadyProcessed        // the stored status is no longer PENDING
    | TypeNotAllowed          // the approver's allowed types omit the request type
    | RequesterRoleForbidden  // requests of role-A requesters may not be decided
    | NoPermission            // the permission check answered false
    | DuplicateId             // primary-key violation in the store
    | ForeignKeyMissing       // the request names a requester that is not stored

  /** A value, or the error that stopped the computation. */
  datatype Result<+T> = Ok(value: T) | Err(error: Error)
}
