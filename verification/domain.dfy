/** The entity records of the approval workflow: requesters, approvers and
    requests. All of them are immutable values; construction is the only way
    to give a field its value. */
module Domain {

  /** The three category labels shared by roles, request types and approver
      permissions. */
  datatype TypeTag = A | B | C

  /** PENDING is initial; APPROVED and REJECTED are terminal. */
  datatype Status = Pending | Approved | Rejected

  predicate IsTerminal(st: Status) {
    st != Pending
  }

  datatype Requester = Requester(id: string, name: string, role: TypeTag)

  /** `allowedTypes` is the approver's array of permitted request types. */
  datatype Approver = Approver(id: string, name: string, allowedTypes: seq<TypeTag>)

  /** A request embeds its requester. Times are integers (milliseconds on
      the caller's clock); the status defaults to PENDING. */
  datatype Request = Request(
    id: string,
    requester: Requester,
    requestType: TypeTag,
    expirationDate: int,
    status: Status := Pending)

  /** Expiry is a strict comparison against the clock reading `now`; it is
      recomputed on every check, never stored. */
  function IsExpired(q: Request, now: int): (expired: bool)
    ensures now <= q.expirationDate ==> !expired
    ensures q.expirationDate < now ==> expired
  {
    q.expirationDate < now
  }

  /** A request built without an explicit status is PENDING, and every field
      holds the argument it was built from. */
  lemma NewRequestIsPending(id: string, r: Requester, t: TypeTag, e: int)
    ensures Request(id, r, t, e).status == Pending
    ensures Request(id, r, t, e).id == id
    ensures Request(id, r, t, e).requester == r
    ensures Request(id, r, t, e).requestType == t
    ensures Request(id, r, t, e).expirationDate == e
  {
  }

  /** At the exact expiration instant a request is still live. */
  lemma NotExpiredAtDeadline(q: Request)
    ensures !IsExpired(q, q.expirationDate)
  {
  }

  /** Once expired, a request stays expired at every later time. */
  lemma ExpiryIsMonotone(q: Request, t: int, t': int)
    requires t <= t'
    requires IsExpired(q, t)
    ensures IsExpired(q, t')
  {
  }
}
