/** The authorization and lifecycle engine: admitting new requests and
    deciding pending ones. The store is threaded through explicitly and the
    clock is the parameter `now`. */
module RequestService {
  import opened Results
  import opened Domain
  import Db

  /** Read a request by id; a missing id is an error. */
  function Get(s: Db.Store, id: string): (r: Result<Request>)
    ensures r.Err? ==> r.error == RequestNotFound
    ensures Db.Valid(s) ==> (r.Ok? <==> id in s.requests)
    ensures r.Ok? ==>
      && id in s.requests
      && r.value.id == id
      && r.value.requester.id == s.requests[id].requesterId
      && r.value.requestType == s.requests[id].requestType
      && r.value.expirationDate == s.requests[id].expirationDate
      && r.value.status == s.requests[id].status
    ensures r.Ok? && Db.Valid(s) ==> r.value.requester == s.requesters[s.requests[id].requesterId]
  {
    match Db.GetRequest(s, id)
    case None => Err(RequestNotFound)
    case Some(q) => Ok(q)
  }

  /** Admit a request. An expired request is refused first, then a request
      whose type differs from its requester's role; otherwise the store
      inserts it, with status PENDING. The role compared is the one carried
      by the request value the caller passes in. */
  function Create(s: Db.Store, q: Request, now: int): (r: Result<Db.Store>)
    ensures IsExpired(q, now) ==> r == Err(RequestExpired)
    ensures !IsExpired(q, now) && q.requestType != q.requester.role ==> r == Err(TypeRoleMismatch)
    ensures r.Ok? <==>
      && !IsExpired(q, now)
      && q.requestType == q.requester.role
      && q.id !in s.requests
      && q.requester.id in s.requesters
    ensures r.Err? && !IsExpired(q, now) && q.requestType == q.requester.role ==>
      r.error == (if q.id in s.requests then DuplicateId else ForeignKeyMissing)
    ensures r.Ok? && Db.Valid(s) ==>
      && Db.Valid(r.value)
      && Get(r.value, q.id) == Ok(q.(requester := s.requesters[q.requester.id], status := Pending))
    ensures r.Ok? ==> forall k :: k != q.id ==> Get(r.value, k) == Get(s, k)
    ensures r.Ok? ==> r.value.requesters == s.requesters && r.value.requests.Keys == s.requests.Keys + {q.id}
  {
    if IsExpired(q, now) then Err(RequestExpired)
    else if q.requestType != q.requester.role then Err(TypeRoleMismatch)
    else Db.InsertRequest(s, q)
  }

  /** What a successful create reads back: when the request carries the
      stored requester, reading it returns the request itself, with status
      PENDING even if the value passed in carried another status. */
  lemma CreateThenGet(s: Db.Store, q: Request, now: int)
    requires Db.Valid(s)
    requires Create(s, q, now).Ok?
    requires s.requesters[q.requester.id] == q.requester
    ensures Get(Create(s, q, now).value, q.id) == Ok(q.(status := Pending))
  {
  }

  /** When callers pass the stored requester, creation keeps every stored
      request's type equal to its requester's role. */
  lemma CreateKeepsTypesMatchingRoles(s: Db.Store, q: Request, now: int)
    requires Db.Valid(s) && Db.TypesMatchRoles(s)
    requires q.requester.id in s.requesters ==> s.requesters[q.requester.id] == q.requester
    ensures Create(s, q, now).Ok? ==> Db.TypesMatchRoles(Create(s, q, now).value)
  {
  }

  /** The conditions under which an approver may decide a request: not
      expired, still PENDING, a type the approver may handle, and a requester
      whose role is not A. */
  predicate MayDecide(q: Request, a: Approver, now: int) {
    && !IsExpired(q, now)
    && q.status == Pending
    && q.requestType in a.allowedTypes
    && q.requester.role != A
  }

  /** The guard chain. Checks run in a fixed order and the first failure is
      the one reported. The final answer repeats the allowed-types check
      already passed, so it is never `false`. */
  function CanApprove(q: Request, a: Approver, now: int): (r: Result<bool>)
    ensures r != Ok(false)
    ensures r.Ok? <==> MayDecide(q, a, now)
    ensures IsExpired(q, now) ==> r == Err(RequestExpired)
    ensures !IsExpired(q, now) && q.status != Pending ==> r == Err(AlreadyProcessed)
    ensures !IsExpired(q, now) && q.status == Pending && q.requestType !in a.allowedTypes ==>
      r == Err(TypeNotAllowed)
    ensures !IsExpired(q, now) && q.status == Pending && q.requestType in a.allowedTypes && q.requester.role == A ==>
      r == Err(RequesterRoleForbidden)
  {
    if IsExpired(q, now) then Err(RequestExpired)
    else if q.status != Pending then Err(AlreadyProcessed)
    else if q.requestType !in a.allowedTypes then Err(TypeNotAllowed)
    else if q.requester.role == A then Err(RequesterRoleForbidden)
    else Ok(q.requestType in a.allowedTypes)
  }

  /** The status a decision writes. */
  function Decision(approve: bool): (st: Status)
    ensures IsTerminal(st)
    ensures st == Approved <==> approve
  {
    if approve then Approved else Rejected
  }

  /** Decide a stored request: read it, run the guard chain, and on success
      store APPROVED or REJECTED according to `approve`, which defaults to
      approving. A failed call yields an error and no new store. */
  function Process(s: Db.Store, id: string, a: Approver, now: int, approve: bool := true): (r: Result<Db.Store>)
    ensures Get(s, id).Err? ==> r == Err(RequestNotFound)
    ensures r != Err(NoPermission)
    ensures r.Ok? <==> Get(s, id).Ok? && MayDecide(Get(s, id).value, a, now)
    ensures Get(s, id).Ok? ==>
      var q := Get(s, id).value;
      && (IsExpired(q, now) ==> r == Err(RequestExpired))
      && (!IsExpired(q, now) && q.status != Pending ==> r == Err(AlreadyProcessed))
      && (!IsExpired(q, now) && q.status == Pending && q.requestType !in a.allowedTypes ==>
            r == Err(TypeNotAllowed))
      && (!IsExpired(q, now) && q.status == Pending && q.requestType in a.allowedTypes && q.requester.role == A ==>
            r == Err(RequesterRoleForbidden))
    ensures r.Ok? ==> Get(r.value, id) == Ok(Get(s, id).value.(status := Decision(approve)))
    ensures r.Ok? ==> forall k :: k != id ==> Get(r.value, k) == Get(s, k)
    ensures r.Ok? ==> r.value.requesters == s.requesters && r.value.requests.Keys == s.requests.Keys
    ensures r.Ok? && Db.Valid(s) ==> Db.Valid(r.value)
    ensures r.Ok? && Db.TypesMatchRoles(s) ==> Db.TypesMatchRoles(r.value)
  {
    match Get(s, id)
    case Err(e) => Err(e)
    case Ok(q) =>
      match CanApprove(q, a, now)
      case Err(e) => Err(e)
      case Ok(allowed) =>
        if !allowed then Err(NoPermission)
        else Ok(Db.UpdateRequestStatus(s, q.id, Decision(approve)))
  }

  /** A decided request is absorbing: every later attempt on it fails,
      whatever the approver, the flag or the time; before its expiry the
      failure reported is "already processed". */
  lemma DecidedRequestIsAbsorbing(s: Db.Store, id: string, a: Approver, now: int, approve: bool,
                                  a': Approver, now': int, approve': bool)
    requires Process(s, id, a, now, approve).Ok?
    ensures Process(Process(s, id, a, now, approve).value, id, a', now', approve').Err?
    ensures now' <= Get(s, id).value.expirationDate ==>
      Process(Process(s, id, a, now, approve).value, id, a', now', approve') == Err(AlreadyProcessed)
  {
  }

  /** A request whose requester has role A can never be decided, even by an
      approver whose allowed types include A. */
  lemma RoleARequestsAreUndecidable(s: Db.Store, id: string, a: Approver, now: int, approve: bool)
    requires Get(s, id).Ok? && Get(s, id).value.requester.role == A
    ensures Process(s, id, a, now, approve).Err?
    ensures
      var q := Get(s, id).value;
      !IsExpired(q, now) && q.status == Pending && A in a.allowedTypes && q.requestType == A ==>
        Process(s, id, a, now, approve) == Err(RequesterRoleForbidden)
  {
  }
}
