/** An abstract model of the relational store behind the services: the
    requester relation and the request relation as maps keyed by primary key.
    A request row holds its requester by id only; reading a request joins the
    row with the requester relation. */
module Db {
  import opened Results
  import opened Domain

  /** A row of the request relation. */
  datatype Row = Row(requesterId: string, requestType: TypeTag, expirationDate: int, status: Status)

  datatype Store = Store(requesters: map<string, Requester>, requests: map<string, Row>)

  const Empty: Store := Store(map[], map[])

  /** Schema discipline: each requester is stored under its own id, and every
      request row references a stored requester (the foreign key). */
  predicate Valid(s: Store) {
    && (forall k :: k in s.requesters ==> s.requesters[k].id == k)
    && (forall k :: k in s.requests ==> s.requests[k].requesterId in s.requesters)
  }

  /** Every stored request's type agrees with its stored requester's role. */
  predicate TypesMatchRoles(s: Store) {
    forall k :: k in s.requests && s.requests[k].requesterId in s.requesters ==>
      s.requests[k].requestType == s.requesters[s.requests[k].requesterId].role
  }

  lemma EmptyIsValid()
    ensures Valid(Empty) && TypesMatchRoles(Empty)
    ensures forall id :: GetRequest(Empty, id) == None
  {
  }

  /** Read a requester by id; nothing when no row has that key. */
  function GetRequester(s: Store, id: string): (r: Option<Requester>)
    ensures r.Some? <==> id in s.requesters
    ensures r.Some? ==> r.value == s.requesters[id]
    ensures r.Some? && Valid(s) ==> r.value.id == id
  {
    if id in s.requesters then Some(s.requesters[id]) else None
  }

  /** Insert a requester; a second requester with the same id violates the
      primary key. */
  function InsertRequester(s: Store, r: Requester): (res: Result<Store>)
    ensures res.Ok? <==> r.id !in s.requesters
    ensures res.Err? ==> res.error == DuplicateId
    ensures res.Ok? ==> GetRequester(res.value, r.id) == Some(r)
    ensures res.Ok? ==> res.value.requests == s.requests
    ensures res.Ok? ==> forall k :: k != r.id ==> GetRequester(res.value, k) == GetRequester(s, k)
    ensures res.Ok? && Valid(s) ==> Valid(res.value)
    ensures res.Ok? && Valid(s) && TypesMatchRoles(s) ==> TypesMatchRoles(res.value)
  {
    if r.id in s.requesters then Err(DuplicateId)
    else Ok(s.(requesters := s.requesters[r.id := r]))
  }

  /** Read a request: the row joined with its requester. The requester is
      rebuilt from the row's requester id and the requester relation's name
      and role; a row whose requester is missing yields nothing (inner join). */
  function GetRequest(s: Store, id: string): (r: Option<Request>)
    ensures r.Some? <==> id in s.requests && s.requests[id].requesterId in s.requesters
    ensures r.Some? ==>
      var row := s.requests[id];
      && r.value.id == id
      && r.value.requester.id == row.requesterId
      && r.value.requester.name == s.requesters[row.requesterId].name
      && r.value.requester.role == s.requesters[row.requesterId].role
      && r.value.requestType == row.requestType
      && r.value.expirationDate == row.expirationDate
      && r.value.status == row.status
  {
    if id in s.requests && s.requests[id].requesterId in s.requesters then
      var row := s.requests[id];
      var rq := s.requesters[row.requesterId];
      Some(Request(id, Requester(row.requesterId, rq.name, rq.role), row.requestType, row.expirationDate, row.status))
    else None
  }

  /** Under the schema discipline, a request can be read back exactly when a
      row with that id is stored, and what is read back carries the row's
      data and the stored requester. */
  lemma GetRequestOfValid(s: Store, id: string)
    requires Valid(s)
    ensures GetRequest(s, id).Some? <==> id in s.requests
    ensures id in s.requests ==>
      var row := s.requests[id];
      GetRequest(s, id) == Some(Request(id, s.requesters[row.requesterId], row.requestType, row.expirationDate, row.status))
  {
  }

  /** Insert a request. Only id, requester id, type and expiration date are
      written; the status column takes its default, PENDING, whatever status
      the request value carries. A duplicate id is reported before a missing
      requester. */
  function InsertRequest(s: Store, q: Request): (res: Result<Store>)
    ensures res.Ok? <==> q.id !in s.requests && q.requester.id in s.requesters
    ensures q.id in s.requests ==> res == Err(DuplicateId)
    ensures q.id !in s.requests && q.requester.id !in s.requesters ==> res == Err(ForeignKeyMissing)
    ensures res.Ok? ==> res.value.requesters == s.requesters
    ensures res.Ok? ==> res.value.requests.Keys == s.requests.Keys + {q.id}
    ensures res.Ok? ==> forall k :: k in s.requests ==> res.value.requests[k] == s.requests[k]
    ensures res.Ok? ==> res.value.requests[q.id].status == Pending
    ensures res.Ok? && Valid(s) ==>
      Valid(res.value) &&
      GetRequest(res.value, q.id) == Some(q.(requester := s.requesters[q.requester.id], status := Pending))
  {
    if q.id in s.requests then Err(DuplicateId)
    else if q.requester.id !in s.requesters then Err(ForeignKeyMissing)
    else Ok(s.(requests := s.requests[q.id := Row(q.requester.id, q.requestType, q.expirationDate, Pending)]))
  }

  /** Overwrite the status of one request. Updating an id that is not stored
      touches no row and is not an error. */
  function UpdateRequestStatus(s: Store, id: string, st: Status): (s': Store)
    requires IsTerminal(st)
    ensures s'.requesters == s.requesters
    ensures s'.requests.Keys == s.requests.Keys
    ensures forall k :: k in s.requests && k != id ==> s'.requests[k] == s.requests[k]
    ensures id in s.requests ==> s'.requests[id] == s.requests[id].(status := st)
    ensures Valid(s) ==> Valid(s')
    ensures TypesMatchRoles(s) ==> TypesMatchRoles(s')
  {
    if id in s.requests then s.(requests := s.requests[id := s.requests[id].(status := st)])
    else s
  }
}
