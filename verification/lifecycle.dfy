/** The request lifecycle across any sequence of service calls. A failed
    call leaves the store as it was; a successful one replaces it. Over every
    such run, PENDING moves at most once, to APPROVED or REJECTED, and a
    terminal status never changes again. */
module Lifecycle {
  import opened Results
  import opened Domain
  import Db
  import RequestService

  /** The calls that change the store. */
  datatype Call =
    | AddRequester(requester: Requester)
    | CreateRequest(request: Request, now: int)
    | ProcessRequest(id: string, approver: Approver, now: int, approve: bool)

  function Apply(s: Db.Store, c: Call): Result<Db.Store> {
    match c
    case AddRequester(r) => Db.InsertRequester(s, r)
    case CreateRequest(q, now) => RequestService.Create(s, q, now)
    case ProcessRequest(id, a, now, approve) => RequestService.Process(s, id, a, now, approve)
  }

  /** The store after a call: unchanged when the call failed. */
  function Next(s: Db.Store, c: Call): Db.Store {
    match Apply(s, c)
    case Ok(s') => s'
    case Err(_) => s
  }

  function Run(s: Db.Store, calls: seq<Call>): Db.Store
    decreases |calls|
  {
    if |calls| == 0 then s else Run(Next(s, calls[0]), calls[1..])
  }

  /** True when call `c` successfully decides request `id`. */
  predicate Decides(s: Db.Store, c: Call, id: string) {
    c.ProcessRequest? && c.id == id && Apply(s, c).Ok?
  }

  /** How many calls of a run successfully decide request `id`. */
  function Decisions(s: Db.Store, calls: seq<Call>, id: string): nat
    decreases |calls|
  {
    if |calls| == 0 then 0
    else (if Decides(s, calls[0], id) then 1 else 0) + Decisions(Next(s, calls[0]), calls[1..], id)
  }

  /** One call never removes a request and never changes its requester, type
      or expiration date; its status changes only from PENDING to a terminal
      status, and only a call that decides it changes it at all. */
  lemma StepKeepsRequests(s: Db.Store, c: Call, k: string)
    requires k in s.requests
    ensures k in Next(s, c).requests
    ensures Next(s, c).requests[k].requesterId == s.requests[k].requesterId
    ensures Next(s, c).requests[k].requestType == s.requests[k].requestType
    ensures Next(s, c).requests[k].expirationDate == s.requests[k].expirationDate
    ensures Next(s, c).requests[k].status == s.requests[k].status || Decides(s, c, k)
    ensures Decides(s, c, k) ==>
      s.requests[k].status == Pending && IsTerminal(Next(s, c).requests[k].status)
  {
  }

  /** A decided request keeps its status through every later run of calls. */
  lemma {:induction false} TerminalIsAbsorbing(s: Db.Store, calls: seq<Call>, id: string)
    requires id in s.requests && IsTerminal(s.requests[id].status)
    ensures id in Run(s, calls).requests
    ensures Run(s, calls).requests[id] == s.requests[id]
    decreases |calls|
  {
    if |calls| > 0 {
      StepKeepsRequests(s, calls[0], id);
      var s' := Next(s, calls[0]);
      assert s'.requests[id] == s.requests[id];
      TerminalIsAbsorbing(s', calls[1..], id);
    }
  }

  /** At most one call of any run decides a given request, and none does
      once the request is already decided. */
  lemma {:induction false} AtMostOneDecision(s: Db.Store, calls: seq<Call>, id: string)
    ensures Decisions(s, calls, id) <= 1
    ensures id in s.requests && IsTerminal(s.requests[id].status) ==> Decisions(s, calls, id) == 0
    decreases |calls|
  {
    if |calls| > 0 {
      var s' := Next(s, calls[0]);
      AtMostOneDecision(s', calls[1..], id);
      if Decides(s, calls[0], id) {
        StepKeepsRequests(s, calls[0], id);
      } else if id in s.requests && IsTerminal(s.requests[id].status) {
        StepKeepsRequests(s, calls[0], id);
      }
    }
  }

  /** The schema discipline holds after every run that starts from it. */
  lemma {:induction false} RunKeepsValid(s: Db.Store, calls: seq<Call>)
    requires Db.Valid(s)
    ensures Db.Valid(Run(s, calls))
    decreases |calls|
  {
    if |calls| > 0 {
      RunKeepsValid(Next(s, calls[0]), calls[1..]);
    }
  }
}
