/** The repository's module test, replayed on the model at clock reading 0:
    three requesters, the three approvers the decisions use, four live
    requests and one expired request. */
module Scenarios {
  import opened Results
  import opened Domain
  import Db
  import RequestService

  const Now: int := 0
  const Future: int := 100000000
  const Past: int := -100000000

  const RequesterA := Requester("1", "requester1", A)
  const RequesterB := Requester("2", "requester2", B)
  const RequesterC := Requester("3", "requester3", C)

  const ApproverB := Approver("2", "approver2", [B])
  const ApproverD := Approver("4", "approver4", [A, B])
  const ApproverE := Approver("5", "approver5", [A, B, C])

  const RequestA := Request("1", RequesterA, A, Future)
  const RequestB := Request("2", RequesterB, B, Future)
  const RequestC := Request("3", RequesterC, C, Future)
  const Expired := Request("4", RequesterA, A, Past)
  const RequestX := Request("5", RequesterC, C, Future)

  /** The store once the three requesters are written, one after another,
      into the empty store. */
  function WithRequesters(): (s: Db.Store)
    ensures Db.Valid(s)
    ensures forall id :: RequestService.Get(s, id) == Err(RequestNotFound)
    ensures Db.GetRequester(s, "1") == Some(RequesterA)
    ensures Db.GetRequester(s, "2") == Some(RequesterB)
    ensures Db.GetRequester(s, "3") == Some(RequesterC)
  {
    var s1 := Db.InsertRequester(Db.Empty, RequesterA).value;
    var s2 := Db.InsertRequester(s1, RequesterB).value;
    Db.InsertRequester(s2, RequesterC).value
  }

  /** Each of the three requester inserts succeeds on the store left by the
      one before, starting from the empty store. */
  lemma RequestersAreAdmitted()
    ensures Db.InsertRequester(Db.Empty, RequesterA).Ok?
    ensures Db.InsertRequester(Db.InsertRequester(Db.Empty, RequesterA).value, RequesterB).Ok?
    ensures
      var s2 := Db.InsertRequester(Db.InsertRequester(Db.Empty, RequesterA).value, RequesterB).value;
      Db.InsertRequester(s2, RequesterC) == Ok(WithRequesters())
  {
  }

  /** Once all four live requests are created (`CreatesYieldSeeded`),
      reading request "1" back returns the request value that was created. */
  lemma CreateAndReadBack()
    ensures RequestService.Get(Seeded(), "1") == Ok(RequestA)
  {
  }

  /** An expired request is refused at creation. */
  lemma ExpiredIsRefused(s: Db.Store)
    ensures RequestService.Create(s, Expired, Now) == Err(RequestExpired)
  {
  }

  /** The store after the four live requests are created. */
  function Seeded(): Db.Store {
    Db.Store(WithRequesters().requesters,
             map["1" := Db.Row("1", A, Future, Pending),
                 "2" := Db.Row("2", B, Future, Pending),
                 "3" := Db.Row("3", C, Future, Pending),
                 "5" := Db.Row("3", C, Future, Pending)])
  }

  /** Creating the four live requests, one after another, yields `Seeded()`. */
  lemma CreatesYieldSeeded()
    ensures
      var s1 := RequestService.Create(WithRequesters(), RequestA, Now);
      var s2 := RequestService.Create(s1.value, RequestB, Now);
      var s3 := RequestService.Create(s2.value, RequestC, Now);
      && s1.Ok? && s2.Ok? && s3.Ok?
      && RequestService.Create(s3.value, RequestX, Now) == Ok(Seeded())
  {
  }

  /** Approver B may not decide the type-A request "1". */
  lemma TypeNotInAllowedTypes()
    ensures RequestService.Process(Seeded(), "1", ApproverB, Now) == Err(TypeNotAllowed)
  {
  }

  /** Approver D, allowed A and B, may still not decide request "1", whose
      requester has role A. */
  lemma RoleAIsForbidden()
    ensures RequestService.Process(Seeded(), "1", ApproverD, Now) == Err(RequesterRoleForbidden)
  {
  }

  /** Approver D approves request "2". */
  lemma ApproveB()
    ensures RequestService.Process(Seeded(), "2", ApproverD, Now).Ok?
    ensures RequestService.Get(RequestService.Process(Seeded(), "2", ApproverD, Now).value, "2")
         == Ok(RequestB.(status := Approved))
  {
  }

  /** The store after approver D approves request "2". */
  function AfterB(): Db.Store {
    RequestService.Process(Seeded(), "2", ApproverD, Now).value
  }

  /** Next, on the store left by the previous decision, approver E approves
      request "3". */
  lemma ApproveC()
    ensures RequestService.Process(AfterB(), "3", ApproverE, Now).Ok?
    ensures RequestService.Get(RequestService.Process(AfterB(), "3", ApproverE, Now).value, "3")
         == Ok(RequestC.(status := Approved))
  {
  }

  /** The store after approver E then approves request "3". */
  function AfterC(): Db.Store {
    RequestService.Process(AfterB(), "3", ApproverE, Now).value
  }

  /** Last, approver E rejects request "5"; the two earlier decisions stay
      in place. */
  lemma RejectX()
    ensures RequestService.Process(AfterC(), "5", ApproverE, Now, false).Ok?
    ensures
      var s := RequestService.Process(AfterC(), "5", ApproverE, Now, false).value;
      && RequestService.Get(s, "5") == Ok(RequestX.(status := Rejected))
      && RequestService.Get(s, "2") == Ok(RequestB.(status := Approved))
      && RequestService.Get(s, "3") == Ok(RequestC.(status := Approved))
  {
  }

  /** Creation compares the request type with the role of the requester
      value the caller passes, not with the stored requester of that id: a
      caller holding a stale or forged requester value can store a request
      whose type differs from its stored requester's role. */
  lemma CreateTrustsCallerRequester()
    ensures
      var forged := Request("9", Requester("1", "requester1", B), B, Future);
      var r := RequestService.Create(WithRequesters(), forged, Now);
      && r.Ok?
      && RequestService.Get(r.value, "9").value.requestType == B
      && RequestService.Get(r.value, "9").value.requester.role == A
      && !Db.TypesMatchRoles(r.value)
  {
  }
}
