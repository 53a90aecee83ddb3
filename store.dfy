/** The job routes of backend/server.js (GET, POST, PUT and DELETE
    `/jobs`) over the shared job collection, the user collection that
    `/register` extends, and the gateway that runs every job route behind
    the `auth` middleware. Every query is filtered by the caller's id. */
module Store {
  import opened Wrappers
  import opened Http
  import opened JobModel
  import Auth
  import Seqs

  const DeletedMsg: string := "Job deleted"

  /** `Job.find({ user })`: the owner's documents, in store order. */
  function OwnedBy(jobs: seq<Job>, user: ObjectId): (r: seq<Job>)
    ensures forall j :: j in r <==> j in jobs && j.user == user
    ensures multiset(r) <= multiset(jobs)
  {
    Seqs.Filter(jobs, (j: Job) => j.user == user)
  }

  /** The sort key of GET /jobs. */
  function AppliedDate(j: Job): int {
    j.appliedDate
  }

  /** GET /jobs: `Job.find({ user }).sort({ appliedDate: -1 })`. */
  function ListJobs(jobs: seq<Job>, user: ObjectId): (r: seq<Job>)
    ensures forall j :: j in r <==> j in jobs && j.user == user
    ensures forall j :: multiset(r)[j] == if j.user == user then multiset(jobs)[j] else 0
    ensures Seqs.SortedDesc(r, AppliedDate)
  {
    var owned := OwnedBy(jobs, user);
    var r := Seqs.SortDesc(owned, AppliedDate);
    forall j ensures multiset(r)[j] == if j.user == user then multiset(jobs)[j] else 0 {
      Seqs.FilterCounts(jobs, (j: Job) => j.user == user, j);
    }
    assert forall j :: j in r <==> j in multiset(r);
    assert forall j :: j in owned <==> j in multiset(owned);
    r
  }

  /** No two documents share an `_id`. */
  ghost predicate UniqueIds(jobs: seq<Job>) {
    forall i, j :: 0 <= i < j < |jobs| ==> jobs[i].id != jobs[j].id
  }

  /** The position of the first document the filter `{ _id: id, user }`
      matches. */
  function FindOwned(jobs: seq<Job>, id: ObjectId, user: ObjectId): (r: Option<nat>)
    ensures r.Some? ==> r.value < |jobs| && jobs[r.value].id == id && jobs[r.value].user == user
    ensures r.Some? ==> forall k :: 0 <= k < r.value ==> !(jobs[k].id == id && jobs[k].user == user)
    ensures r.None? <==> forall j :: j in jobs ==> !(j.id == id && j.user == user)
  {
    if jobs == [] then None
    else if jobs[0].id == id && jobs[0].user == user then Some(0)
    else match FindOwned(jobs[1..], id, user)
      case None => None
      case Some(k) => Some(k + 1)
  }

  /** `findOneAndUpdate(filter, req.body)` on one document as the source
      writes it: every path the body supplies is overwritten, `user`
      included, and the `timestamps` option refreshes `updatedAt`. No
      validator runs. */
  function PatchAsWritten(j: Job, body: JobFields, now: Time): (r: Job)
    ensures r.id == j.id && r.createdAt == j.createdAt && r.updatedAt == Some(now)
    ensures Merged(body.user, j.user, r.user)
  {
    j.(user := body.user.GetOr(j.user),
       company := body.company.GetOr(j.company),
       position := body.position.GetOr(j.position),
       location := body.location.GetOr(j.location),
       salary := body.salary.GetOr(j.salary),
       status := body.status.GetOr(j.status),
       jobType := body.jobType.GetOr(j.jobType),
       remote := body.remote.GetOr(j.remote),
       contactPerson := body.contactPerson.GetOr(j.contactPerson),
       notes := body.notes.GetOr(j.notes),
       url := body.url.GetOr(j.url),
       appliedDate := body.appliedDate.GetOr(j.appliedDate),
       deadline := if body.deadline.Some? then body.deadline else j.deadline,
       nextRoundDate := if body.nextRoundDate.Some? then body.nextRoundDate else j.nextRoundDate,
       updatedAt := Some(now))
  }

  /** The update with the owner taken from the token, as POST /jobs does:
      a `user` in the body is ignored. */
  function Patch(j: Job, body: JobFields, now: Time): (r: Job)
    ensures r.id == j.id && r.user == j.user && r.createdAt == j.createdAt
    ensures r.updatedAt == Some(now)
  {
    PatchAsWritten(j, body.(user := None), now)
  }

  /** A body that supplies nothing. */
  const EmptyBody: JobFields :=
    JobFields(None, None, None, None, None, None, None, None, None, None, None, None, None, None)

  /** Path by path, the update as written: a path the body supplies takes
      the body's value, and a path it leaves out keeps the document's. */
  lemma PatchPaths(j: Job, body: JobFields, now: Time)
    ensures var r := PatchAsWritten(j, body, now);
            Merged(body.user, j.user, r.user) &&
            Merged(body.company, j.company, r.company) &&
            Merged(body.position, j.position, r.position) &&
            Merged(body.location, j.location, r.location) &&
            Merged(body.salary, j.salary, r.salary) &&
            Merged(body.status, j.status, r.status) &&
            Merged(body.jobType, j.jobType, r.jobType) &&
            Merged(body.remote, j.remote, r.remote) &&
            Merged(body.contactPerson, j.contactPerson, r.contactPerson) &&
            Merged(body.notes, j.notes, r.notes) &&
            Merged(body.url, j.url, r.url) &&
            Merged(body.appliedDate, j.appliedDate, r.appliedDate) &&
            (body.deadline.Some? ==> r.deadline == body.deadline) &&
            (body.deadline.None? ==> r.deadline == j.deadline) &&
            (body.nextRoundDate.Some? ==> r.nextRoundDate == body.nextRoundDate) &&
            (body.nextRoundDate.None? ==> r.nextRoundDate == j.nextRoundDate)
  {
  }

  /** The body `{ status }` the dashboard sends changes the status and
      `updatedAt`, and nothing else. */
  lemma PatchStatusOnly(j: Job, s: string, now: Time)
    ensures PatchAsWritten(j, EmptyBody.(status := Some(s)), now) == j.(status := s, updatedAt := Some(now))
  {
  }

  /** Without a `user` in the body, the update as written and the
      corrected one agree. */
  lemma PatchAgrees(j: Job, body: JobFields, now: Time)
    requires body.user.None?
    ensures PatchAsWritten(j, body, now) == Patch(j, body, now)
  {
  }

  /** An empty body changes nothing but `updatedAt`. */
  lemma PatchEmpty(j: Job, now: Time)
    ensures Patch(j, EmptyBody, now) == j.(updatedAt := Some(now))
  {
  }

  /** Only the supplied paths change, and a supplied path takes the value
      given: a body carrying every field of `k` (dates included) turns `j`
      into `k`, except for the identity, owner and creation time of `j`
      and the fresh `updatedAt`. */
  lemma PatchSuppliedFields(j: Job, k: Job, now: Time)
    requires k.deadline.Some? && k.nextRoundDate.Some?
    ensures Patch(j, FieldsOf(k), now) ==
            k.(id := j.id, user := j.user, createdAt := j.createdAt, updatedAt := Some(now))
  {
  }

  /** PUT /jobs/:id without the fault path: the new collection, and the
      updated document or `null`. */
  function UpdateOwned(jobs: seq<Job>, user: ObjectId, id: ObjectId, body: JobFields, now: Time):
    (r: (seq<Job>, Option<Job>))
    ensures |r.0| == |jobs|
    ensures r.1.None? <==> FindOwned(jobs, id, user).None?
    ensures r.1.None? ==> r.0 == jobs
    ensures r.1.Some? ==> var k := FindOwned(jobs, id, user).value;
              r.0 == jobs[k := r.1.value] && r.1.value == PatchAsWritten(jobs[k], body, now)
  {
    match FindOwned(jobs, id, user)
    case None => (jobs, None)
    case Some(k) =>
      var updated := PatchAsWritten(jobs[k], body, now);
      (jobs[k := updated], Some(updated))
  }

  /** DELETE /jobs/:id without the fault path: `findOneAndDelete` removes
      the first document matching `{ _id: id, user }`, if there is one,
      and exactly that document. */
  function DeleteOwned(jobs: seq<Job>, user: ObjectId, id: ObjectId): (r: seq<Job>)
    ensures FindOwned(jobs, id, user).None? ==> r == jobs
    ensures |r| == if FindOwned(jobs, id, user).Some? then |jobs| - 1 else |jobs|
  {
    if jobs == [] then []
    else if jobs[0].id == id && jobs[0].user == user then jobs[1..]
    else [jobs[0]] + DeleteOwned(jobs[1..], user, id)
  }

  /** The owner's documents of a collection with a given first document. */
  lemma OwnedByCons(x: Job, t: seq<Job>, u: ObjectId)
    ensures OwnedBy([x] + t, u) == (if x.user == u then [x] else []) + OwnedBy(t, u)
  {
    Seqs.FilterCons(x, t, (j: Job) => j.user == u);
  }

  /** DELETE passes over a first document that does not match. */
  lemma DeleteOwnedCons(x: Job, t: seq<Job>, user: ObjectId, id: ObjectId)
    requires !(x.id == id && x.user == user)
    ensures DeleteOwned([x] + t, user, id) == [x] + DeleteOwned(t, user, id)
  {
    assert ([x] + t)[0] == x && ([x] + t)[1..] == t;
  }

  /** Replacing a document that neither before nor after belongs to `u`
      leaves `u`'s documents as they were. */
  lemma {:induction false} OwnedByReplace(jobs: seq<Job>, k: nat, x: Job, u: ObjectId)
    requires k < |jobs| && jobs[k].user != u && x.user != u
    ensures OwnedBy(jobs[k := x], u) == OwnedBy(jobs, u)
  {
    var h, t := jobs[0], jobs[1..];
    assert jobs == [h] + t;
    OwnedByCons(h, t, u);
    if k == 0 {
      assert jobs[k := x] == [x] + t;
      OwnedByCons(x, t, u);
    } else {
      OwnedByReplace(t, k - 1, x, u);
      assert jobs[k := x] == [h] + t[k - 1 := x];
      OwnedByCons(h, t[k - 1 := x], u);
    }
  }

  /** Adding a document of another account leaves `u`'s documents as
      they were. */
  lemma OwnedByAppend(jobs: seq<Job>, x: Job, u: ObjectId)
    requires x.user != u
    ensures OwnedBy(jobs + [x], u) == OwnedBy(jobs, u)
  {
    Seqs.FilterConcat(jobs, [x], (j: Job) => j.user == u);
  }

  /** Ownership isolation of the corrected PUT, which drops a `user` from
      the body: the documents of every other account are untouched. For a
      body without `user` this is the PUT of the source itself. */
  lemma UpdateIsolation(jobs: seq<Job>, user: ObjectId, id: ObjectId, body: JobFields, now: Time, other: ObjectId)
    requires other != user
    ensures OwnedBy(UpdateOwned(jobs, user, id, body.(user := None), now).0, other) == OwnedBy(jobs, other)
  {
    var k := FindOwned(jobs, id, user);
    if k.Some? {
      OwnedByReplace(jobs, k.value, Patch(jobs[k.value], body, now), other);
    }
  }

  /** Ownership isolation of DELETE: the documents of every other account
      are untouched. */
  lemma {:induction false} DeleteIsolation(jobs: seq<Job>, user: ObjectId, id: ObjectId, other: ObjectId)
    requires other != user
    ensures OwnedBy(DeleteOwned(jobs, user, id), other) == OwnedBy(jobs, other)
  {
    if jobs != [] {
      var x, t := jobs[0], jobs[1..];
      assert jobs == [x] + t;
      OwnedByCons(x, t, other);
      if x.id == id && x.user == user {
        assert DeleteOwned(jobs, user, id) == t;
      } else {
        DeleteIsolation(t, user, id, other);
        DeleteOwnedCons(x, t, user, id);
        OwnedByCons(x, DeleteOwned(t, user, id), other);
      }
    }
  }

  /** Ids are unique in a collection with a given first document exactly
      when they are unique in the rest and the first id does not recur. */
  lemma UniqueIdsCons(x: Job, t: seq<Job>)
    ensures UniqueIds([x] + t) <==> UniqueIds(t) && forall j :: j in t ==> j.id != x.id
  {
    var s := [x] + t;
    if UniqueIds(s) {
      forall i, k | 0 <= i < k < |t| ensures t[i].id != t[k].id {
        assert t[i] == s[i + 1] && t[k] == s[k + 1];
      }
      forall j | j in t ensures j.id != x.id {
        var i :| 0 <= i < |t| && t[i] == j;
        assert s[0] == x && s[i + 1] == j;
      }
    }
    if UniqueIds(t) && forall j :: j in t ==> j.id != x.id {
      forall i, k | 0 <= i < k < |s| ensures s[i].id != s[k].id {
        assert s[k] == t[k - 1] && t[k - 1] in t;
        if i > 0 {
          assert s[i] == t[i - 1];
        } else {
          assert s[i] == x;
        }
      }
    }
  }

  /** DELETE takes away exactly one copy of the matched document and
      nothing else. */
  lemma {:induction false} DeleteOwnedRemovesOne(jobs: seq<Job>, user: ObjectId, id: ObjectId)
    requires FindOwned(jobs, id, user).Some?
    ensures multiset(DeleteOwned(jobs, user, id)) ==
              multiset(jobs) - multiset{jobs[FindOwned(jobs, id, user).value]}
  {
    var x, t := jobs[0], jobs[1..];
    assert jobs == [x] + t;
    if !(x.id == id && x.user == user) {
      DeleteOwnedRemovesOne(t, user, id);
      DeleteOwnedCons(x, t, user, id);
      var k := FindOwned(t, id, user).value;
      assert jobs[k + 1] == t[k] && t[k] in multiset(t);
    }
  }

  /** DELETE leaves only documents that were there before. */
  lemma DeleteOwnedShrinks(jobs: seq<Job>, user: ObjectId, id: ObjectId)
    ensures multiset(DeleteOwned(jobs, user, id)) <= multiset(jobs)
    ensures forall j :: j in DeleteOwned(jobs, user, id) ==> j in jobs
  {
    if FindOwned(jobs, id, user).Some? {
      DeleteOwnedRemovesOne(jobs, user, id);
      forall j | j in DeleteOwned(jobs, user, id) ensures j in jobs {
        assert j in multiset(DeleteOwned(jobs, user, id));
      }
    }
  }

  /** DELETE keeps ids unique. */
  lemma {:induction false} DeleteKeepsUniqueIds(jobs: seq<Job>, user: ObjectId, id: ObjectId)
    requires UniqueIds(jobs)
    ensures UniqueIds(DeleteOwned(jobs, user, id))
  {
    if jobs != [] {
      var x, t := jobs[0], jobs[1..];
      assert jobs == [x] + t;
      UniqueIdsCons(x, t);
      if !(x.id == id && x.user == user) {
        DeleteKeepsUniqueIds(t, user, id);
        DeleteOwnedCons(x, t, user, id);
        DeleteOwnedShrinks(t, user, id);
        UniqueIdsCons(x, DeleteOwned(t, user, id));
      }
    }
  }

  /** After DELETE, with unique ids, the caller owns no document with that
      id any more. */
  lemma {:induction false} DeleteRemovesOwned(jobs: seq<Job>, user: ObjectId, id: ObjectId)
    requires UniqueIds(jobs)
    ensures forall j :: j in DeleteOwned(jobs, user, id) ==> !(j.id == id && j.user == user)
  {
    if jobs != [] {
      var x, t := jobs[0], jobs[1..];
      assert jobs == [x] + t;
      assert UniqueIds(t) by {
        forall i, k | 0 <= i < k < |t| ensures t[i].id != t[k].id {
          assert t[i] == jobs[i + 1] && t[k] == jobs[k + 1];
        }
      }
      if x.id == id && x.user == user {
        assert DeleteOwned(jobs, user, id) == t;
        forall j | j in t ensures j.id != id {
          var i :| 0 <= i < |t| && t[i] == j;
          assert jobs[i + 1] == j;
        }
      } else {
        DeleteRemovesOwned(t, user, id);
        DeleteOwnedCons(x, t, user, id);
      }
    }
  }

  /** A document of another account is out of the caller's reach: PUT and
      DELETE on its id change nothing, and PUT answers `null`. */
  lemma ForeignIdUntouched(jobs: seq<Job>, user: ObjectId, id: ObjectId, body: JobFields, now: Time)
    requires UniqueIds(jobs)
    requires exists j :: j in jobs && j.id == id && j.user != user
    ensures UpdateOwned(jobs, user, id, body, now) == (jobs, None)
    ensures DeleteOwned(jobs, user, id) == jobs
  {
  }

  /** The defect of the source's PUT: a body naming another `user` moves
      the caller's document into that account. Account 1 updates its job
      7 with `{ user: 2 }`, and job 7 turns up in account 2's list. */
  lemma PutBodyReassignsOwner()
    ensures var j := Job(7, 1, "Acme", "Engineer", "", "", "applied", "Full-time", "On-site",
                         "", "", "", 0, None, None, Some(0), Some(0));
            var body := EmptyBody.(user := Some(2));
            var k := FindOwned([j], 7, 1);
            k == Some(0) &&
            OwnedBy([j][0 := PatchAsWritten(j, body, 5)], 2) != OwnedBy([j], 2)
  {
    var j := Job(7, 1, "Acme", "Engineer", "", "", "applied", "Full-time", "On-site",
                 "", "", "", 0, None, None, Some(0), Some(0));
    var j' := PatchAsWritten(j, EmptyBody.(user := Some(2)), 5);
    assert j' in OwnedBy([j][0 := j'], 2);
    assert j !in OwnedBy([j], 2);
  }

  /** One request to a job route, as the gateway receives it. The caller
      is not part of it: the owner always comes from the token. */
  datatype JobRequest =
    | GetJobs
    | PostJob(body: JobFields)
    | PutJob(id: ObjectId, body: JobFields)
    | DeleteJob(id: ObjectId)

  /** The bodies the job routes send. */
  datatype JobResponse =
    | JobList(jobs: seq<Job>)
    | Created(job: Job)
    | Updated(updated: Option<Job>)   // `null` when no document matched
    | Message(message: string)

  /** The server's state: the two collections and the ObjectId source. */
  class Server {
    const crypto: Auth.Crypto
    var users: seq<Auth.User>
    var jobs: seq<Job>
    var nextId: ObjectId

    /** The crypto primitives behave, usernames and ids are unique, and
        every id handed out so far is below `nextId`. */
    ghost predicate Valid()
      reads this
    {
      Auth.Sound(crypto) && Auth.UniqueNames(users) && UniqueIds(jobs) &&
      (forall u :: u in users ==> u.id < nextId) &&
      (forall j :: j in jobs ==> j.id < nextId)
    }

    constructor (crypto: Auth.Crypto)
      requires Auth.Sound(crypto)
      ensures Valid()
      ensures this.crypto == crypto && users == [] && jobs == []
    {
      this.crypto := crypto;
      users, jobs, nextId := [], [], 0;
    }

    /** POST /register at `now` (milliseconds; the token clock is in
        seconds). */
    method Register(username: string, password: string, salt: Auth.Salt, now: Time, fault: bool)
      returns (r: Reply<Auth.Session>)
      requires Valid()
      modifies this
      ensures Valid()
      ensures (users, r) == Auth.Register(old(users), crypto, username, password, salt, old(nextId), now / 1000, fault)
      ensures jobs == old(jobs)
    {
      var outcome := Auth.Register(users, crypto, username, password, salt, nextId, now / 1000, fault);
      Auth.RegisterKeepsNamesUnique(users, crypto, username, password, salt, nextId, now / 1000, fault);
      users, r := outcome.0, outcome.1;
      if r.Ok? {
        nextId := nextId + 1;
      }
    }

    /** POST /login at `now`. */
    method Login(username: string, password: string, now: Time, fault: bool) returns (r: Reply<Auth.Session>)
      requires Valid()
      ensures r == Auth.Login(users, crypto, username, password, now / 1000, fault)
      ensures r.Ok? ==> r.body.user.username == username
    {
      r := Auth.Login(users, crypto, username, password, now / 1000, fault);
    }

    /** GET /jobs for the account `caller`. */
    method GetJobs(caller: ObjectId, fault: bool) returns (r: Reply<seq<Job>>)
      requires Valid()
      ensures fault ==> r == ServerError(StoreFault)
      ensures !fault ==> r.Ok? && r.body == ListJobs(jobs, caller)
      ensures r.Ok? ==> forall j :: j in r.body <==> j in jobs && j.user == caller
      ensures r.Ok? ==> Seqs.SortedDesc(r.body, AppliedDate)
    {
      if fault {
        r := ServerError(StoreFault);
      } else {
        r := Ok(ListJobs(jobs, caller));
      }
    }

    /** POST /jobs for `caller`: the body's fields with `user` set to the
        caller, validated and saved. */
    method PostJob(caller: ObjectId, body: JobFields, now: Time, fault: bool) returns (r: Reply<Job>)
      requires Valid()
      modifies this
      ensures Valid()
      ensures users == old(users)
      ensures r.Ok? <==> !fault && Admissible(body.(user := Some(caller)))
      ensures r.Ok? ==> r.body == Create(old(nextId), body.(user := Some(caller)), now).value
      ensures r.Ok? ==> r.body.user == caller && jobs == old(jobs) + [r.body]
      ensures !r.Ok? ==> jobs == old(jobs)
      ensures !Admissible(body.(user := Some(caller))) ==>
                r == ServerError(Invalid(Violations(body.(user := Some(caller)))))
      ensures Admissible(body.(user := Some(caller))) && fault ==> r == ServerError(StoreFault)
      ensures forall u :: u != caller ==> OwnedBy(jobs, u) == OwnedBy(old(jobs), u)
    {
      var fields := body.(user := Some(caller));
      var created := Create(nextId, fields, now);
      if created.Failure? {
        r := ServerError(Invalid(created.error));
      } else if fault {
        r := ServerError(StoreFault);
      } else {
        forall u | u != caller ensures OwnedBy(jobs + [created.value], u) == OwnedBy(jobs, u) {
          OwnedByAppend(jobs, created.value, u);
        }
        jobs := jobs + [created.value];
        nextId := nextId + 1;
        r := Ok(created.value);
      }
    }

    /** PUT /jobs/:id for `caller`, as the source writes it: the body is
        applied whole, so a `user` in it changes the owner. Without one,
        other accounts' documents are untouched. */
    method PutJob(caller: ObjectId, id: ObjectId, body: JobFields, now: Time, fault: bool)
      returns (r: Reply<Option<Job>>)
      requires Valid()
      modifies this`jobs
      ensures Valid()
      ensures fault ==> r == ServerError(StoreFault) && jobs == old(jobs)
      ensures !fault ==> r.Ok? && (jobs, r.body) == UpdateOwned(old(jobs), caller, id, body, now)
      ensures body.user.None? ==> forall u :: u != caller ==> OwnedBy(jobs, u) == OwnedBy(old(jobs), u)
    {
      if fault {
        r := ServerError(StoreFault);
      } else {
        var outcome := UpdateOwned(jobs, caller, id, body, now);
        if body.user.None? {
          assert body.(user := None) == body;
          forall u | u != caller ensures OwnedBy(outcome.0, u) == OwnedBy(jobs, u) {
            UpdateIsolation(jobs, caller, id, body, now, u);
          }
        }
        jobs, r := outcome.0, Ok(outcome.1);
      }
    }

    /** DELETE /jobs/:id for `caller`: the confirmation comes whether or
        not a document was removed. */
    method DeleteJob(caller: ObjectId, id: ObjectId, fault: bool) returns (r: Reply<string>)
      requires Valid()
      modifies this`jobs
      ensures Valid()
      ensures fault ==> r == ServerError(StoreFault) && jobs == old(jobs)
      ensures !fault ==> r == Ok(DeletedMsg) && jobs == DeleteOwned(old(jobs), caller, id)
      ensures !fault ==> forall j :: j in jobs ==> !(j.id == id && j.user == caller)
      ensures forall u :: u != caller ==> OwnedBy(jobs, u) == OwnedBy(old(jobs), u)
      ensures forall j :: j in jobs ==> j in old(jobs)
    {
      if fault {
        r := ServerError(StoreFault);
      } else {
        var rest := DeleteOwned(jobs, caller, id);
        DeleteKeepsUniqueIds(jobs, caller, id);
        DeleteOwnedShrinks(jobs, caller, id);
        DeleteRemovesOwned(jobs, caller, id);
        forall u | u != caller ensures OwnedBy(rest, u) == OwnedBy(jobs, u) {
          DeleteIsolation(jobs, caller, id, u);
        }
        jobs, r := rest, Ok(DeletedMsg);
      }
    }

    /** A job route behind the `auth` middleware: the token decides whether
        the route runs, and the route runs for the account the token
        names. */
    method Handle(header: Option<Auth.Token>, req: JobRequest, now: Time, fault: bool)
      returns (r: Reply<JobResponse>)
      requires Valid()
      modifies this
      ensures Valid()
      ensures users == old(users)
      ensures Auth.Authenticate(crypto, header, now / 1000).Deny? ==>
                jobs == old(jobs) && nextId == old(nextId) &&
                r == Refused(Auth.Authenticate(crypto, header, now / 1000).status,
                             Auth.Authenticate(crypto, header, now / 1000).msg)
      ensures Auth.Authenticate(crypto, header, now / 1000).Pass? && req.GetJobs? ==>
                var caller := Auth.Authenticate(crypto, header, now / 1000).user.id;
                jobs == old(jobs) &&
                r == if fault then ServerError(StoreFault) else Ok(JobList(ListJobs(old(jobs), caller)))
      ensures Auth.Authenticate(crypto, header, now / 1000).Pass? && req.PostJob? ==>
                var caller := Auth.Authenticate(crypto, header, now / 1000).user.id;
                var fields := req.body.(user := Some(caller));
                (!Admissible(fields) ==> r == ServerError(Invalid(Violations(fields))) && jobs == old(jobs)) &&
                (Admissible(fields) && fault ==> r == ServerError(StoreFault) && jobs == old(jobs)) &&
                (Admissible(fields) && !fault ==>
                   r == Ok(Created(Create(old(nextId), fields, now).value)) &&
                   jobs == old(jobs) + [Create(old(nextId), fields, now).value])
      ensures Auth.Authenticate(crypto, header, now / 1000).Pass? && req.PutJob? ==>
                var caller := Auth.Authenticate(crypto, header, now / 1000).user.id;
                (fault ==> r == ServerError(StoreFault) && jobs == old(jobs)) &&
                (!fault ==> r == Ok(Updated(UpdateOwned(old(jobs), caller, req.id, req.body, now).1)) &&
                            jobs == UpdateOwned(old(jobs), caller, req.id, req.body, now).0)
      ensures Auth.Authenticate(crypto, header, now / 1000).Pass? && req.DeleteJob? ==>
                var caller := Auth.Authenticate(crypto, header, now / 1000).user.id;
                (fault ==> r == ServerError(StoreFault) && jobs == old(jobs)) &&
                (!fault ==> r == Ok(Message(DeletedMsg)) && jobs == DeleteOwned(old(jobs), caller, req.id))
      ensures Auth.Authenticate(crypto, header, now / 1000).Pass? && !(req.PutJob? && req.body.user.Some?) ==>
                var caller := Auth.Authenticate(crypto, header, now / 1000).user.id;
                forall u :: u != caller ==> OwnedBy(jobs, u) == OwnedBy(old(jobs), u)
    {
      match Auth.Authenticate(crypto, header, now / 1000)
      case Deny(status, msg) =>
        r := Refused(status, msg);
      case Pass(claims) =>
        var caller := claims.id;
        match req
        case GetJobs =>
          var out := GetJobs(caller, fault);
          r := if out.Ok? then Ok(JobList(out.body)) else Retype(out);
        case PostJob(body) =>
          var out := PostJob(caller, body, now, fault);
          r := if out.Ok? then Ok(Created(out.body)) else Retype(out);
        case PutJob(id, body) =>
          var out := PutJob(caller, id, body, now, fault);
          r := if out.Ok? then Ok(Updated(out.body)) else Retype(out);
        case DeleteJob(id) =>
          var out := DeleteJob(caller, id, fault);
          r := if out.Ok? then Ok(Message(out.body)) else Retype(out);
    }
  }

  /** A refusal or server error, carried over to another body type. */
  function Retype<T, U>(r: Reply<T>): (s: Reply<U>)
    requires !r.Ok?
    ensures r.Refused? ==> s == Refused(r.status, r.msg)
    ensures r.ServerError? ==> s == ServerError(r.cause)
  {
    match r
    case Refused(status, msg) => Refused(status, msg)
    case ServerError(cause) => ServerError(cause)
  }
}
