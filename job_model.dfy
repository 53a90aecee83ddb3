/** The application record of backend/models/Job.js: its fields, the
    schema's required paths, the status enumeration, the defaults Mongoose
    fills in when a document is created and the automatic timestamps. */
module JobModel {
  import opened Wrappers

  /** Milliseconds since the epoch, as a JavaScript `Date` holds them. */
  type Time = int

  /** A MongoDB ObjectId; the store hands out fresh ones. */
  type ObjectId = nat

  /** The `enum` of the `status` path, in the order the schema lists it. */
  const Statuses: seq<string> := ["applied", "ot", "interview", "offer", "rejected"]
  const DefaultStatus: string := "applied"
  const DefaultJobType: string := "Full-time"
  const DefaultRemote: string := "On-site"

  predicate IsStatus(s: string) {
    s in Statuses
  }

  /** A stored job document. `createdAt` and `updatedAt` come from the
      schema's `timestamps` option; they are optional here because the
      dashboard also copes with documents that lack them. */
  datatype Job = Job(
    id: ObjectId,
    user: ObjectId,
    company: string,
    position: string,
    location: string,
    salary: string,
    status: string,
    jobType: string,
    remote: string,
    contactPerson: string,
    notes: string,
    url: string,
    appliedDate: Time,
    deadline: Option<Time>,
    nextRoundDate: Option<Time>,
    createdAt: Option<Time>,
    updatedAt: Option<Time>)

  /** The fields a request body gives `new Job(...)`; `None` is a field
      the body leaves out. */
  datatype JobFields = JobFields(
    user: Option<ObjectId>,
    company: Option<string>,
    position: Option<string>,
    location: Option<string>,
    salary: Option<string>,
    status: Option<string>,
    jobType: Option<string>,
    remote: Option<string>,
    contactPerson: Option<string>,
    notes: Option<string>,
    url: Option<string>,
    appliedDate: Option<Time>,
    deadline: Option<Time>,
    nextRoundDate: Option<Time>)

  /** `v` is the value `supplied`, or `fallback` when nothing was
      supplied: how a path of a stored document relates to a body that
      may leave it out. */
  predicate Merged<T(==)>(supplied: Option<T>, fallback: T, v: T) {
    match supplied
    case Some(x) => v == x
    case None => v == fallback
  }

  /** One entry of a Mongoose `ValidationError`. */
  datatype FieldError = Required(path: string) | NotInEnum(path: string, value: string)

  /** Mongoose's `required` check on a String path fails for a missing
      value and for the empty string. */
  predicate Blank(v: Option<string>) {
    v.None? || v.value == ""
  }

  /** The schema's validators all pass. */
  predicate Admissible(f: JobFields) {
    f.user.Some? && !Blank(f.company) && !Blank(f.position) &&
    (f.status.None? || IsStatus(f.status.value))
  }

  /** A document as the schema leaves it after a successful `save()`. */
  predicate WellFormed(j: Job) {
    j.company != "" && j.position != "" && IsStatus(j.status) &&
    j.createdAt.Some? && j.updatedAt.Some? && j.createdAt == j.updatedAt
  }

  /** Every validation error of `f`, path by path in schema order. */
  function Violations(f: JobFields): (errs: seq<FieldError>)
    ensures errs == [] <==> Admissible(f)
    ensures Required("user") in errs <==> f.user.None?
    ensures Required("company") in errs <==> Blank(f.company)
    ensures Required("position") in errs <==> Blank(f.position)
    ensures f.status.Some? && !IsStatus(f.status.value) <==> NotInEnum("status", f.status.GetOr("")) in errs
    ensures forall e :: e in errs ==> e == Required("user") || e == Required("company") ||
                                      e == Required("position") || e == NotInEnum("status", f.status.GetOr(""))
    ensures forall i, j :: 0 <= i < j < |errs| ==> errs[i] != errs[j]
  {
    (if f.user.None? then [Required("user")] else []) +
    (if Blank(f.company) then [Required("company")] else []) +
    (if Blank(f.position) then [Required("position")] else []) +
    (if f.status.Some? && !IsStatus(f.status.value) then [NotInEnum("status", f.status.value)] else [])
  }

  /** `new Job(fields).save()` at time `now`: validation, then the schema's
      defaults (status `applied`, job type `Full-time`, work mode
      `On-site`, empty strings, applied date `now`) and both timestamps. */
  function Create(id: ObjectId, f: JobFields, now: Time): (r: Result<Job, seq<FieldError>>)
    ensures r.Success? <==> Admissible(f)
    ensures r.Failure? ==> r.error != []
    ensures r.Success? ==> WellFormed(r.value) && r.value.id == id && r.value.updatedAt == Some(now)
    ensures r.Success? ==> Some(r.value.user) == f.user
  {
    var errs := Violations(f);
    if errs != [] then Failure(errs)
    else Success(Job(
      id := id,
      user := f.user.value,
      company := f.company.value,
      position := f.position.value,
      location := f.location.GetOr(""),
      salary := f.salary.GetOr(""),
      status := f.status.GetOr(DefaultStatus),
      jobType := f.jobType.GetOr(DefaultJobType),
      remote := f.remote.GetOr(DefaultRemote),
      contactPerson := f.contactPerson.GetOr(""),
      notes := f.notes.GetOr(""),
      url := f.url.GetOr(""),
      appliedDate := f.appliedDate.GetOr(now),
      deadline := f.deadline,
      nextRoundDate := f.nextRoundDate,
      createdAt := Some(now),
      updatedAt := Some(now)))
  }

  /** A body naming only the owner, company and position. */
  function MinimalFields(user: ObjectId, company: string, position: string): JobFields {
    JobFields(Some(user), Some(company), Some(position),
              None, None, None, None, None, None, None, None, None, None, None)
  }

  /** The defaults: a body with only the required paths yields status
      `applied`, job type `Full-time`, work mode `On-site`, empty optional
      strings, an applied date of `now` and no deadline or next round. */
  lemma CreateDefaults(id: ObjectId, user: ObjectId, company: string, position: string, now: Time)
    requires company != "" && position != ""
    ensures Create(id, MinimalFields(user, company, position), now) ==
            Success(Job(id, user, company, position, "", "", DefaultStatus, DefaultJobType, DefaultRemote,
                   "", "", "", now, None, None, Some(now), Some(now)))
  {
  }

  /** Path by path, for any admissible body: a supplied value is stored as
      given, and an omitted path gets the schema's default. */
  lemma CreatePaths(id: ObjectId, f: JobFields, now: Time)
    requires Admissible(f)
    ensures var r := Create(id, f, now).value;
            Some(r.company) == f.company && Some(r.position) == f.position &&
            Merged(f.location, "", r.location) &&
            Merged(f.salary, "", r.salary) &&
            Merged(f.status, DefaultStatus, r.status) &&
            Merged(f.jobType, DefaultJobType, r.jobType) &&
            Merged(f.remote, DefaultRemote, r.remote) &&
            Merged(f.contactPerson, "", r.contactPerson) &&
            Merged(f.notes, "", r.notes) &&
            Merged(f.url, "", r.url) &&
            Merged(f.appliedDate, now, r.appliedDate) &&
            r.deadline == f.deadline && r.nextRoundDate == f.nextRoundDate
  {
  }

  /** The fields of a stored document, as a body that would recreate it. */
  function FieldsOf(j: Job): JobFields {
    JobFields(Some(j.user), Some(j.company), Some(j.position), Some(j.location), Some(j.salary),
              Some(j.status), Some(j.jobType), Some(j.remote), Some(j.contactPerson),
              Some(j.notes), Some(j.url), Some(j.appliedDate), j.deadline, j.nextRoundDate)
  }

  /** Supplied values are stored as given: re-creating a valid document
      from its own fields gives it back, with fresh timestamps. */
  lemma CreateFromOwnFields(j: Job, now: Time)
    requires WellFormed(j)
    ensures Create(j.id, FieldsOf(j), now) == Success(j.(createdAt := Some(now), updatedAt := Some(now)))
  {
  }

  /** A missing or empty company or position is refused, whatever else
      the body holds. */
  lemma BlankRequiredRefused(id: ObjectId, f: JobFields, now: Time)
    requires Blank(f.company) || Blank(f.position)
    ensures Create(id, f, now).Failure?
    ensures Blank(f.company) ==> Required("company") in Create(id, f, now).error
    ensures Blank(f.position) ==> Required("position") in Create(id, f, now).error
  {
  }
}
