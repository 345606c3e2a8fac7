/**
  The job-application record and the two partial-record shapes the store
  consumes: the form payload handed to `addApp` (everything but the id) and
  the field set handed to `updateApp` (any subset of the fields).
 */
module Records {
  import opened Wrappers

  datatype JobType = FullTime | Internship | PartTime | Contract {
    /** The option text the forms and the type filter use. */
    function Name(): string {
      match this
      case FullTime => "Full-time"
      case Internship => "Internship"
      case PartTime => "Part-time"
      case Contract => "Contract"
    }
  }

  datatype Status = Applied | InterviewScheduled | Rejected | Selected {
    /** The option text the forms and the status filter use. */
    function Name(): string {
      match this
      case Applied => "Applied"
      case InterviewScheduled => "Interview Scheduled"
      case Rejected => "Rejected"
      case Selected => "Selected"
    }
  }

  /** Distinct job types have distinct names, and none is called "All". */
  lemma JobTypeNamesDistinct(a: JobType, b: JobType)
    ensures a.Name() == b.Name() <==> a == b
    ensures a.Name() != "All"
  {
  }

  /** Distinct statuses have distinct names, and none is called "All". */
  lemma StatusNamesDistinct(a: Status, b: Status)
    ensures a.Name() == b.Name() <==> a == b
    ensures a.Name() != "All"
  {
  }

  /** One tracked application; `appliedDate` and `notes` may be missing. */
  datatype Record = Record(
    id: int,
    company: string,
    title: string,
    jobType: JobType,
    status: Status,
    location: string,
    appliedDate: Option<string>,
    notes: Option<string>)

  /** What `addApp` receives: a record without its id. */
  datatype Draft = Draft(
    company: string,
    title: string,
    jobType: JobType,
    status: Status,
    location: string,
    appliedDate: Option<string>,
    notes: Option<string>)

  /** `{ id, ...app }`: the draft completed with the given id. */
  function WithId(id: int, d: Draft): (r: Record)
    ensures r.id == id
    ensures Drop(r) == d
  {
    Record(id, d.company, d.title, d.jobType, d.status, d.location, d.appliedDate, d.notes)
  }

  /** The record without its id. */
  function Drop(r: Record): Draft {
    Draft(r.company, r.title, r.jobType, r.status, r.location, r.appliedDate, r.notes)
  }

  /** What `updateApp` receives: each field is present (`Some`) or not. */
  datatype Patch = Patch(
    id: Option<int>,
    company: Option<string>,
    title: Option<string>,
    jobType: Option<JobType>,
    status: Option<Status>,
    location: Option<string>,
    appliedDate: Option<Option<string>>,
    notes: Option<Option<string>>)

  const EmptyPatch := Patch(None, None, None, None, None, None, None, None)

  /** `{ ...r, ...p }`: the fields present in `p` override those of `r`. */
  function Merge(r: Record, p: Patch): Record {
    Record(
      p.id.GetOr(r.id),
      p.company.GetOr(r.company),
      p.title.GetOr(r.title),
      p.jobType.GetOr(r.jobType),
      p.status.GetOr(r.status),
      p.location.GetOr(r.location),
      p.appliedDate.GetOr(r.appliedDate),
      p.notes.GetOr(r.notes))
  }

  /** A later field overrides an earlier one. */
  function Override<T>(earlier: Option<T>, later: Option<T>): Option<T> {
    if later.Some? then later else earlier
  }

  /** `{ ...p, ...q }`: two patches spread one after the other. */
  function Combine(p: Patch, q: Patch): Patch {
    Patch(
      Override(p.id, q.id),
      Override(p.company, q.company),
      Override(p.title, q.title),
      Override(p.jobType, q.jobType),
      Override(p.status, q.status),
      Override(p.location, q.location),
      Override(p.appliedDate, q.appliedDate),
      Override(p.notes, q.notes))
  }

  /** Spreading an empty object changes nothing. */
  lemma MergeEmpty(r: Record)
    ensures Merge(r, EmptyPatch) == r
  {
  }

  /** Applying the same update twice is applying it once. */
  lemma MergeIdempotent(r: Record, p: Patch)
    ensures Merge(Merge(r, p), p) == Merge(r, p)
  {
  }

  /** Two successive updates are one update with the combined fields. */
  lemma MergeCombine(r: Record, p: Patch, q: Patch)
    ensures Merge(Merge(r, p), q) == Merge(r, Combine(p, q))
  {
  }
}
