/**
  The `Dashboard` figures: the number of applications, the number in each
  status, and the five most recent applications.
 */
module Dashboard {
  import opened Records
  import opened Sequences
  import opened Pagination
  import opened Store

  datatype Summary = Summary(
    total: nat,
    applied: nat,
    interview: nat,
    selected: nat,
    rejected: nat,
    lastFive: seq<Record>)

  function StatusIs(s: Status): Record -> bool {
    (a: Record) => a.status == s
  }

  /** `apps.filter(a => a.status === s).length` */
  function CountStatus(apps: seq<Record>, s: Status): nat {
    |Filter(apps, StatusIs(s))|
  }

  /** The statuses of `apps`, in order. */
  function Statuses(apps: seq<Record>): (r: seq<Status>)
    ensures |r| == |apps| && forall i :: 0 <= i < |apps| ==> r[i] == apps[i].status
  {
    seq(|apps|, i requires 0 <= i < |apps| => apps[i].status)
  }

  /** A status count is how often that status occurs among the records' statuses. */
  lemma {:induction false} CountIsMultiplicity(apps: seq<Record>, s: Status)
    ensures CountStatus(apps, s) == multiset(Statuses(apps))[s]
  {
    if apps != [] {
      CountIsMultiplicity(apps[1..], s);
      assert Statuses(apps) == [apps[0].status] + Statuses(apps[1..]);
    }
  }

  /** Every application has exactly one of the four statuses. */
  lemma {:induction false} CountsPartition(apps: seq<Record>)
    ensures CountStatus(apps, Applied) + CountStatus(apps, InterviewScheduled)
          + CountStatus(apps, Selected) + CountStatus(apps, Rejected) == |apps|
  {
    if apps != [] {
      CountsPartition(apps[1..]);
    }
  }

  /** Adding an application raises the count of its status by one and leaves the others. */
  lemma CountAfterAdd(apps: seq<Record>, id: int, d: Draft, s: Status)
    ensures CountStatus(Prepended(apps, id, d), s) == CountStatus(apps, s) + (if d.status == s then 1 else 0)
  {
    var added := Prepended(apps, id, d);
    assert added[1..] == apps;
  }

  /** The five figures and the list the dashboard shows. */
  function Summarize(apps: seq<Record>): (r: Summary)
    ensures r.total == |apps|
    ensures r.applied == CountStatus(apps, Applied)
    ensures r.interview == CountStatus(apps, InterviewScheduled)
    ensures r.selected == CountStatus(apps, Selected)
    ensures r.rejected == CountStatus(apps, Rejected)
    ensures r.applied + r.interview + r.selected + r.rejected == r.total
    ensures |r.lastFive| == Min(5, |apps|) && r.lastFive == apps[..|r.lastFive|]
  {
    CountsPartition(apps);
    Summary(
      |apps|,
      CountStatus(apps, Applied),
      CountStatus(apps, InterviewScheduled),
      CountStatus(apps, Selected),
      CountStatus(apps, Rejected),
      Slice(apps, 0, 5))
  }
}
