/**
  The application-list query of `Applications.applyAll`: search, job-type
  filter, status filter and optional sort, in that order.
 */
module Query {
  import opened Records
  import opened Text
  import opened Sequences
  import opened Sorting

  /** `sortMode`: `null`, `"company"` or `"date"`. */
  datatype SortMode = Unsorted | SortBy(order: Order)

  /** The inputs `applyAll` reads: the search box, the two filter selects and the sort mode. */
  datatype QuerySpec = QuerySpec(search: string, filterType: string, filterStatus: string, sortMode: SortMode)

  const All := "All"

  /** The state the list view starts in. */
  const Initial := QuerySpec("", All, All, Unsorted)

  /** The search test: a blank search keeps everything; otherwise the
      lowercased search text, NOT trimmed, must occur in the lowercased
      company or title. */
  predicate SearchHit(search: string, r: Record) {
    Trim(search) == [] || MatchesText(search, r)
  }

  predicate MatchesText(search: string, r: Record) {
    Includes(Lower(r.company), Lower(search)) || Includes(Lower(r.title), Lower(search))
  }

  predicate TypeHit(filterType: string, r: Record) {
    filterType == All || r.jobType.Name() == filterType
  }

  predicate StatusHit(filterStatus: string, r: Record) {
    filterStatus == All || r.status.Name() == filterStatus
  }

  /** The three tests a record must pass to be listed. */
  predicate Retained(q: QuerySpec, r: Record) {
    SearchHit(q.search, r) && TypeHit(q.filterType, r) && StatusHit(q.filterStatus, r)
  }

  /** The records that pass, in their stored order. */
  function Kept(items: seq<Record>, q: QuerySpec): seq<Record> {
    Filter(items, RetainedTest(q))
  }

  function RetainedTest(q: QuerySpec): Record -> bool {
    (r: Record) => Retained(q, r)
  }

  /** The callbacks `applyAll` hands to `filter`. */
  function TextTest(search: string): Record -> bool {
    (r: Record) => MatchesText(search, r)
  }

  function TypeTest(filterType: string): Record -> bool {
    (r: Record) => r.jobType.Name() == filterType
  }

  function StatusTest(filterStatus: string): Record -> bool {
    (r: Record) => r.status.Name() == filterStatus
  }

  function Arranged(mode: SortMode, s: seq<Record>): seq<Record> {
    match mode
    case Unsorted => s
    case SortBy(o) => StableSort(o, s)
  }

  /** What `applyAll(items)` returns. */
  function Pipeline(items: seq<Record>, q: QuerySpec): seq<Record> {
    Arranged(q.sortMode, Kept(items, q))
  }

  /** A record is listed exactly when it is stored and passes all three tests. */
  lemma KeptMembers(items: seq<Record>, q: QuerySpec)
    ensures IsSubsequence(Kept(items, q), items)
    ensures forall r :: r in Kept(items, q) <==> r in items && Retained(q, r)
    ensures forall r :: multiset(Kept(items, q))[r] == if Retained(q, r) then multiset(items)[r] else 0
  {
    var keep := RetainedTest(q);
    FilterIsSubsequence(items, keep);
    FilterMembers(items, keep);
    forall r
      ensures multiset(Kept(items, q))[r] == if Retained(q, r) then multiset(items)[r] else 0
    {
      FilterCount(items, keep, r);
    }
  }

  /** The listed records are the passing ones, each as often as stored; sorted
      by the chosen order and stable; without a sort mode, in stored order. */
  lemma PipelineCorrect(items: seq<Record>, q: QuerySpec)
    ensures forall r :: multiset(Pipeline(items, q))[r] == if Retained(q, r) then multiset(items)[r] else 0
    ensures q.sortMode.Unsorted? ==> Pipeline(items, q) == Kept(items, q)
    ensures q.sortMode.SortBy? ==> SortedBy(q.sortMode.order, Pipeline(items, q))
    ensures q.sortMode.SortBy? ==> forall k ::
      Ties(q.sortMode.order, k, Pipeline(items, q)) == Ties(q.sortMode.order, k, Kept(items, q))
  {
    KeptMembers(items, q);
    if q.sortMode.SortBy? {
      var o := q.sortMode.order;
      StableSortPermutes(o, Kept(items, q));
      StableSortSorted(o, Kept(items, q));
      forall k
        ensures Ties(o, k, Pipeline(items, q)) == Ties(o, k, Kept(items, q))
      {
        StableSortStable(o, Kept(items, q), k);
      }
    }
  }

  /** The default query lists every stored record in stored order. */
  lemma InitialListsAll(items: seq<Record>)
    ensures Pipeline(items, Initial) == items
  {
    assert Trim("") == [];
    FilterKeepsAll(items, RetainedTest(Initial));
  }

  /** The search ignores the case of ASCII letters in the search text. */
  lemma SearchCaseInsensitive(s1: string, s2: string, r: Record)
    requires Lower(s1) == Lower(s2)
    ensures SearchHit(s1, r) <==> SearchHit(s2, r)
  {
    TrimEmptyIffBlank(s1);
    TrimEmptyIffBlank(s2);
    LowerKeepsBlankness(s1);
    LowerKeepsBlankness(s2);
  }

  /** Typing the search in lowercase finds the same records. */
  lemma SearchLowercased(s: string, r: Record)
    ensures SearchHit(Lower(s), r) <==> SearchHit(s, r)
  {
    LowerIdempotent(s);
    SearchCaseInsensitive(Lower(s), s, r);
  }

  /** Choosing a job type keeps exactly the records of that type. */
  lemma TypeFilterExact(t: JobType, r: Record)
    ensures TypeHit(t.Name(), r) <==> r.jobType == t
  {
    JobTypeNamesDistinct(t, r.jobType);
  }

  /** Choosing a status keeps exactly the records with that status. */
  lemma StatusFilterExact(s: Status, r: Record)
    ensures StatusHit(s.Name(), r) <==> r.status == s
  {
    StatusNamesDistinct(s, r.status);
  }

  /** The three guarded filter steps select exactly the retained records. */
  lemma FilterSteps(items: seq<Record>, q: QuerySpec)
    ensures
      var searched := if Trim(q.search) != [] then Filter(items, TextTest(q.search)) else items;
      var typed := if q.filterType != All then Filter(searched, TypeTest(q.filterType)) else searched;
      var statused := if q.filterStatus != All then Filter(typed, StatusTest(q.filterStatus)) else typed;
      statused == Kept(items, q)
  {
    var searchTest := (r: Record) => SearchHit(q.search, r);
    var typeTest := (r: Record) => TypeHit(q.filterType, r);
    var statusTest := (r: Record) => StatusHit(q.filterStatus, r);
    var bothTests := (r: Record) => SearchHit(q.search, r) && TypeHit(q.filterType, r);
    FilterWhen(items, Trim(q.search) != [], TextTest(q.search), searchTest);
    var searched := Filter(items, searchTest);
    FilterWhen(searched, q.filterType != All, TypeTest(q.filterType), typeTest);
    var typed := Filter(searched, typeTest);
    FilterWhen(typed, q.filterStatus != All, StatusTest(q.filterStatus), statusTest);
    FilterFilter(items, searchTest, typeTest, bothTests);
    FilterFilter(items, bothTests, statusTest, RetainedTest(q));
  }

  /** `[...items]` followed by the filters and the sort, one step at a time. */
  method ApplyAll(items: seq<Record>, q: QuerySpec) returns (out: seq<Record>)
    ensures out == Pipeline(items, q)
  {
    out := items;
    if Trim(q.search) != [] {
      out := Filter(out, TextTest(q.search));
    }
    if q.filterType != All {
      out := Filter(out, TypeTest(q.filterType));
    }
    if q.filterStatus != All {
      out := Filter(out, StatusTest(q.filterStatus));
    }
    FilterSteps(items, q);
    assert out == Kept(items, q);
    if q.sortMode.SortBy? {
      out := SortArray(out, q.sortMode.order);
    }
  }
}
