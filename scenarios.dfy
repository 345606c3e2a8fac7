/**
  Concrete behaviours of the list query, and how the store and the query
  fit together.
 */
module Scenarios {
  import opened Wrappers
  import opened Records
  import opened Text
  import opened Sequences
  import opened Sorting
  import opened Query
  import opened Store
  import opened ApplicationsPage

  function Sample(id: int, company: string, title: string, date: Option<string>): Record {
    Record(id, company, title, FullTime, Applied, "Remote", date, None)
  }

  /** A needle whose first character does not occur in `hay` is not found. */
  lemma MissingFirstChar(hay: string, needle: string)
    requires needle != [] && needle[0] !in hay
    ensures !Includes(hay, needle)
  {
  }

  const Acme := Sample(1, "Acme", "Engineer", None)
  const Globex := Sample(2, "Globex", "Sales", None)

  lemma AcmeMatches()
    ensures Retained(Initial.(search := "acm"), Acme)
  {
    assert Lower("acm") == "acm";
    assert Lower("Acme") == "acme";
    assert OccursAt("acme", "acm", 0);
  }

  /** The search text "acm" is not blank. */
  lemma AcmNotBlank()
    ensures Trim("acm") != [] && Lower("acm") == "acm"
  {
    TrimEmptyIffBlank("acm");
    assert !IsWhitespace("acm"[0]);
  }

  lemma GlobexLowered()
    ensures Lower("Globex") == "globex" && Lower("Sales") == "sales"
  {
  }

  lemma GlobexMisses()
    ensures !Retained(Initial.(search := "acm"), Globex)
  {
    AcmNotBlank();
    GlobexLowered();
    MissingFirstChar("globex", "acm");
    assert !Includes("sales", "acm") by {
      assert "sales"[1..] == "ales" && "ales"[1..] == "les";
      MissingFirstChar("les", "acm");
    }
  }

  /** Searching "acm" over Acme/Engineer and Globex/Sales finds Acme only. */
  lemma SearchFindsAcme()
    ensures Kept([Acme, Globex], Initial.(search := "acm")) == [Acme]
  {
    var q := Initial.(search := "acm");
    AcmeMatches();
    GlobexMisses();
    FilterConcat([Acme], [Globex], RetainedTest(q));
    FilterSingleton(Acme, RetainedTest(q));
    FilterSingleton(Globex, RetainedTest(q));
    assert [Acme] + [Globex] == [Acme, Globex];
  }

  lemma AcmeLowered()
    ensures Lower("acm ") == "acm " && Lower("Acme") == "acme" && Lower("Engineer") == "engineer"
    ensures Trim("acm ") != []
  {
    TrimEmptyIffBlank("acm ");
    assert !IsWhitespace("acm "[0]);
  }

  /** The trimmed search text only decides whether the search is blank: a trailing blank
      stays in the text that is matched, so "acm " no longer finds Acme. */
  lemma SearchIsNotTrimmed()
    ensures SearchHit("acm", Acme) && !SearchHit("acm ", Acme)
  {
    AcmeMatches();
    AcmeLowered();
    assert !Includes("acme", "acm ") by {
      assert "acme"[1..] == "cme";
    }
    MissingFirstChar("engineer", "acm ");
  }

  const Zeta := Sample(3, "Zeta", "Analyst", None)
  const Mono := Sample(4, "Mono", "Designer", None)

  lemma SortTwo(o: Order, a: Record, b: Record)
    ensures StableSort(o, [a, b]) == InsertLast(o, [a], b)
  {
    assert [a, b][..1] == [a] && [a][..0] == [];
    assert StableSort(o, [a]) == InsertLast(o, [], a) == [a];
  }

  lemma SortThree(o: Order, a: Record, b: Record, c: Record)
    ensures StableSort(o, [a, b, c]) == InsertLast(o, InsertLast(o, [a], b), c)
  {
    assert [a, b, c][..2] == [a, b];
    SortTwo(o, a, b);
  }

  lemma InsertIntoOne(o: Order, a: Record, x: Record)
    ensures InsertLast(o, [a], x) == if Le(o, a, x) then [a, x] else [x, a]
  {
    assert [a][..0] == [];
  }

  lemma InsertIntoTwo(o: Order, a: Record, b: Record, x: Record)
    ensures InsertLast(o, [a, b], x) ==
      if Le(o, b, x) then [a, b, x] else if Le(o, a, x) then [a, x, b] else [x, a, b]
  {
    assert [a, b][..1] == [a];
    InsertIntoOne(o, a, x);
  }

  lemma CompanyNamesOrdered()
    ensures !StrLe("Zeta", "Acme") && !StrLe("Zeta", "Mono") && StrLe("Acme", "Mono")
  {
  }

  /** Sorting by company puts Zeta, Acme, Mono in the order Acme, Mono, Zeta. */
  lemma CompanySortExample()
    ensures StableSort(CompanyAsc, [Zeta, Acme, Mono]) == [Acme, Mono, Zeta]
  {
    var o := CompanyAsc;
    CompanyNamesOrdered();
    assert !Le(o, Zeta, Acme) && !Le(o, Zeta, Mono) && Le(o, Acme, Mono);
    SortThree(o, Zeta, Acme, Mono);
    InsertIntoOne(o, Zeta, Acme);
    InsertIntoTwo(o, Acme, Zeta, Mono);
  }

  const Undated := Sample(5, "Hooli", "Intern", None)
  const Dated2023 := Sample(6, "Initech", "Tester", Some("2023-01-01"))
  const Dated2024 := Sample(7, "Umbrella", "Support", Some("2024-06-01"))
  const Dated1969 := Sample(8, "Vandelay", "Importer", Some("1969-12-31"))

  lemma DatesOrdered()
    ensures !StrLe("2023-01-01", Epoch) && !StrLe("2024-06-01", Epoch)
    ensures !StrLe("2024-06-01", "2023-01-01") && !StrLe(Epoch, "1969-12-31")
  {
    LaterYear();
    EpochAfter1969();
  }

  lemma LaterYear()
    ensures !StrLe("2024-06-01", "2023-01-01")
  {
    assert "2024-06-01"[1..] == "024-06-01" && "2023-01-01"[1..] == "023-01-01";
    assert "024-06-01"[1..] == "24-06-01" && "023-01-01"[1..] == "23-01-01";
    assert "24-06-01"[1..] == "4-06-01" && "23-01-01"[1..] == "3-01-01";
  }

  lemma EpochAfter1969()
    ensures !StrLe(Epoch, "1969-12-31")
  {
    assert Epoch[1..] == "970-01-01" && "1969-12-31"[1..] == "969-12-31";
    assert "970-01-01"[1..] == "70-01-01" && "969-12-31"[1..] == "69-12-31";
  }

  /** Newest first, with the undated record last: dates none, 2023-01-01,
      2024-06-01 come out as 2024-06-01, 2023-01-01, none. */
  lemma DateSortExample()
    ensures StableSort(DateNewestFirst, [Undated, Dated2023, Dated2024]) == [Dated2024, Dated2023, Undated]
  {
    var o := DateNewestFirst;
    DatesOrdered();
    assert !Le(o, Undated, Dated2023) && !Le(o, Undated, Dated2024) && !Le(o, Dated2023, Dated2024);
    SortThree(o, Undated, Dated2023, Dated2024);
    InsertIntoOne(o, Undated, Dated2023);
    InsertIntoTwo(o, Dated2023, Undated, Dated2024);
  }

  /** A missing date counts as 1970-01-01, not as the earliest date: a record
      dated 1969-12-31 sorts after an undated one. */
  lemma MissingDateIsEpoch()
    ensures StableSort(DateNewestFirst, [Dated1969, Undated]) == [Undated, Dated1969]
  {
    var o := DateNewestFirst;
    DatesOrdered();
    assert !Le(o, Dated1969, Undated);
    SortTwo(o, Dated1969, Undated);
    InsertIntoOne(o, Dated1969, Undated);
  }

  /** With the default query, a record added under a fresh id is listed first,
      followed by the earlier list, and exactly one listed record has that id. */
  lemma AddThenList(apps: seq<Record>, id: int, d: Draft)
    requires Fresh(apps, id)
    ensures Pipeline(Prepended(apps, id, d), Initial) == [WithId(id, d)] + apps
    ensures |Filter(Pipeline(Prepended(apps, id, d), Initial), (a: Record) => a.id == id)| == 1
  {
    var added := Prepended(apps, id, d);
    var hasId := (a: Record) => a.id == id;
    InitialListsAll(added);
    FilterSingleton(WithId(id, d), hasId);
    FilterConcat([WithId(id, d)], apps, hasId);
    FilterMembers(apps, hasId);
    if Filter(apps, hasId) != [] {
      assert Filter(apps, hasId)[0] in Filter(apps, hasId);
    }
  }

  /** The page is not reset when the list shrinks: with six records, going to
      page 2 and deleting the only record on it leaves the view on page 2 of a
      one-page list, which renders nothing; Next then goes back to page 1. */
  method StalePageAfterDelete(saved: seq<Record>)
    returns (pageBefore: int, pagesAfter: nat, itemsAfter: seq<Record>, pageAfterNext: int)
    requires |saved| == 6 && UniqueIds(saved)
    ensures pageBefore == 2 && pagesAfter == 1 && itemsAfter == [] && pageAfterNext == 1
  {
    var store := new AppsProvider.Restored(saved);
    var view := new ApplicationsView();
    InitialListsAll(saved);
    view.Next(store.apps);
    pageBefore := view.page;
    store.DeleteApp(saved[5].id);
    InitialListsAll(store.apps);
    var total;
    itemsAfter, total, pagesAfter := view.Render(store.apps);
    view.Next(store.apps);
    pageAfterNext := view.page;
  }
}
