/**
  `out.sort(cmp)` for the two comparators of the application list. The
  engine's sort is stable, so the model is a stable insertion sort: it works
  in place on an array and is specified by `StableSort` on sequences.
 */
module Sorting {
  import opened Wrappers
  import opened Records
  import opened Text
  import opened Sequences

  datatype Order =
    | CompanyAsc       // `x.company.localeCompare(y.company)`
    | DateNewestFirst  // `new Date(db) - new Date(da)`

  /** The sentinel `x.appliedDate || "1970-01-01"`: both a missing date and
      the empty string the form leaves are falsy. */
  const Epoch := "1970-01-01"

  function DateKey(d: Option<string>): string {
    if d.None? || d.value == "" then Epoch else d.value
  }

  /** The string the comparator looks at. */
  function Key(o: Order, r: Record): string {
    match o
    case CompanyAsc => r.company
    case DateNewestFirst => DateKey(r.appliedDate)
  }

  /** The comparator applied to `(x, y)` is not positive: `x` may stay before `y`.
      ISO dates compare chronologically as they compare as strings. */
  predicate Le(o: Order, x: Record, y: Record) {
    match o
    case CompanyAsc => StrLe(Key(o, x), Key(o, y))
    case DateNewestFirst => StrLe(Key(o, y), Key(o, x))
  }

  lemma LeTotal(o: Order, x: Record, y: Record)
    ensures Le(o, x, y) || Le(o, y, x)
  {
    StrLeTotal(Key(o, x), Key(o, y));
  }

  lemma LeTransitive(o: Order, x: Record, y: Record, z: Record)
    requires Le(o, x, y) && Le(o, y, z)
    ensures Le(o, x, z)
  {
    match o
    case CompanyAsc => StrLeTransitive(Key(o, x), Key(o, y), Key(o, z));
    case DateNewestFirst => StrLeTransitive(Key(o, z), Key(o, y), Key(o, x));
  }

  /** The comparator returns 0 exactly for records with the same key. */
  lemma LeTie(o: Order, x: Record, y: Record)
    ensures Le(o, x, y) && Le(o, y, x) <==> Key(o, x) == Key(o, y)
  {
    if Le(o, x, y) && Le(o, y, x) {
      StrLeAntisymmetric(Key(o, x), Key(o, y));
    }
    if Key(o, x) == Key(o, y) {
      StrLeReflexive(Key(o, x));
    }
  }

  ghost predicate SortedBy(o: Order, s: seq<Record>) {
    forall i, j :: 0 <= i < j < |s| ==> Le(o, s[i], s[j])
  }

  /** The records of `s` whose key is `k`, in their order in `s`. */
  function Ties(o: Order, k: string, s: seq<Record>): seq<Record> {
    Filter(s, HasKey(o, k))
  }

  function HasKey(o: Order, k: string): Record -> bool {
    (r: Record) => Key(o, r) == k
  }

  /** Insert `x` into `t` after every element it may follow. */
  function InsertLast(o: Order, t: seq<Record>, x: Record): seq<Record>
    decreases |t|
  {
    if t == [] || Le(o, t[|t| - 1], x) then t + [x]
    else InsertLast(o, t[..|t| - 1], x) + [t[|t| - 1]]
  }

  /** Insertion sort, inserting the elements of `s` left to right. */
  function StableSort(o: Order, s: seq<Record>): seq<Record>
    decreases |s|
  {
    if s == [] then [] else InsertLast(o, StableSort(o, s[..|s| - 1]), s[|s| - 1])
  }

  lemma MultisetSnoc(s: seq<Record>)
    requires s != []
    ensures multiset(s) == multiset(s[..|s| - 1]) + multiset{s[|s| - 1]}
  {
    assert s == s[..|s| - 1] + [s[|s| - 1]];
  }

  lemma {:induction false} InsertLastPermutes(o: Order, t: seq<Record>, x: Record)
    ensures multiset(InsertLast(o, t, x)) == multiset(t) + multiset{x}
  {
    if !(t == [] || Le(o, t[|t| - 1], x)) {
      InsertLastPermutes(o, t[..|t| - 1], x);
      MultisetSnoc(t);
    }
  }

  lemma {:induction false} InsertLastSorted(o: Order, t: seq<Record>, x: Record)
    requires SortedBy(o, t)
    ensures SortedBy(o, InsertLast(o, t, x))
  {
    if t == [] || Le(o, t[|t| - 1], x) {
      forall i | 0 <= i < |t|
        ensures Le(o, t[i], x)
      {
        if i < |t| - 1 {
          LeTransitive(o, t[i], t[|t| - 1], x);
        }
      }
      SortedSnoc(o, t, x);
    } else {
      var init, last := t[..|t| - 1], t[|t| - 1];
      SortedPrefix(o, t, |t| - 1);
      InsertLastSorted(o, init, x);
      InsertLastPermutes(o, init, x);
      LeTotal(o, last, x);
      BelowLast(o, t, x, InsertLast(o, init, x));
      SortedSnoc(o, InsertLast(o, init, x), last);
    }
  }

  /** Appending an element that every element may precede keeps a list sorted. */
  lemma SortedSnoc(o: Order, u: seq<Record>, y: Record)
    requires SortedBy(o, u)
    requires forall i :: 0 <= i < |u| ==> Le(o, u[i], y)
    ensures SortedBy(o, u + [y])
  {
    var r := u + [y];
    forall i, j | 0 <= i < j < |r|
      ensures Le(o, r[i], r[j])
    {
      assert r[i] == u[i];
      if j < |u| {
        assert r[j] == u[j];
      }
    }
  }

  /** Every element of a permutation of `init + [x]` may precede the last
      element of the sorted `t`, when `x` may. */
  lemma BelowLast(o: Order, t: seq<Record>, x: Record, u: seq<Record>)
    requires SortedBy(o, t) && t != [] && Le(o, x, t[|t| - 1])
    requires multiset(u) == multiset(t[..|t| - 1]) + multiset{x}
    ensures forall i :: 0 <= i < |u| ==> Le(o, u[i], t[|t| - 1])
  {
    forall i | 0 <= i < |u|
      ensures Le(o, u[i], t[|t| - 1])
    {
      assert u[i] in multiset(u);
      if u[i] != x {
        assert u[i] in t[..|t| - 1];
      }
    }
  }

  lemma TiesSnoc(o: Order, k: string, s: seq<Record>)
    requires s != []
    ensures Ties(o, k, s) == Ties(o, k, s[..|s| - 1]) + Ties(o, k, [s[|s| - 1]])
  {
    assert s == s[..|s| - 1] + [s[|s| - 1]];
    FilterConcat(s[..|s| - 1], [s[|s| - 1]], HasKey(o, k));
  }

  lemma {:induction false} InsertLastTies(o: Order, t: seq<Record>, x: Record, k: string)
    ensures Ties(o, k, InsertLast(o, t, x)) == Ties(o, k, t) + Ties(o, k, [x])
  {
    if t == [] || Le(o, t[|t| - 1], x) {
      FilterConcat(t, [x], HasKey(o, k));
    } else {
      InsertLastTies(o, t[..|t| - 1], x, k);
      TiesMovedPast(o, t, x, k);
    }
  }

  /** The step of `InsertLastTies` where `x` moves past the last element. */
  lemma TiesMovedPast(o: Order, t: seq<Record>, x: Record, k: string)
    requires t != [] && !Le(o, t[|t| - 1], x)
    requires Ties(o, k, InsertLast(o, t[..|t| - 1], x)) == Ties(o, k, t[..|t| - 1]) + Ties(o, k, [x])
    ensures Ties(o, k, InsertLast(o, t, x)) == Ties(o, k, t) + Ties(o, k, [x])
  {
    var init, last := t[..|t| - 1], t[|t| - 1];
    var u := InsertLast(o, init, x);
    FilterConcat(u, [last], HasKey(o, k));
    TiesSnoc(o, k, t);
    // `last` was moved past `x`, so the two do not tie
    NoTieWhenMoved(o, last, x, k);
    Swap(Ties(o, k, init), Ties(o, k, [x]), Ties(o, k, [last]));
  }

  lemma Swap(a: seq<Record>, x: seq<Record>, y: seq<Record>)
    requires x + y == y + x
    ensures (a + x) + y == (a + y) + x
  {
    assert (a + x) + y == a + (x + y);
    assert (a + y) + x == a + (y + x);
  }

  /** Records the comparator orders strictly never share a key. */
  lemma NoTieWhenMoved(o: Order, y: Record, x: Record, k: string)
    requires !Le(o, y, x)
    ensures Ties(o, k, [x]) + Ties(o, k, [y]) == Ties(o, k, [y]) + Ties(o, k, [x])
  {
    FilterSingleton(x, HasKey(o, k));
    FilterSingleton(y, HasKey(o, k));
    LeTie(o, y, x);
    LeTotal(o, y, x);
  }

  /** The sort's result is ordered by the comparator. */
  lemma {:induction false} StableSortSorted(o: Order, s: seq<Record>)
    ensures SortedBy(o, StableSort(o, s))
  {
    if s != [] {
      StableSortSorted(o, s[..|s| - 1]);
      InsertLastSorted(o, StableSort(o, s[..|s| - 1]), s[|s| - 1]);
    }
  }

  /** The sort's result is a permutation of its input. */
  lemma {:induction false} StableSortPermutes(o: Order, s: seq<Record>)
    ensures multiset(StableSort(o, s)) == multiset(s)
  {
    if s != [] {
      var init, last := s[..|s| - 1], s[|s| - 1];
      var sorted := StableSort(o, init);
      StableSortPermutes(o, init);
      InsertLastPermutes(o, sorted, last);
      MultisetSnoc(s);
      assert StableSort(o, s) == InsertLast(o, sorted, last);
    }
  }

  /** The sort is stable: records with equal keys keep their relative order. */
  lemma {:induction false} StableSortStable(o: Order, s: seq<Record>, k: string)
    ensures Ties(o, k, StableSort(o, s)) == Ties(o, k, s)
  {
    if s != [] {
      var init, last := s[..|s| - 1], s[|s| - 1];
      StableSortStable(o, init, k);
      InsertLastTies(o, StableSort(o, init), last, k);
      TiesSnoc(o, k, s);
    }
  }

  lemma SortedPrefix(o: Order, s: seq<Record>, n: int)
    requires 0 <= n <= |s| && SortedBy(o, s)
    ensures SortedBy(o, s[..n])
  {
    forall i, j | 0 <= i < j < n
      ensures Le(o, s[..n][i], s[..n][j])
    {
      assert s[..n][i] == s[i] && s[..n][j] == s[j];
    }
  }

  /** A list that is already ordered is left as it is. */
  lemma {:induction false} StableSortOfSorted(o: Order, s: seq<Record>)
    requires SortedBy(o, s)
    ensures StableSort(o, s) == s
  {
    if s != [] {
      var init, last := s[..|s| - 1], s[|s| - 1];
      SortedPrefix(o, s, |s| - 1);
      StableSortOfSorted(o, init);
      assert init == [] || Le(o, init[|init| - 1], last) by {
        if init != [] {
          assert init[|init| - 1] == s[|s| - 2];
        }
      }
      calc {
        StableSort(o, s);
        InsertLast(o, init, last);
        init + [last];
        s;
      }
    }
  }

  /** `x` lands at index `j` when it may follow `t[j - 1]` and may not follow
      any later element. */
  lemma {:induction false} InsertLastAt(o: Order, t: seq<Record>, x: Record, j: int)
    requires 0 <= j <= |t| && (j == 0 || Le(o, t[j - 1], x))
    requires forall k :: j <= k < |t| ==> !Le(o, t[k], x)
    ensures InsertLast(o, t, x) == t[..j] + [x] + t[j..]
    decreases |t|
  {
    if j < |t| {
      var init, last := t[..|t| - 1], t[|t| - 1];
      assert !Le(o, last, x);
      assert forall k :: j <= k < |init| ==> init[k] == t[k];
      InsertLastAt(o, init, x, j);
      SnocSplit(t, x, j);
      assert InsertLast(o, t, x) == InsertLast(o, init, x) + [last];
    } else {
      assert t[..j] == t && t[j..] == [];
    }
  }

  lemma SnocSplit(t: seq<Record>, x: Record, j: int)
    requires 0 <= j < |t|
    ensures t[..|t| - 1][..j] + [x] + t[..|t| - 1][j..] + [t[|t| - 1]] == t[..j] + [x] + t[j..]
  {
    var init := t[..|t| - 1];
    assert init[..j] == t[..j] && init[j..] + [t[|t| - 1]] == t[j..];
    assert init[..j] + [x] + init[j..] + [t[|t| - 1]] == t[..j] + [x] + (init[j..] + [t[|t| - 1]]);
  }

  lemma Assemble(b: seq<Record>, t: seq<Record>, x: Record, j: int)
    requires |b| == |t| + 1 && 0 <= j <= |t| && b[j] == x
    requires forall k :: 0 <= k < j ==> b[k] == t[k]
    requires forall k :: j < k < |b| ==> b[k] == t[k - 1]
    ensures b == t[..j] + [x] + t[j..]
  {
  }

  /** One pass of insertion sort: `a[i]` is inserted into the sorted `a[..i]`. */
  method InsertAt(a: array<Record>, o: Order, i: int)
    requires 0 <= i < a.Length
    modifies a
    ensures a[..i + 1] == InsertLast(o, old(a[..i]), old(a[i]))
    ensures forall k :: i < k < a.Length ==> a[k] == old(a[k])
  {
    var x := a[i];
    ghost var t := a[..i];
    var j := ShiftUp(a, o, i, x);
    InsertLastAt(o, t, x, j);
    a[j] := x;
    Assemble(a[..i + 1], t, x, j);
  }

  /** Moves the elements of `a[..i]` that may not precede `x` one place up,
      from the right, and returns the index left free. */
  method ShiftUp(a: array<Record>, o: Order, i: int, x: Record) returns (j: int)
    requires 0 <= i < a.Length
    modifies a
    ensures 0 <= j <= i && (j == 0 || Le(o, a[j - 1], x))
    ensures forall k :: 0 <= k < j ==> a[k] == old(a[k])
    ensures forall k :: j < k <= i ==> a[k] == old(a[k - 1])
    ensures forall k :: i < k < a.Length ==> a[k] == old(a[k])
    ensures forall k :: j <= k < i ==> !Le(o, old(a[k]), x)
  {
    j := i;
    while j > 0 && !Le(o, a[j - 1], x)
      invariant 0 <= j <= i
      invariant forall k :: 0 <= k < j ==> a[k] == old(a[k])
      invariant forall k :: j < k <= i ==> a[k] == old(a[k - 1])
      invariant forall k :: i < k < a.Length ==> a[k] == old(a[k])
      invariant forall k :: j <= k < i ==> !Le(o, old(a[k]), x)
    {
      a[j] := a[j - 1];
      j := j - 1;
    }
  }

  /** The list `out` as the array it is in JavaScript, sorted in place. */
  method SortArray(s: seq<Record>, o: Order) returns (r: seq<Record>)
    ensures r == StableSort(o, s)
  {
    var a := new Record[|s|](i requires 0 <= i < |s| => s[i]);
    assert a[..] == s;
    SortInPlace(a, o);
    r := a[..];
  }

  /** Sorting one more element of the input inserts it into the sorted prefix. */
  lemma SortStep(o: Order, input: seq<Record>, i: int)
    requires 0 <= i < |input|
    ensures StableSort(o, input[..i + 1]) == InsertLast(o, StableSort(o, input[..i]), input[i])
  {
    assert input[..i + 1][..i] == input[..i];
  }

  /** `a.sort(cmp)` in place: a stable insertion sort. */
  method SortInPlace(a: array<Record>, o: Order)
    modifies a
    ensures a[..] == StableSort(o, old(a[..]))
  {
    ghost var input := a[..];
    var i := 0;
    while i < a.Length
      invariant 0 <= i <= a.Length
      invariant a[..i] == StableSort(o, input[..i])
      invariant forall k :: i <= k < a.Length ==> a[k] == input[k]
    {
      InsertAt(a, o, i);
      SortStep(o, input, i);
      i := i + 1;
    }
    assert input[..a.Length] == input && a[..a.Length] == a[..];
  }
}
