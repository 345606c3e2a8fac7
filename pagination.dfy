/**
  Pagination of the filtered list: five rows per page, pages numbered from 1,
  `totalPages = Math.max(1, Math.ceil(total / perPage))` and
  `pageItems = filtered.slice((page - 1) * perPage, page * perPage)`.
 */
module Pagination {

  const PerPage := 5

  function Min(a: int, b: int): int { if a <= b then a else b }
  function Max(a: int, b: int): int { if a >= b then a else b }

  /** `Math.max(1, Math.ceil(total / perPage))` */
  function TotalPages(total: nat): (n: nat)
    ensures n >= 1
    ensures total == 0 ==> n == 1
    ensures total > 0 ==> (n - 1) * PerPage < total <= n * PerPage
  {
    Max(1, (total + PerPage - 1) / PerPage)
  }

  /** Where `slice` puts a position: a negative one counts from the end, and
      either kind is clamped into `[0, len]`. */
  function SlicePosition(len: nat, k: int): (p: nat)
    ensures p <= len
  {
    if k < 0 then Max(len + k, 0) else Min(k, len)
  }

  /** `s.slice(start, end)` */
  function Slice<T>(s: seq<T>, start: int, end: int): seq<T> {
    var from, to := SlicePosition(|s|, start), SlicePosition(|s|, end);
    if from < to then s[from..to] else []
  }

  /** The rows shown on page `page`: at most five, none past the last page,
      and for a page in range exactly the five-row window it stands for. */
  function PageItems<T>(s: seq<T>, page: int): (r: seq<T>)
    ensures |r| <= PerPage
    ensures page > TotalPages(|s|) ==> r == []
    ensures 1 <= page ==> r == s[Min((page - 1) * PerPage, |s|)..Min(page * PerPage, |s|)]
  {
    Slice(s, (page - 1) * PerPage, page * PerPage)
  }

  /** Pages `1..n` laid end to end. */
  function Pages<T>(s: seq<T>, n: nat): seq<T> {
    if n == 0 then [] else Pages(s, n - 1) + PageItems(s, n)
  }

  lemma {:induction false} PagesArePrefix<T>(s: seq<T>, n: nat)
    ensures Pages(s, n) == s[..Min(n * PerPage, |s|)]
  {
    if n > 0 {
      PagesArePrefix(s, n - 1);
      var a, b := Min((n - 1) * PerPage, |s|), Min(n * PerPage, |s|);
      assert s[..b] == s[..a] + s[a..b];
    }
  }

  /** Reading every page in turn shows the whole list, once, in order. */
  lemma PagesCoverList<T>(s: seq<T>)
    ensures Pages(s, TotalPages(|s|)) == s
  {
    PagesArePrefix(s, TotalPages(|s|));
  }

  /** Twelve rows make three pages; the third holds two rows and the fourth none. */
  lemma TwelveRows<T>(s: seq<T>)
    requires |s| == 12
    ensures TotalPages(|s|) == 3
    ensures |PageItems(s, 3)| == 2 && PageItems(s, 3) == s[10..]
    ensures PageItems(s, 4) == []
  {
  }
}
