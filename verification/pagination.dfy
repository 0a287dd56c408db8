/** Pagination of the sorted rows: page count, the upper clamp, and the
    window of five rows taken with JavaScript's `Array.prototype.slice`. */
module Pagination {

  import opened Seqs

  /** Rows shown per page. */
  const PageSize: nat := 5

  /** `Math.max(1, Math.ceil(n / pageSize))`. */
  function TotalPages(n: nat): (r: int)
    ensures r >= 1
    ensures n <= PageSize * r
    ensures r == 1 || PageSize * (r - 1) < n
  {
    Max(1, (n + PageSize - 1) / PageSize)
  }

  /** `Math.min(page, totalPages)`: clamped from above only. */
  function PageClamped(page: int, totalPages: int): (r: int)
    ensures r <= totalPages && r <= page
    ensures r == page || r == totalPages
  {
    Min(page, totalPages)
  }

  /** A reachable page (`page >= 1`) clamps into `[1, totalPages]`. */
  lemma ClampedIntoRange(page: int, n: nat)
    requires page >= 1
    ensures 1 <= PageClamped(page, TotalPages(n)) <= TotalPages(n)
  {
  }

  /** How `slice` resolves one of its (possibly negative) arguments. */
  function SliceIndex(i: int, len: nat): (r: nat)
    ensures r <= len
    ensures i >= 0 ==> r == Min(i, len)
  {
    if i < 0 then Max(len + i, 0) else Min(i, len)
  }

  /** `s.slice(start, end)`: a negative argument counts from the end. */
  function JsSlice<T>(s: seq<T>, start: int, end: int): (r: seq<T>)
    ensures |r| <= |s|
  {
    var from := SliceIndex(start, |s|);
    var to := SliceIndex(end, |s|);
    if from < to then s[from..to] else []
  }

  /** The rows of page `page`: `sorted.slice(start, start + pageSize)` with
      `start = (page - 1) * pageSize`. */
  function Paged<T>(sorted: seq<T>, page: int): (r: seq<T>)
    ensures |r| <= PageSize
    ensures page >= 1 ==>
      var start := (page - 1) * PageSize;
      r == sorted[Min(start, |sorted|)..Min(start + PageSize, |sorted|)]
  {
    var start := (page - 1) * PageSize;
    JsSlice(sorted, start, start + PageSize)
  }

  /** Page 0 (never reached by the page-state rules) shows nothing. */
  lemma PageZeroIsEmpty<T>(sorted: seq<T>)
    ensures Paged(sorted, 0) == []
  {
  }

  /** Without a lower clamp, page -1 would read `slice(-10, -5)`, whose
      negative bounds count from the end: for twelve rows, rows 3 to 7. */
  lemma NegativePageReadsFromTheEnd<T>(sorted: seq<T>)
    requires |sorted| == 12
    ensures Paged(sorted, -1) == sorted[2..7]
  {
  }

  /** Twelve rows make three pages; a request for page 4 shows page 3,
      which holds rows 11 and 12. */
  lemma TwelveRowsExample<T>(sorted: seq<T>)
    requires |sorted| == 12
    ensures TotalPages(|sorted|) == 3
    ensures PageClamped(4, TotalPages(|sorted|)) == 3
    ensures Paged(sorted, PageClamped(4, TotalPages(|sorted|))) == sorted[10..12]
    ensures Paged(sorted, 1) == sorted[..5]
  {
  }

  /** Pages `1..k` laid end to end. */
  function Pages<T>(sorted: seq<T>, k: nat): seq<T>
  {
    if k == 0 then [] else Pages(sorted, k - 1) + Paged(sorted, k)
  }

  /** The first `k` pages are the first `k * pageSize` rows. */
  lemma {:induction false} PagesArePrefix<T>(sorted: seq<T>, k: nat)
    ensures Pages(sorted, k) == sorted[..Min(k * PageSize, |sorted|)]
  {
    if k > 0 {
      PagesArePrefix(sorted, k - 1);
      var a := Min((k - 1) * PageSize, |sorted|);
      var b := Min(k * PageSize, |sorted|);
      assert sorted[..b] == sorted[..a] + sorted[a..b];
    }
  }

  /** Concatenating pages `1..totalPages` gives back every sorted row, and
      each of those pages is non-empty when there are rows at all. */
  lemma PagesCoverAllRows<T>(sorted: seq<T>)
    ensures Pages(sorted, TotalPages(|sorted|)) == sorted
    ensures |sorted| > 0 ==> forall p :: 1 <= p <= TotalPages(|sorted|) ==> |Paged(sorted, p)| > 0
  {
    PagesArePrefix(sorted, TotalPages(|sorted|));
  }
}
