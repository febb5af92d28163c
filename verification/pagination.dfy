/**
 * The pagination cursor of `searchShops`: the page taken from the filtered
 * list at the current count, and the signed count of that page.
 */
module Pagination {

  /** The module variable `resultCount`, used as the page size. */
  const PageSize: nat := 70

  function Min(a: int, b: int): int {
    if a <= b then a else b
  }

  /** JavaScript's `s.slice(start, end)` for non-negative bounds: out-of-range bounds are clamped. */
  function Slice<T>(s: seq<T>, start: nat, end: nat): (r: seq<T>)
    ensures |r| == if start < end && start < |s| then Min(end, |s|) - start else 0
  {
    if start >= |s| || end <= start then [] else s[start..Min(end, |s|)]
  }

  /** Position `k` of a slice is position `start + k` of the sliced list. */
  lemma SliceAt<T>(s: seq<T>, start: nat, end: nat, k: nat)
    requires k < |Slice(s, start, end)|
    ensures start + k < |s| && Slice(s, start, end)[k] == s[start + k]
  {
  }

  /**
   * `Math.min(resultCount, filteredShops.length - shopLoadedCount)`: negative
   * when the count has run past a filtered list that has since shrunk.
   */
  function ResultCount(total: nat, loaded: int): (count: int)
    ensures count <= PageSize
    ensures loaded + count == Min(loaded + PageSize, total)
    ensures loaded <= total ==> count >= 0
  {
    Min(PageSize, total - loaded)
  }

  /**
   * While the count lies within the filtered list, the page is the next
   * window of at most PageSize records, the count equals the page length,
   * and advancing by it stays within the list.
   */
  lemma PageWithinList<T>(filtered: seq<T>, loaded: nat)
    requires loaded <= |filtered|
    ensures Slice(filtered, loaded, loaded + PageSize) == filtered[loaded..Min(loaded + PageSize, |filtered|)]
    ensures ResultCount(|filtered|, loaded) == |Slice(filtered, loaded, loaded + PageSize)| <= PageSize
    ensures loaded + ResultCount(|filtered|, loaded) == Min(loaded + PageSize, |filtered|) <= |filtered|
    ensures ResultCount(|filtered|, loaded) == 0 <==> loaded == |filtered|
  {
  }

  /**
   * Appending the page to the records already shown, when those are the
   * first `loaded` filtered records, shows the first `loaded + ResultCount`
   * records: no gap and no repeat.
   */
  lemma PageExtendsPrefix<T>(filtered: seq<T>, loaded: nat, shown: seq<T>)
    requires loaded <= |filtered| && shown == filtered[..loaded]
    ensures shown + Slice(filtered, loaded, loaded + PageSize)
      == filtered[..loaded + ResultCount(|filtered|, loaded)]
  {
    PageWithinList(filtered, loaded);
    var next := loaded + ResultCount(|filtered|, loaded);
    assert filtered[..next] == filtered[..loaded] + filtered[loaded..next];
  }

  /**
   * When the filtered list shrank below the count, the page is empty, the
   * count is negative and advancing by it moves the count back to the
   * list's length.
   */
  lemma PagePastList<T>(filtered: seq<T>, loaded: nat)
    requires loaded > |filtered|
    ensures Slice(filtered, loaded, loaded + PageSize) == []
    ensures ResultCount(|filtered|, loaded) < 0
    ensures loaded + ResultCount(|filtered|, loaded) == |filtered|
  {
  }

  /**
   * The pages a user sees by loading more from `loaded` until nothing is
   * left, concatenated.
   */
  function Pages<T>(filtered: seq<T>, loaded: nat): seq<T>
    decreases |filtered| - loaded
  {
    if loaded >= |filtered| then []
    else
      Slice(filtered, loaded, loaded + PageSize)
        + Pages(filtered, loaded + ResultCount(|filtered|, loaded))
  }

  /**
   * Pagination is exhaustive and never repeats: the pages from `loaded`
   * on are exactly the rest of the filtered list.
   */
  lemma {:induction false} PagesCoverRest<T>(filtered: seq<T>, loaded: nat)
    requires loaded <= |filtered|
    ensures Pages(filtered, loaded) == filtered[loaded..]
    decreases |filtered| - loaded
  {
    if loaded < |filtered| {
      var next := loaded + ResultCount(|filtered|, loaded);
      PageWithinList(filtered, loaded);
      PagesCoverRest(filtered, next);
      assert filtered[loaded..] == filtered[loaded..next] + filtered[next..];
    }
  }

  /** From a fresh search (count 0), the pages add up to the whole filtered list. */
  lemma PagesCoverAll<T>(filtered: seq<T>)
    ensures Pages(filtered, 0) == filtered
  {
    PagesCoverRest(filtered, 0);
  }
}
