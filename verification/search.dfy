/**
 * The search controller: the module-level state of the widget and the event
 * handlers that change it (keyup with debounce, country change, load more),
 * with `searchShops`, its simulated fetch and `displayShopResults` taken as
 * one atomic step.
 */
module Search {
  import opened Wrappers
  import opened Catalog
  import opened Pagination
  import opened Presentation
  import opened LocaleDetection

  /** Shortest input that starts a new search by itself. */
  const MinQueryLength: nat := 3

  /**
   * The keyup policy: `Some(next)` when a debounced search is (re)scheduled
   * and `currentSearchString` becomes `next`, `None` when nothing happens.
   */
  function ScheduleOnKeyUp(current: string, typed: string): (next: Option<string>)
    ensures next.Some? ==> next.value == "" || |next.value| >= MinQueryLength
    ensures next.Some? && next.value != "" ==> next.value == typed && typed != current
    ensures next.Some? && next.value == "" ==> |typed| < MinQueryLength && current != ""
    ensures next.None? <==>
      (|typed| >= MinQueryLength && typed == current) || (|typed| < MinQueryLength && current == "")
  {
    if current != typed && |typed| >= MinQueryLength then Some(typed)
    else if |typed| < MinQueryLength && current != "" then Some("")
    else None
  }

  /** Releasing a key again on unchanged input never reschedules the search. */
  lemma KeyUpRepeatIsQuiet(current: string, typed: string)
    requires ScheduleOnKeyUp(current, typed).Some?
    ensures ScheduleOnKeyUp(ScheduleOnKeyUp(current, typed).value, typed).None?
  {
  }

  /**
   * Appending the page at `start` to a numbered list of `start` items keeps
   * the list numbered and the count within both lists; when the items were
   * the filtered prefix, they still are.
   */
  lemma PageAppended(before: seq<Card>, start: nat, filtered: seq<Shop>, inSync: bool)
    requires Numbered(before) && start == |before|
    requires inSync ==> start <= |filtered| && ShopsOf(before) == filtered[..start]
    ensures var results := Slice(filtered, start, start + PageSize);
      var count := start + ResultCount(|filtered|, start);
      var after := before + CardsFor(results, start);
      && Numbered(after)
      && 0 <= count <= |after| && count <= |filtered|
      && (count < |filtered| ==> count == |after|)
      && (inSync ==> ShopsOf(after) == filtered[..count])
  {
    var results := Slice(filtered, start, start + PageSize);
    NumberedAppend(before, results);
    ShopsOfAppend(before, CardsFor(results, start));
    ShopsOfCards(results, start);
    if start <= |filtered| {
      PageWithinList(filtered, start);
      if inSync {
        PageExtendsPrefix(filtered, start, ShopsOf(before));
      }
    } else {
      PagePastList(filtered, start);
    }
  }

  class SearchController {
    /** `shopsData`, the external catalogue. */
    const catalog: seq<Shop>

    /** Current value of the `#search` input field. */
    var searchInput: string
    /** Current value of the `#search_country` select. */
    var countrySelect: string

    var queryValue: string
    var queryValueLocale: string
    var currentSearchString: string
    var shopLoadedCount: int
    var isOnPageSearch: bool
    /** A debounced search is scheduled and has not fired (`debounceTimer`). */
    var pending: bool
    /** Display state of `#containerLoadMoreShops`. */
    var loadMoreVisible: bool
    /** The result container holds the no-results message. */
    var emptyState: bool
    /** The items of `#shopResultList`, in order. */
    var cards: seq<Card>

    ghost predicate Valid()
      reads this
    {
      && 0 <= shopLoadedCount <= |cards|
      && Numbered(cards)
      && (loadMoreVisible ==> CanLoadMore())
      && (emptyState ==> cards == [])
      && (currentSearchString == "" || |currentSearchString| >= MinQueryLength)
      && (pending ==> isOnPageSearch)
    }

    /** Every shown item is counted, and a result list (not the message) is shown. */
    ghost predicate CanLoadMore()
      reads this`shopLoadedCount, this`cards, this`emptyState
    {
      shopLoadedCount == |cards| && !emptyState
    }

    /** The filtered list for the query and locale last read. */
    function Filtered(): seq<Shop>
      reads this`queryValue, this`queryValueLocale
    {
      FilterShops(catalog, queryValue, queryValueLocale)
    }

    /** The shown items are exactly the first `shopLoadedCount` filtered records. */
    ghost predicate InSync()
      reads this`queryValue, this`queryValueLocale, this`shopLoadedCount, this`cards
    {
      0 <= shopLoadedCount <= |Filtered()| && ShopsOf(cards) == Filtered()[..shopLoadedCount]
    }

    /** The state right after a fresh search. */
    ghost predicate FirstPageShown()
      reads this
    {
      && InSync()
      && shopLoadedCount == Min(PageSize, |Filtered()|)
      && (emptyState <==> Filtered() == [])
      && (loadMoreVisible <==> PageSize < |Filtered()|)
    }

    /** Page load: locale detection, the initial country, then `searchShops(true)`. */
    constructor (catalog: seq<Shop>, resolvedLocale: string, initialInput: string)
      ensures Valid() && FirstPageShown()
      ensures this.catalog == catalog
      ensures queryValue == "" && queryValueLocale == DetectLocale(resolvedLocale)
      ensures countrySelect == queryValueLocale && searchInput == initialInput
      ensures currentSearchString == "" && !isOnPageSearch && !pending
    {
      this.catalog := catalog;
      searchInput := initialInput;
      queryValue := "";
      queryValueLocale := DetectLocale(resolvedLocale);
      countrySelect := queryValueLocale;
      currentSearchString := "";
      shopLoadedCount := 0;
      isOnPageSearch := false;
      pending := false;
      loadMoreVisible := false;
      emptyState := false;
      cards := [];
      new;
      var _, _ := SearchShops(true);
    }

    /**
     * The bookkeeping of `displayShopResults`: the no-results message on an
     * empty fresh search, otherwise one item per result numbered from the
     * current count, then the count advanced and "load more" shown when
     * records remain. Appending to the no-results message is excluded: there
     * the list element is absent and search.js:193 throws.
     */
    method DisplayShopResults(results: seq<Shop>, resultCount: int, clearShops: bool, totalCount: nat)
      requires clearShops || !emptyState
      modifies this`cards, this`emptyState, this`shopLoadedCount, this`loadMoreVisible
      ensures clearShops && resultCount == 0 ==>
        && cards == [] && emptyState
        && shopLoadedCount == old(shopLoadedCount) && loadMoreVisible == old(loadMoreVisible)
      ensures !(clearShops && resultCount == 0) ==>
        && cards == (if clearShops then [] else old(cards)) + CardsFor(results, old(shopLoadedCount))
        && emptyState == (!clearShops && old(emptyState))
        && shopLoadedCount == old(shopLoadedCount) + resultCount
        && loadMoreVisible == (old(loadMoreVisible) || shopLoadedCount < totalCount)
    {
      if clearShops && resultCount == 0 {
        cards := [];
        emptyState := true;
        return;
      }
      if clearShops {
        cards := [];
        emptyState := false;
      }
      AppendCards(results, shopLoadedCount);
      shopLoadedCount := shopLoadedCount + resultCount;
      if shopLoadedCount < totalCount {
        loadMoreVisible := true;
      }
    }

    /** The rendering loop of `displayShopResults`: one item per result, numbered from `start`. */
    method AppendCards(results: seq<Shop>, start: int)
      modifies this`cards
      ensures cards == old(cards) + CardsFor(results, start)
    {
      ghost var page := CardsFor(results, start);
      var i := 0;
      while i < |results|
        invariant 0 <= i <= |results|
        invariant cards == old(cards) + page[..i]
      {
        CardsForStep(results, start, i);
        cards := cards + [MakeCard(results[i], i + start)];
        i := i + 1;
      }
      assert page[..i] == page;
    }

    /**
     * `searchShops(clearShops)`: re-read the inputs when an on-page search
     * has happened, hide "load more", reset the list and the count on a
     * fresh search, then run the fetch callback.
     */
    method SearchShops(clearShops: bool) returns (results: seq<Shop>, resultCount: int)
      requires Valid()
      requires clearShops || CanLoadMore()
      modifies this`queryValue, this`queryValueLocale, this`loadMoreVisible
      modifies this`cards, this`emptyState, this`shopLoadedCount
      ensures Valid()
      ensures queryValue == (if old(isOnPageSearch) then old(searchInput) else old(queryValue))
      ensures queryValueLocale == (if old(isOnPageSearch) then old(countrySelect) else old(queryValueLocale))
      ensures var start := if clearShops then 0 else old(shopLoadedCount);
        && resultCount == ResultCount(|Filtered()|, start)
        && results == Slice(Filtered(), start, start + PageSize)
      ensures clearShops && resultCount == 0 ==>
        emptyState && cards == [] && shopLoadedCount == 0 && !loadMoreVisible
      ensures !(clearShops && resultCount == 0) ==>
        var start := if clearShops then 0 else old(shopLoadedCount);
        && !emptyState
        && cards == (if clearShops then [] else old(cards)) + CardsFor(results, start)
        && shopLoadedCount == start + resultCount
      ensures shopLoadedCount <= |Filtered()| && (loadMoreVisible <==> shopLoadedCount < |Filtered()|)
      ensures (clearShops || (old(InSync())
        && queryValue == old(queryValue) && queryValueLocale == old(queryValueLocale))) ==> InSync()
    {
      if isOnPageSearch {
        queryValue := searchInput;
        queryValueLocale := countrySelect;
      }
      loadMoreVisible := false;
      if clearShops {
        cards := [];
        emptyState := false;
        shopLoadedCount := 0;
      }
      results, resultCount := FetchCallback(clearShops);
    }

    /**
     * The 200 ms callback of `searchShops`: recompute the filter (it is not
     * cached), take the page at the current count and display it.
     */
    method FetchCallback(clearShops: bool) returns (results: seq<Shop>, resultCount: int)
      requires Valid() && CanLoadMore() && !loadMoreVisible
      requires clearShops ==> shopLoadedCount == 0
      modifies this`cards, this`emptyState, this`shopLoadedCount, this`loadMoreVisible
      ensures Valid()
      ensures resultCount == ResultCount(|Filtered()|, old(shopLoadedCount))
      ensures results == Slice(Filtered(), old(shopLoadedCount), old(shopLoadedCount) + PageSize)
      ensures clearShops && resultCount == 0 ==>
        emptyState && cards == [] && shopLoadedCount == 0 && !loadMoreVisible
      ensures !(clearShops && resultCount == 0) ==>
        && !emptyState
        && cards == (if clearShops then [] else old(cards)) + CardsFor(results, old(shopLoadedCount))
        && shopLoadedCount == old(shopLoadedCount) + resultCount
      ensures shopLoadedCount <= |Filtered()| && (loadMoreVisible <==> shopLoadedCount < |Filtered()|)
      ensures old(InSync()) ==> InSync()
    {
      var filtered := FilterShops(catalog, queryValue, queryValueLocale);
      var start: nat := shopLoadedCount;
      resultCount := ResultCount(|filtered|, start);
      results := Slice(filtered, start, start + PageSize);
      ghost var before := cards;
      ghost var wasInSync := InSync();
      PageAppended(before, start, filtered, wasInSync);
      DisplayShopResults(results, resultCount, clearShops, |filtered|);
    }

    /**
     * The keyup handler: applies the keyup policy to the field's new value;
     * when it schedules a search, any pending one is replaced.
     */
    method KeyUp(value: string)
      requires Valid()
      modifies this`searchInput, this`currentSearchString, this`isOnPageSearch, this`pending
      ensures Valid()
      ensures searchInput == value
      ensures match ScheduleOnKeyUp(old(currentSearchString), value)
        case Some(next) => currentSearchString == next && isOnPageSearch && pending
        case None =>
          && currentSearchString == old(currentSearchString)
          && isOnPageSearch == old(isOnPageSearch) && pending == old(pending)
    {
      searchInput := value;
      var searchString := searchInput;
      if currentSearchString != searchString && |searchString| >= MinQueryLength {
        currentSearchString := searchString;
        isOnPageSearch := true;
        pending := true;
      } else if |searchString| < MinQueryLength && currentSearchString != "" {
        currentSearchString := "";
        isOnPageSearch := true;
        pending := true;
      }
    }

    /**
     * The debounce timer fires: a fresh search with whatever the input field
     * holds now, which may be shorter than MinQueryLength.
     */
    method DebounceElapsed()
      requires Valid() && pending
      modifies this`pending, this`queryValue, this`queryValueLocale, this`loadMoreVisible
      modifies this`cards, this`emptyState, this`shopLoadedCount
      ensures Valid() && FirstPageShown() && !pending
      ensures queryValue == old(searchInput) && queryValueLocale == old(countrySelect)
      ensures searchInput == old(searchInput) && countrySelect == old(countrySelect)
      ensures currentSearchString == old(currentSearchString) && isOnPageSearch
    {
      pending := false;
      var _, _ := SearchShops(true);
    }

    /** The country select changes: an immediate fresh search; a pending search stays scheduled. */
    method CountryChange(code: string)
      requires Valid()
      modifies this`countrySelect, this`isOnPageSearch, this`queryValue, this`queryValueLocale
      modifies this`loadMoreVisible, this`cards, this`emptyState, this`shopLoadedCount
      ensures Valid() && FirstPageShown()
      ensures countrySelect == code && queryValueLocale == code && queryValue == old(searchInput)
      ensures searchInput == old(searchInput)
      ensures currentSearchString == old(currentSearchString) && isOnPageSearch && pending == old(pending)
    {
      countrySelect := code;
      isOnPageSearch := true;
      var _, _ := SearchShops(true);
    }

    /**
     * "Load more" is clicked (it can be only while shown): hide it and
     * append the next page. With unchanged query and locale the shown items
     * stay the filtered list's prefix; when the inputs changed since, the
     * filtered list may have shrunk and the count then falls back to its length.
     */
    method LoadMoreClick()
      requires Valid() && loadMoreVisible
      modifies this`queryValue, this`queryValueLocale, this`loadMoreVisible
      modifies this`cards, this`emptyState, this`shopLoadedCount
      ensures Valid() && !emptyState
      ensures queryValue == (if isOnPageSearch then searchInput else old(queryValue))
      ensures queryValueLocale == (if isOnPageSearch then countrySelect else old(queryValueLocale))
      ensures var start := old(shopLoadedCount);
        && cards == old(cards) + CardsFor(Slice(Filtered(), start, start + PageSize), start)
        && shopLoadedCount == start + ResultCount(|Filtered()|, start)
        && (loadMoreVisible <==> shopLoadedCount < |Filtered()|)
      ensures shopLoadedCount <= |Filtered()|
      ensures old(InSync()) && queryValue == old(queryValue) && queryValueLocale == old(queryValueLocale)
        ==> InSync()
      ensures InSync() && !loadMoreVisible ==> ShopsOf(cards) == Filtered()
    {
      loadMoreVisible := false;
      var _, _ := SearchShops(false);
    }
  }

  /**
   * Before any on-page search the inputs are never re-read, so loading more
   * twice after page load keeps the shown items the filtered prefix, and
   * once "load more" disappears the whole filtered list is shown.
   */
  method RepeatedLoadMore(catalog: seq<Shop>, resolvedLocale: string)
  {
    var controller := new SearchController(catalog, resolvedLocale, "");
    ghost var filtered := controller.Filtered();
    if controller.loadMoreVisible {
      controller.LoadMoreClick();
      assert controller.InSync() && controller.Filtered() == filtered;
      if controller.loadMoreVisible {
        controller.LoadMoreClick();
        assert controller.InSync() && controller.Filtered() == filtered;
      }
    }
    if !controller.loadMoreVisible {
      assert ShopsOf(controller.cards) == filtered;
    }
  }

  /**
   * Shrinking the input from three characters to two schedules a search
   * that resets `currentSearchString` yet filters with the two characters
   * still in the field.
   */
  method ShortInputScenario(catalog: seq<Shop>, resolvedLocale: string)
  {
    var controller := new SearchController(catalog, resolvedLocale, "");
    controller.KeyUp("abc");
    assert controller.pending && controller.currentSearchString == "abc";
    controller.DebounceElapsed();
    assert controller.queryValue == "abc";
    controller.KeyUp("ab");
    assert controller.pending && controller.currentSearchString == "";
    controller.DebounceElapsed();
    assert controller.queryValue == "ab" && controller.currentSearchString == "";
    controller.KeyUp("a");
    assert !controller.pending;
  }
}
