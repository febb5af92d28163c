# Shop search widget: a verified Dafny model

This project models the core of the client-side shop search widget in
`search.js`. The widget filters a catalogue of shop records by a free-text
query and a country code. It shows the matches 70 at a time, with a "load
more" button, and it debounces keystrokes before searching.

The model has four parts:

- **Filter engine** (`Catalog`). `filterShops` is a stable filter. A record
  passes the country predicate when the locale is `"ALL"`, when the locale is
  among the record's countries, or when `"ALL"` is among them. It passes the
  query predicate when the query is empty, or when the lower-cased query
  occurs in the lower-cased name, domain or description. Lower-casing is ASCII
  lower-casing (`Text.Lower`). Substring search is modelled as
  `indexOf`/`includes` (`Text.IndexOf`, `Text.Includes`).
- **Pagination cursor** (`Pagination`). The page is
  `filtered.slice(count, count + 70)`. Its signed count is
  `min(70, filtered.length - count)`. Both are stated for every count,
  including a count past the end of a filtered list that has shrunk.
- **Search controller** (`Search.SearchController`). This class holds the
  module variables of the widget: `shopLoadedCount`, `queryValue`,
  `queryValueLocale`, `currentSearchString` and `isOnPageSearch`. It also
  holds:
  - the values of the input field and the country select;
  - a flag for a pending debounced search (the debounce timer);
  - the display state of "load more";
  - whether the no-results message is shown;
  - the rendered items in order (`cards`).

  Its methods are the page-load initialisation, the keyup, country-change and
  load-more handlers, and `searchShops`. The 200 ms callback of `searchShops`
  is its own method, `FetchCallback`, and it runs `displayShopResults`.
- **Helpers** (`LocaleDetection`, `Presentation`). These cover the
  locale-to-country mapping, the short description and the logo predicate.
  `Presentation.Card` records what each list item shows: its `shop-id`, the
  shop, the logo URL when a logo is shown, and the short description.

The main proved results are these:

- The filter returns exactly the matching records. It keeps their multiplicity
  and their catalogue order (`FilterKeepsExactlyMatches`,
  `FilterIsStableSelection`).
- Pages never leave a gap and never repeat a record. The concatenated pages
  are the whole filtered list (`PagesCoverRest`).
- At the class level, the rendered items are numbered `0, 1, 2, …`
  (`Valid`). A fresh search shows the first page (`FirstPageShown`). A
  load-more with unchanged query and locale keeps the rendered items equal to
  the filtered list's prefix (`InSync`). When "load more" is hidden in that
  case, every filtered record is shown. `Search.RepeatedLoadMore` chains two load-mores
  after page load and keeps this.
- `currentSearchString` is always `""` or at least 3 characters long.

Model functions are deterministic by construction. So running the filter
twice on the same inputs gives the same list.

Three behaviours of the code are worth knowing, and the model keeps them:

- **Short input.** When the input shrinks to one or two characters after a
  search, the scheduled search does not show the list filtered by country
  only. `currentSearchString` is reset to `""`, but `searchShops` reads the
  raw field (search.js:100). The search therefore filters by the 1–2
  characters still typed. `Search.ShortInputScenario` walks through this.
  When the input shrinks straight to an empty field, the scheduled search
  reads `""`, every record passes the query test (search.js:138), and the
  list filtered by country only comes back.
- **Load more.** Load-more does not reuse the filtered list it paged before.
  `searchShops(false)` recomputes the filter (search.js:117). Once any
  handler has set `isOnPageSearch`, it also re-reads the input and the select
  (search.js:99-101). The filtered list can then be shorter than
  `shopLoadedCount`. In that case `resultCount` is negative, the page is
  empty, and `shopLoadedCount` falls back to the list's length
  (`PagePastList`). The only invariant for every count is
  `shopLoadedCount <= |Filtered()|` after each search.
- **Record fields.** Missing record fields are not tolerated.
  `toLowerCase` and `.length` would throw on a missing description. So the
  model takes every field as a string. `imageUrl` is `""` for every falsy
  value.

## Model

| member | source | states |
|---|---|---|
| Text.IndexOf | search.js:140-142 | The result is -1 exactly when `sub` does not occur in `s`. Otherwise it is a position where `sub` occurs, and no earlier position has an occurrence. |
| Text.Includes | search.js:18-24 | `includes` holds exactly when the substring occurs. |
| Text.Lower | search.js:139-142 | Lower-casing keeps the length; each character is kept or, if an upper-case ASCII letter, replaced by its lower-case letter; no upper-case letter remains. |
| Text.LowerIdempotent | search.js:16 | Lower-casing an already lower-cased string changes nothing. |
| Catalog.QueryMatch | search.js:136-143 | The query predicate holds iff the query is empty, or the lower-cased query occurs in the lower-cased name, domain or description. |
| Catalog.CountryMatch | search.js:132-134 | The locale `"ALL"` always matches, a record listing `"ALL"` always matches, and otherwise a record matches iff its countries list the locale. |
| Catalog.Matches | search.js:145 | A kept record satisfies both predicates; with the empty query only the country predicate decides, and with locale `"ALL"` only the query predicate decides. |
| Catalog.FilterShops | search.js:129-147 | The filtered list is never longer than the catalogue. |
| Catalog.FilterKeepsExactlyMatches | search.js:129-147 | A record is in the result iff it is in the catalogue and matches both predicates. Each kept record occurs as often as in the catalogue, and each non-matching record occurs zero times. |
| Catalog.KeptIndices | search.js:130-146 | The positions of the matching records are strictly increasing, all in range and all matching. They include every matching position. |
| Catalog.FilterIsStableSelection | search.js:129-147 | The filter result equals the catalogue read at the increasing positions of its matching records, so the filter preserves order. |
| Catalog.FilterConcat | search.js:130 | Filtering a concatenation is the concatenation of the filtered parts. |
| Catalog.FilterUnfiltered | search.js:132-138 | The empty query with locale `"ALL"` returns the whole catalogue unchanged. |
| Catalog.WildcardRecordAlwaysKept | search.js:132-134 | A record whose countries contain `"ALL"` is kept for every locale when its query matches. |
| Catalog.TwoShopExample | search.js:129-147 | Take a US-only "GreenLeaf" and an "EcoTree" sold in FR and ALL. The empty query with "FR" keeps only EcoTree. The query "green" with "ALL" keeps only GreenLeaf. |
| Pagination.Slice | search.js:120 | The page length is `min(end, n) - start` when `start < end` and `start < n`, and 0 otherwise. |
| Pagination.ResultCount | search.js:119 | `resultCount` is at most 70, non-negative while the count is within the list, and advancing the count by it lands on `min(count + 70, n)`. |
| Pagination.SliceAt | search.js:120 | Position `k` of the page is position `start + k` of the filtered list. |
| Pagination.PageWithinList | search.js:119-120 | Suppose `count <= n`. Then the page is `filtered[count..min(count+70, n)]`, `resultCount` equals its length and is at most 70, and `count + resultCount <= n`. Also `resultCount == 0` iff `count == n`. |
| Pagination.PagePastList | search.js:119-120 | Suppose `count > n`. Then the page is empty, `resultCount` is negative, and `count + resultCount == n`. |
| Pagination.PageExtendsPrefix | search.js:119-120 | Suppose the shown records are the first `count` filtered records. After the page is appended, they are the first `count + resultCount`. |
| Pagination.PagesCoverRest | search.js:116-123 | Suppose `count <= n`. Then the pages from `count` until exhaustion, concatenated, equal `filtered[count..]`, with no gap and no repeat. |
| Pagination.PagesCoverAll | search.js:116-123 | Starting from a fresh search, the concatenated pages equal the whole filtered list. |
| Presentation.ShortDesc | search.js:187 | A description of length at most 1 gives `""`. Otherwise the result is a prefix of the description of length `min(140, len)`, followed by `"..."`. A description of 2 to 140 characters is kept whole. |
| Presentation.HasImage | search.js:181 | A logo is shown iff the URL is non-empty and does not contain `"no_image"`. |
| Presentation.MakeCard | search.js:173-187 | The item carries the given id and shop; it shows the record's own URL as a logo exactly when the URL is present and lacks `"no_image"`; its short description is empty iff the description has at most one character. |
| Presentation.CardsFor | search.js:171-173 | One item per result, in order, with ids `start, start + 1, …`. |
| Presentation.NumberedAppend | search.js:171-173 | Appending a page's items with ids `i + count`, where count is the number of items already shown, keeps every item's id equal to its position. |
| LocaleDetection.DetectLocale | search.js:15-28 | The detected locale is always one of US/GB/FR/DE. It is decided by the first of "us", "gb", "fr", "de" found in the lower-cased locale string. US is the fallback. |
| LocaleDetection.DetectLocaleIgnoresCase | search.js:16 | Detection gives the same code for a locale string and for its lower-cased form. |
| Search.ScheduleOnKeyUp | search.js:51-66 | A search is scheduled only for a new input of at least 3 characters, which becomes `currentSearchString`. It is also scheduled for an input shorter than 3 characters while `currentSearchString` is non-empty, which then becomes `""`. The new value is always `""` or at least 3 characters long. |
| Search.KeyUpRepeatIsQuiet | search.js:51-66 | A second keyup with the same field value schedules nothing. |
| Search.PageAppended | search.js:171-201 | Appending the page keeps items numbered by position. The count stays between 0 and the number of items, and at most the filtered length. When the count is below the filtered length it equals the number of items. A prefix-of-filtered list stays one. |
| Search.SearchController.constructor | search.js:7-44 | Page load detects the locale, sets the country select to it, and runs a fresh search with the empty query. The state afterwards is the first page of the filtered list. |
| Search.SearchController.DisplayShopResults | search.js:150-201 | It is not called to append to the no-results message, where search.js:193 throws. A fresh search with `resultCount == 0` shows the no-results message and leaves the count and "load more" as they were. Otherwise it appends one item per result with id `i + count`. The count is advanced by `resultCount`, and "load more" is shown when the count is below the total. |
| Search.SearchController.AppendCards | search.js:171-194 | The loop appends one item per result, in order, with ids `start, start + 1, …`, and leaves the items already shown unchanged. |
| Search.SearchController.SearchShops | search.js:95-126 | The inputs are re-read iff `isOnPageSearch`. A fresh search resets the count to 0, and load-more keeps it. The page and `resultCount` are those of the recomputed filter at that count. Afterwards `shopLoadedCount <= total`, and "load more" is visible iff `shopLoadedCount < total`. The rendered items stay the filtered prefix after a fresh search, and after a load-more with unchanged query and locale. |
| Search.SearchController.FetchCallback | search.js:116-123 | The filter is recomputed and the page at the count is displayed. The empty-result branch leaves the count at 0. Every other branch advances the count by `resultCount`. |
| Search.SearchController.KeyUp | search.js:48-67 | The field value is stored. State changes and a search is (re)scheduled exactly as `ScheduleOnKeyUp` decides. Otherwise nothing changes. |
| Search.SearchController.DebounceElapsed | search.js:56-58 | The pending search runs as a fresh search on the current field and select values. |
| Search.SearchController.CountryChange | search.js:70-73 | An immediate fresh search on the new country and the current field. A pending debounced search stays scheduled. |
| Search.SearchController.LoadMoreClick | search.js:76-81 | Only the query, locale, count, items and display flags may change; the query and locale are re-read from the inputs iff `isOnPageSearch`. The next page of the recomputed filter is appended at the old count. The count stays at most the filtered length, and "load more" is shown iff records remain. With unchanged query and locale the items remain the filtered prefix, and once "load more" is hidden every filtered record is shown. |

## Left out

- DOM access and markup: the `<li>` HTML, the placeholder items and the
  no-results text are not modelled. Each item is a `Card` value, and the
  message is the `emptyState` flag.
- The loading indicator is not modelled, because it is hidden again before
  every search completes when a search runs as one step.
- Hover behaviour (`initShopBehaviour`) is left out because it is pure UI.
- `Intl.DateTimeFormat().resolvedOptions().locale` is a foreign call. The
  resolved locale string is a constructor parameter.
- Timers are left out: the 500 ms debounce is a pending flag, and the 200 ms
  fetch delay runs at once. So the race where two overlapping fetch
  callbacks interleave their writes is not modelled.
- `shopsData` is external. It is the constructor's `catalog` parameter.
- Lower-casing is ASCII only: full Unicode `toLowerCase` and UTF-16 code-unit
  lengths are not modelled.
- Search.SearchController.LoadMoreClick: requires the button to be visible.
  A hidden button receives no click, so the path where a load-more appends
  to the no-results message (and search.js throws) is not modelled.
- Search.SearchController.SearchShops: requires the item count to equal
  `shopLoadedCount` for a load-more, which holds whenever "load more" is
  visible. The load-more handler is its only caller with `false`.
