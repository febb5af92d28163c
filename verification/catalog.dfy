/**
 * The shop catalogue and the filter engine (`filterShops`): a stable filter
 * that keeps the records matching both the country predicate and the
 * case-insensitive query predicate.
 */
module Catalog {
  import opened Text

  /**
   * One catalogue record. `imageUrl` is "" for every falsy value
   * search.js can meet (absent, null or empty).
   */
  datatype Shop = Shop(
    shopName: string,
    domain: string,
    description: string,
    imageUrl: string,
    countries: seq<string>)

  /** The locale code and the country entry that stand for every country. */
  const AllCountries: string := "ALL"

  /**
   * The country predicate: the "ALL" locale and a record sold everywhere
   * always match; otherwise the record must list the locale.
   */
  function CountryMatch(shop: Shop, locale: string): (matched: bool)
    ensures locale == AllCountries ==> matched
    ensures AllCountries in shop.countries ==> matched
    ensures locale != AllCountries && AllCountries !in shop.countries ==>
      (matched <==> exists k :: 0 <= k < |shop.countries| && shop.countries[k] == locale)
  {
    locale == AllCountries || locale in shop.countries || AllCountries in shop.countries
  }

  /**
   * An empty query accepts every record; otherwise the lower-cased query
   * must occur in the lower-cased name, domain or description.
   */
  function QueryMatch(shop: Shop, query: string): (matched: bool)
    ensures matched <==>
      || query == []
      || Contains(Lower(shop.shopName), Lower(query))
      || Contains(Lower(shop.domain), Lower(query))
      || Contains(Lower(shop.description), Lower(query))
  {
    if |query| >= 1 then
      var lowerQuery := Lower(query);
      || IndexOf(Lower(shop.shopName), lowerQuery) != -1
      || IndexOf(Lower(shop.domain), lowerQuery) != -1
      || IndexOf(Lower(shop.description), lowerQuery) != -1
    else
      true
  }

  /**
   * A record is kept when both predicates hold: the empty query leaves only
   * the country filter, and the "ALL" locale leaves only the query filter.
   */
  function Matches(shop: Shop, query: string, locale: string): (kept: bool)
    ensures query == [] ==> (kept <==> CountryMatch(shop, locale))
    ensures locale == AllCountries ==> (kept <==> QueryMatch(shop, query))
    ensures kept ==> CountryMatch(shop, locale) && QueryMatch(shop, query)
  {
    CountryMatch(shop, locale) && QueryMatch(shop, query)
  }

  /** `shopsData.filter(...)`, keeping the records that match in their catalogue order. */
  function FilterShops(catalog: seq<Shop>, query: string, locale: string): (r: seq<Shop>)
    ensures |r| <= |catalog|
  {
    if catalog == [] then []
    else
      var rest := FilterShops(catalog[1..], query, locale);
      if Matches(catalog[0], query, locale) then [catalog[0]] + rest else rest
  }

  /**
   * The filter keeps the records that match, each as often as it occurs in
   * the catalogue, and nothing else.
   */
  lemma {:induction false} FilterKeepsExactlyMatches(catalog: seq<Shop>, query: string, locale: string)
    ensures var r := FilterShops(catalog, query, locale);
      && (forall x :: x in r <==> x in catalog && Matches(x, query, locale))
      && (forall x :: multiset(r)[x] == if Matches(x, query, locale) then multiset(catalog)[x] else 0)
  {
    if catalog != [] {
      FilterKeepsExactlyMatches(catalog[1..], query, locale);
      assert catalog == [catalog[0]] + catalog[1..];
    }
  }

  /** Filtering a concatenation filters each part. */
  lemma {:induction false} FilterConcat(a: seq<Shop>, b: seq<Shop>, query: string, locale: string)
    ensures FilterShops(a + b, query, locale) == FilterShops(a, query, locale) + FilterShops(b, query, locale)
  {
    if a == [] {
      assert a + b == b;
    } else {
      assert (a + b)[0] == a[0];
      assert (a + b)[1..] == a[1..] + b;
      FilterConcat(a[1..], b, query, locale);
    }
  }

  /**
   * The positions of the matching records, in increasing order: an
   * independent description of what a stable filter keeps.
   */
  ghost function KeptIndices(catalog: seq<Shop>, query: string, locale: string): (idx: seq<nat>)
    ensures forall k :: 0 <= k < |idx| ==> idx[k] < |catalog| && Matches(catalog[idx[k]], query, locale)
    ensures forall k, k' :: 0 <= k < k' < |idx| ==> idx[k] < idx[k']
    ensures forall i :: 0 <= i < |catalog| && Matches(catalog[i], query, locale) ==> i in idx
  {
    if catalog == [] then []
    else
      var n := |catalog| - 1;
      var front := KeptIndices(catalog[..n], query, locale);
      assert forall k :: 0 <= k < |front| ==> catalog[..n][front[k]] == catalog[front[k]];
      if Matches(catalog[n], query, locale) then front + [n] else front
  }

  /** The records of `catalog` at the positions `idx`, in that order. */
  ghost function Select(catalog: seq<Shop>, idx: seq<nat>): seq<Shop>
    requires forall k :: 0 <= k < |idx| ==> idx[k] < |catalog|
  {
    seq(|idx|, k requires 0 <= k < |idx| => catalog[idx[k]])
  }

  lemma SelectOfPrefix(catalog: seq<Shop>, n: nat, idx: seq<nat>)
    requires n <= |catalog|
    requires forall k :: 0 <= k < |idx| ==> idx[k] < n
    ensures Select(catalog[..n], idx) == Select(catalog, idx)
  {
  }

  lemma SelectSnoc(catalog: seq<Shop>, idx: seq<nat>, n: nat)
    requires n < |catalog|
    requires forall k :: 0 <= k < |idx| ==> idx[k] < |catalog|
    ensures Select(catalog, idx + [n]) == Select(catalog, idx) + [catalog[n]]
  {
  }

  /**
   * The filter is order-preserving: its result is exactly the catalogue
   * read at the increasing positions of the matching records.
   */
  lemma {:induction false} FilterIsStableSelection(catalog: seq<Shop>, query: string, locale: string)
    ensures FilterShops(catalog, query, locale) == Select(catalog, KeptIndices(catalog, query, locale))
  {
    if catalog != [] {
      var n := |catalog| - 1;
      var last := catalog[n];
      var front := KeptIndices(catalog[..n], query, locale);
      FilterIsStableSelection(catalog[..n], query, locale);
      assert catalog == catalog[..n] + [last];
      FilterConcat(catalog[..n], [last], query, locale);
      assert [last][1..] == [];
      SelectOfPrefix(catalog, n, front);
      if Matches(last, query, locale) {
        SelectSnoc(catalog, front, n);
      }
    }
  }

  /** The empty query with the "ALL" locale is the unfiltered view. */
  lemma {:induction false} FilterUnfiltered(catalog: seq<Shop>)
    ensures FilterShops(catalog, "", AllCountries) == catalog
  {
    if catalog != [] {
      FilterUnfiltered(catalog[1..]);
      assert catalog == [catalog[0]] + catalog[1..];
    }
  }

  /** A record whose countries hold "ALL" is kept for every locale whenever its query matches. */
  lemma WildcardRecordAlwaysKept(catalog: seq<Shop>, query: string, locale: string, i: nat)
    requires i < |catalog| && AllCountries in catalog[i].countries && QueryMatch(catalog[i], query)
    ensures catalog[i] in FilterShops(catalog, query, locale)
  {
    FilterKeepsExactlyMatches(catalog, query, locale);
  }

  /**
   * Two records: one sold in the US only, one in France and everywhere.
   * The empty query with locale "FR" keeps the second only; the query
   * "green" with locale "ALL" keeps the first only, matched in its name
   * whatever the case.
   */
  lemma TwoShopExample()
    ensures var greenLeaf := Shop("GreenLeaf", "greenleaf.io", "", "", ["US"]);
      var ecoTree := Shop("EcoTree", "ecotree.fr", "", "", ["FR", "ALL"]);
      && FilterShops([greenLeaf, ecoTree], "", "FR") == [ecoTree]
      && FilterShops([greenLeaf, ecoTree], "green", AllCountries) == [greenLeaf]
  {
    var greenLeaf := Shop("GreenLeaf", "greenleaf.io", "", "", ["US"]);
    var ecoTree := Shop("EcoTree", "ecotree.fr", "", "", ["FR", "ALL"]);
    assert OccursAt(Lower("GreenLeaf"), Lower("green"), 0);
    assert Lower("EcoTree") == "ecotree" && Lower("ecotree.fr") == "ecotree.fr" && Lower("green") == "green";
    MissingFirstChar("ecotree", "green");
    MissingFirstChar("ecotree.fr", "green");
    MissingFirstChar("", "green");
  }
}
