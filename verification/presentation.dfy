/**
 * What `displayShopResults` computes for each shop before it builds the
 * list item's markup: the item id, whether a logo image is shown, and the
 * shortened description.
 */
module Presentation {
  import opened Wrappers
  import opened Text
  import opened Catalog
  import opened Pagination

  /** Number of description characters kept before the ellipsis. */
  const DescriptionLimit: nat := 140

  /**
   * `description.length > 1 ? description.substr(0, 140) + '...' : ''`:
   * nothing for a description of at most one character, otherwise its
   * first (at most 140) characters followed by an ellipsis.
   */
  function ShortDesc(description: string): (r: string)
    ensures |description| <= 1 ==> r == ""
    ensures |description| > 1 ==>
      && |r| == Min(DescriptionLimit, |description|) + 3
      && r[..|r| - 3] <= description
      && r[|r| - 3..] == "..."
    ensures 1 < |description| <= DescriptionLimit ==> r == description + "..."
  {
    if |description| > 1 then
      description[..Min(DescriptionLimit, |description|)] + "..."
    else
      ""
  }

  /**
   * `shop.imageUrl && shop.imageUrl.indexOf('no_image') === -1`: a logo is
   * shown exactly when the URL is present and does not mention "no_image".
   */
  function HasImage(imageUrl: string): (present: bool)
    ensures present <==> imageUrl != "" && !Contains(imageUrl, "no_image")
  {
    |imageUrl| > 0 && IndexOf(imageUrl, "no_image") == -1
  }

  /**
   * A rendered list item: its `shop-id`, the shop, the logo URL when a logo
   * is shown (otherwise the name is shown as a heading), and the short description.
   */
  datatype Card = Card(id: int, shop: Shop, logo: Option<string>, shortDesc: string)

  /**
   * The item for one shop: the logo is shown, with the record's own URL,
   * exactly when the URL is present and does not mention "no_image".
   */
  function MakeCard(shop: Shop, id: int): (card: Card)
    ensures card.id == id && card.shop == shop
    ensures card.logo.Some? <==> shop.imageUrl != "" && !Contains(shop.imageUrl, "no_image")
    ensures card.logo.Some? ==> card.logo.value == shop.imageUrl
    ensures |shop.description| <= 1 <==> card.shortDesc == ""
  {
    Card(id, shop, if HasImage(shop.imageUrl) then Some(shop.imageUrl) else None, ShortDesc(shop.description))
  }

  /** The items for one page, numbered from `start`. */
  function CardsFor(results: seq<Shop>, start: int): (cards: seq<Card>)
    ensures |cards| == |results|
    ensures forall i :: 0 <= i < |cards| ==> cards[i].shop == results[i] && cards[i].id == start + i
  {
    seq(|results|, i requires 0 <= i < |results| => MakeCard(results[i], start + i))
  }

  /** The items for the first `i + 1` results extend those for the first `i` by one. */
  lemma CardsForStep(results: seq<Shop>, start: int, i: nat)
    requires i < |results|
    ensures CardsFor(results, start)[..i + 1] == CardsFor(results, start)[..i] + [MakeCard(results[i], i + start)]
  {
  }

  /** Each item carries its own position as its id. */
  ghost predicate Numbered(cards: seq<Card>) {
    forall k :: 0 <= k < |cards| ==> cards[k] == MakeCard(cards[k].shop, k)
  }

  lemma NumberedAppend(cards: seq<Card>, results: seq<Shop>)
    requires Numbered(cards)
    ensures Numbered(cards + CardsFor(results, |cards|))
  {
  }

  ghost function ShopsOf(cards: seq<Card>): seq<Shop> {
    seq(|cards|, k requires 0 <= k < |cards| => cards[k].shop)
  }

  lemma ShopsOfAppend(a: seq<Card>, b: seq<Card>)
    ensures ShopsOf(a + b) == ShopsOf(a) + ShopsOf(b)
  {
  }

  lemma ShopsOfCards(results: seq<Shop>, start: int)
    ensures ShopsOf(CardsFor(results, start)) == results
  {
  }
}
