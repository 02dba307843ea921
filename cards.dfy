/**
 * The card records handed to the extractors by the card API client.
 * Every nested object and every list may be absent; only the identifier is
 * always present. Price amounts are opaque values that the pipeline copies
 * and never computes on.
 */
module Cards {
  import opened Wrappers

  /** A price amount as delivered by the API (a float); never inspected. */
  datatype Amount = Amount(raw: real)

  datatype CardImages = CardImages(small: Option<string>, large: Option<string>)

  datatype Legalities = Legalities(
    unlimited: Option<string>,
    expanded: Option<string>,
    standard: Option<string>)

  datatype SetImages = SetImages(symbol: Option<string>, logo: Option<string>)

  /** The expansion a card was printed in (`card.set`). */
  datatype CardSet = CardSet(
    id: Option<string>,
    name: Option<string>,
    series: Option<string>,
    printedTotal: Option<int>,
    total: Option<int>,
    releaseDate: Option<string>,
    updatedAt: Option<string>,
    legalities: Option<Legalities>,
    images: Option<SetImages>)

  datatype AncientTrait = AncientTrait(name: Option<string>, text: Option<string>)

  datatype Ability = Ability(name: Option<string>, text: Option<string>, kind: Option<string>)

  /** An attack; `cost` is a list of energy names that the extractor joins. */
  datatype Attack = Attack(
    name: Option<string>,
    cost: Option<seq<string>>,
    convertedEnergyCost: Option<int>,
    damage: Option<string>,
    text: Option<string>)

  /** A resistance or a weakness: an energy type and a modifier. */
  datatype Modifier = Modifier(kind: Option<string>, value: Option<string>)

  /** The five amounts quoted for one price variant. */
  datatype PriceQuote = PriceQuote(
    low: Option<Amount>,
    mid: Option<Amount>,
    high: Option<Amount>,
    market: Option<Amount>,
    directLow: Option<Amount>)

  /** `card.tcgplayer.prices`: one optional quote per variant. */
  datatype Prices = Prices(
    normal: Option<PriceQuote>,
    holofoil: Option<PriceQuote>,
    reverseHolofoil: Option<PriceQuote>,
    firstEditionHolofoil: Option<PriceQuote>,
    firstEditionNormal: Option<PriceQuote>)

  datatype TcgPlayer = TcgPlayer(prices: Option<Prices>)

  /** One card record. (`set` is a Dafny keyword, so the field is `cardSet`.) */
  datatype Card = Card(
    id: string,
    name: Option<string>,
    hp: Option<string>,
    rarity: Option<string>,
    artist: Option<string>,
    supertype: Option<string>,
    evolvesFrom: Option<string>,
    flavorText: Option<string>,
    convertedRetreatCost: Option<int>,
    regulationMark: Option<string>,
    rules: Option<seq<string>>,
    images: Option<CardImages>,
    cardSet: Option<CardSet>,
    number: Option<string>,
    ancientTrait: Option<AncientTrait>,
    types: Option<seq<string>>,
    subtypes: Option<seq<string>>,
    nationalPokedexNumbers: Option<seq<int>>,
    abilities: Option<seq<Ability>>,
    attacks: Option<seq<Attack>>,
    resistances: Option<seq<Modifier>>,
    weaknesses: Option<seq<Modifier>>,
    tcgplayer: Option<TcgPlayer>)

  /** The identifier of a card, as a function value for keyed table operations. */
  function IdOf(c: Card): string { c.id }

  /** Number of elements of an optional list; an absent list has none. */
  function Size<T>(xs: Option<seq<T>>): nat {
    if xs.Some? then |xs.value| else 0
  }

  /** Python truthiness of an optional list: present and non-empty. */
  predicate NonEmpty<T>(xs: Option<seq<T>>) {
    xs.Some? && |xs.value| > 0
  }

  /** Card identifiers are pairwise distinct. */
  predicate DistinctIds(cards: seq<Card>) {
    forall i, j :: 0 <= i < j < |cards| ==> cards[i].id != cards[j].id
  }
}
