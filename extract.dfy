/**
 * The per-card extractors of get_data.py: one scalar row per card, and zero
 * or more child rows (abilities, attacks, prices, resistances, weaknesses),
 * each child row carrying the owning card's identifier.
 */
module Extract {
  import opened Wrappers
  import opened Cards

  /** Why a run aborts. */
  datatype Error =
      /** `', '.join(attack.cost)` on an attack whose cost list is absent. */
    | AttackCostMissing(cardId: string)
      /** A child table with no rows has no `card_id` column to group or join on. */
    | MissingCardIdColumn(table: string)

  // ---------------------------------------------------------------------
  // Helpers for list-valued fields

  /** The elements of an optional list; an absent list has none. */
  function Items<T>(xs: Option<seq<T>>): (r: seq<T>)
    ensures |r| == Size(xs)
  {
    if xs.Some? then xs.value else []
  }

  /** Total number of characters in `xs`. */
  function TotalLength(xs: seq<string>): nat
  {
    if xs == [] then 0 else TotalLength(xs[..|xs| - 1]) + |xs[|xs| - 1]|
  }

  /** `sep.join(xs)`. */
  function Join(xs: seq<string>, sep: string): (r: string)
    ensures xs == [] ==> r == ""
    ensures |xs| == 1 ==> r == xs[0]
    ensures |xs| > 0 ==> |r| == TotalLength(xs) + |sep| * (|xs| - 1)
  {
    if xs == [] then ""
    else if |xs| == 1 then xs[0]
    else
      var n := |xs| - 1;
      var init := Join(xs[..n], sep);
      assert TotalLength(xs) == TotalLength(xs[..n]) + |xs[n]|;
      assert |sep| * (|xs| - 1) == |sep| * (|xs[..n]| - 1) + |sep|;
      init + sep + xs[n]
  }

  /**
   * Joining two non-empty lists is joining each and putting one separator
   * between them; with the empty and one-element cases this fixes every
   * character of a join.
   */
  lemma {:induction false} JoinAppend(a: seq<string>, b: seq<string>, sep: string)
    requires a != [] && b != []
    ensures Join(a + b, sep) == Join(a, sep) + sep + Join(b, sep)
  {
    var init, last := b[..|b| - 1], b[|b| - 1];
    assert b == init + [last];
    if init == [] {
      JoinSnoc(a, last, sep);
    } else {
      assert a + b == (a + init) + [last];
      calc {
        Join(a + b, sep);
        { JoinSnoc(a + init, last, sep); }
        Join(a + init, sep) + sep + last;
        { JoinAppend(a, init, sep); }
        Join(a, sep) + sep + Join(init, sep) + sep + last;
        { JoinSnoc(init, last, sep); }
        Join(a, sep) + sep + Join(b, sep);
      }
    }
  }

  /** Joining one more element appends the separator and that element. */
  lemma {:induction false} JoinSnoc(xs: seq<string>, x: string, sep: string)
    requires xs != []
    ensures Join(xs + [x], sep) == Join(xs, sep) + sep + x
  {
    assert (xs + [x])[..|xs|] == xs;
  }

  /** Element `k` of an optional list when the list is long enough, else absent. */
  function Slot<T>(xs: Option<seq<T>>, k: nat): Option<T>
  {
    if xs.Some? && |xs.value| > k then Some(xs.value[k]) else None
  }

  // ---------------------------------------------------------------------
  // extract_basic_card_data

  /** Every column of the scalar row except `card_id`, in column order. */
  datatype CardFields = CardFields(
    name: Option<string>,
    hp: Option<string>,
    rarity: Option<string>,
    artist: Option<string>,
    supertype: Option<string>,
    evolvesFrom: Option<string>,
    flavorText: Option<string>,
    convertedRetreatCost: Option<int>,
    regulationMark: Option<string>,
    rules: Option<string>,
    imageSmall: Option<string>,
    imageLarge: Option<string>,
    setId: Option<string>,
    setName: Option<string>,
    setSeries: Option<string>,
    setPrintedTotal: Option<int>,
    setTotal: Option<int>,
    setReleaseDate: Option<string>,
    setUpdatedAt: Option<string>,
    setLegalitiesUnlimited: Option<string>,
    setLegalitiesExpanded: Option<string>,
    setLegalitiesStandard: Option<string>,
    setImageSymbol: Option<string>,
    setImageLogo: Option<string>,
    number: Option<string>,
    ancientTraitName: Option<string>,
    ancientTraitText: Option<string>,
    type1: Option<string>,
    type2: Option<string>,
    subtype1: Option<string>,
    subtype2: Option<string>,
    subtype3: Option<string>,
    subtype4: Option<string>,
    nationalPokedexNumber: Option<int>)

  /** The scalar row: `card_id` followed by the other columns. */
  datatype BasicRow = BasicRow(cardId: string, fields: CardFields)

  /** The scalar row's column names, in the order the row dictionary lists them. */
  const BasicColumns: seq<string> := [
    "card_id", "name", "hp", "rarity", "artist", "supertype", "evolvesFrom",
    "flavorText", "convertedRetreatCost", "regulationMark", "rules",
    "image_small", "image_large", "set_id", "set_name", "set_series",
    "set_printedTotal", "set_total", "set_releaseDate", "set_updatedAt",
    "set_legalities_unlimited", "set_legalities_expanded",
    "set_legalities_standard", "set_image_symbol", "set_image_logo", "number",
    "ancientTrait_name", "ancientTrait_text", "type_1", "type_2", "subtype_1",
    "subtype_2", "subtype_3", "subtype_4", "nationalPokedexNumber"]

  /** `extract_basic_card_data`: never fails, whatever nested object is absent. */
  function BasicRowOf(card: Card): (row: BasicRow)
    ensures row.cardId == card.id
    ensures var f := row.fields;
      && f.name == card.name && f.hp == card.hp && f.rarity == card.rarity && f.artist == card.artist
      && f.supertype == card.supertype && f.evolvesFrom == card.evolvesFrom
      && f.flavorText == card.flavorText && f.convertedRetreatCost == card.convertedRetreatCost
      && f.regulationMark == card.regulationMark && f.number == card.number
  {
    var s := card.cardSet;
    var legal := if s.Some? then s.value.legalities else None;
    var setImages := if s.Some? then s.value.images else None;
    BasicRow(card.id, CardFields(
      name := card.name,
      hp := card.hp,
      rarity := card.rarity,
      artist := card.artist,
      supertype := card.supertype,
      evolvesFrom := card.evolvesFrom,
      flavorText := card.flavorText,
      convertedRetreatCost := card.convertedRetreatCost,
      regulationMark := card.regulationMark,
      rules := if NonEmpty(card.rules) then Some(Join(card.rules.value, ", ")) else None,
      imageSmall := if card.images.Some? then card.images.value.small else None,
      imageLarge := if card.images.Some? then card.images.value.large else None,
      setId := if s.Some? then s.value.id else None,
      setName := if s.Some? then s.value.name else None,
      setSeries := if s.Some? then s.value.series else None,
      setPrintedTotal := if s.Some? then s.value.printedTotal else None,
      setTotal := if s.Some? then s.value.total else None,
      setReleaseDate := if s.Some? then s.value.releaseDate else None,
      setUpdatedAt := if s.Some? then s.value.updatedAt else None,
      setLegalitiesUnlimited := if legal.Some? then legal.value.unlimited else None,
      setLegalitiesExpanded := if legal.Some? then legal.value.expanded else None,
      setLegalitiesStandard := if legal.Some? then legal.value.standard else None,
      setImageSymbol := if setImages.Some? then setImages.value.symbol else None,
      setImageLogo := if setImages.Some? then setImages.value.logo else None,
      number := card.number,
      ancientTraitName := if card.ancientTrait.Some? then card.ancientTrait.value.name else None,
      ancientTraitText := if card.ancientTrait.Some? then card.ancientTrait.value.text else None,
      type1 := Slot(card.types, 0),
      type2 := Slot(card.types, 1),
      subtype1 := Slot(card.subtypes, 0),
      subtype2 := Slot(card.subtypes, 1),
      subtype3 := Slot(card.subtypes, 2),
      subtype4 := Slot(card.subtypes, 3),
      nationalPokedexNumber :=
        if card.nationalPokedexNumbers.Some? && |card.nationalPokedexNumbers.value| == 1
        then Some(card.nationalPokedexNumbers.value[0]) else None))
  }

  /** The `type_1`, `type_2` columns of a row. */
  function TypeColumns(f: CardFields): seq<Option<string>> { [f.type1, f.type2] }

  /** The `subtype_1` .. `subtype_4` columns of a row. */
  function SubtypeColumns(f: CardFields): seq<Option<string>> {
    [f.subtype1, f.subtype2, f.subtype3, f.subtype4]
  }

  /**
   * Column k of the type (subtype) fan-out holds element k of the list when
   * the list has more than k elements, and is absent otherwise.
   */
  lemma {:induction false} FanOutColumns(card: Card)
    ensures forall k :: 0 <= k < 2 ==>
      (TypeColumns(BasicRowOf(card).fields)[k].Some? <==> card.types.Some? && k < |card.types.value|)
      && (TypeColumns(BasicRowOf(card).fields)[k].Some? ==>
            TypeColumns(BasicRowOf(card).fields)[k].value == card.types.value[k])
    ensures forall k :: 0 <= k < 4 ==>
      (SubtypeColumns(BasicRowOf(card).fields)[k].Some? <==> card.subtypes.Some? && k < |card.subtypes.value|)
      && (SubtypeColumns(BasicRowOf(card).fields)[k].Some? ==>
            SubtypeColumns(BasicRowOf(card).fields)[k].value == card.subtypes.value[k])
  {
  }

  /** Types beyond the second leave the scalar row unchanged, whatever the subtypes. */
  lemma {:induction false} ExtraTypesDropped(card: Card, types: seq<string>, more: seq<string>)
    requires |types| >= 2
    ensures BasicRowOf(card.(types := Some(types + more))) == BasicRowOf(card.(types := Some(types)))
  {
  }

  /** Subtypes beyond the fourth leave the scalar row unchanged, whatever the types. */
  lemma {:induction false} ExtraSubtypesDropped(card: Card, subtypes: seq<string>, more: seq<string>)
    requires |subtypes| >= 4
    ensures BasicRowOf(card.(subtypes := Some(subtypes + more))) == BasicRowOf(card.(subtypes := Some(subtypes)))
  {
  }

  /** The national Pokédex number is kept only when the card lists exactly one. */
  lemma {:induction false} PokedexNumberColumn(card: Card)
    ensures BasicRowOf(card).fields.nationalPokedexNumber.Some?
        <==> card.nationalPokedexNumbers.Some? && |card.nationalPokedexNumbers.value| == 1
    ensures BasicRowOf(card).fields.nationalPokedexNumber.Some?
        ==> BasicRowOf(card).fields.nationalPokedexNumber.value == card.nationalPokedexNumbers.value[0]
  {
  }

  /** `rules` is the rule texts joined with ", ", or absent when there are none. */
  lemma {:induction false} RulesColumn(card: Card)
    ensures BasicRowOf(card).fields.rules.None? <==> Size(card.rules) == 0
    ensures Size(card.rules) > 0 ==> BasicRowOf(card).fields.rules == Some(Join(card.rules.value, ", "))
    ensures Size(card.rules) == 1 ==> BasicRowOf(card).fields.rules == Some(card.rules.value[0])
    ensures Size(card.rules) > 0 ==>
      |BasicRowOf(card).fields.rules.value| == TotalLength(card.rules.value) + 2 * (Size(card.rules) - 1)
  {
  }

  /** A missing nested object blanks the columns read through it; a present one is copied. */
  lemma {:induction false} NestedObjectsMayBeAbsent(card: Card)
    ensures var f := BasicRowOf(card).fields;
      card.cardSet.None? ==>
        f.setId.None? && f.setName.None? && f.setSeries.None? && f.setPrintedTotal.None?
        && f.setTotal.None? && f.setReleaseDate.None? && f.setUpdatedAt.None?
    ensures var f := BasicRowOf(card).fields;
      (card.cardSet.None? || card.cardSet.value.legalities.None?) ==>
        f.setLegalitiesUnlimited.None? && f.setLegalitiesExpanded.None? && f.setLegalitiesStandard.None?
    ensures var f := BasicRowOf(card).fields;
      (card.cardSet.None? || card.cardSet.value.images.None?) ==>
        f.setImageSymbol.None? && f.setImageLogo.None?
    ensures var f := BasicRowOf(card).fields;
      card.images.None? ==> f.imageSmall.None? && f.imageLarge.None?
    ensures var f := BasicRowOf(card).fields;
      card.ancientTrait.None? ==> f.ancientTraitName.None? && f.ancientTraitText.None?
    ensures var f := BasicRowOf(card).fields;
      card.cardSet.Some? ==>
        var s := card.cardSet.value;
        f.setId == s.id && f.setName == s.name && f.setSeries == s.series
        && f.setPrintedTotal == s.printedTotal && f.setTotal == s.total
        && f.setReleaseDate == s.releaseDate && f.setUpdatedAt == s.updatedAt
    ensures var f := BasicRowOf(card).fields;
      card.cardSet.Some? && card.cardSet.value.legalities.Some? ==>
        var l := card.cardSet.value.legalities.value;
        f.setLegalitiesUnlimited == l.unlimited && f.setLegalitiesExpanded == l.expanded
        && f.setLegalitiesStandard == l.standard
    ensures var f := BasicRowOf(card).fields;
      card.cardSet.Some? && card.cardSet.value.images.Some? ==>
        f.setImageSymbol == card.cardSet.value.images.value.symbol
        && f.setImageLogo == card.cardSet.value.images.value.logo
    ensures var f := BasicRowOf(card).fields;
      card.images.Some? ==> f.imageSmall == card.images.value.small && f.imageLarge == card.images.value.large
    ensures var f := BasicRowOf(card).fields;
      card.ancientTrait.Some? ==>
        f.ancientTraitName == card.ancientTrait.value.name && f.ancientTraitText == card.ancientTrait.value.text
    ensures BasicRowOf(card).cardId == card.id
  {
  }

  // ---------------------------------------------------------------------
  // extract_abilities_data

  datatype AbilityRow = AbilityRow(
    cardId: string, abilityName: Option<string>, abilityText: Option<string>, abilityType: Option<string>)

  function AbilityKey(r: AbilityRow): string { r.cardId }

  function AbilityRowOf(id: string, a: Ability): AbilityRow {
    AbilityRow(id, a.name, a.text, a.kind)
  }

  /** One row per ability, in order, each carrying the card's identifier. */
  function AbilityRows(card: Card): (rows: seq<AbilityRow>)
    ensures |rows| == Size(card.abilities)
    ensures forall r :: r in rows ==> r.cardId == card.id
  {
    var items := Items(card.abilities);
    seq(|items|, i requires 0 <= i < |items| => AbilityRowOf(card.id, items[i]))
  }

  method ExtractAbilities(card: Card) returns (rows: seq<AbilityRow>)
    ensures rows == AbilityRows(card)
  {
    rows := [];
    if NonEmpty(card.abilities) {
      var items := card.abilities.value;
      for i := 0 to |items|
        invariant |rows| == i
        invariant forall j :: 0 <= j < i ==> rows[j] == AbilityRowOf(card.id, items[j])
      {
        rows := rows + [AbilityRowOf(card.id, items[i])];
      }
    }
  }

  // ---------------------------------------------------------------------
  // extract_attacks_data

  datatype AttackRow = AttackRow(
    cardId: string,
    attackName: Option<string>,
    attackCost: string,
    attackConvertedEnergyCost: Option<int>,
    attackDamage: Option<string>,
    attackText: Option<string>)

  function AttackKey(r: AttackRow): string { r.cardId }

  function AttackRowOf(id: string, a: Attack): AttackRow
    requires a.cost.Some?
  {
    AttackRow(id, a.name, Join(a.cost.value, ", "), a.convertedEnergyCost, a.damage, a.text)
  }

  /** Rows for `attacks`, aborting at the first attack whose cost list is absent. */
  function AttackRowsOf(id: string, attacks: seq<Attack>): (r: Result<seq<AttackRow>, Error>)
    ensures r.Failure? ==> r.error == AttackCostMissing(id)
    ensures r.Success? ==> |r.value| == |attacks|
  {
    if attacks == [] then Success([])
    else
      var n := |attacks| - 1;
      match AttackRowsOf(id, attacks[..n])
      case Failure(e) => Failure(e)
      case Success(rows) =>
        if attacks[n].cost.None? then Failure(AttackCostMissing(id))
        else Success(rows + [AttackRowOf(id, attacks[n])])
  }

  /**
   * Attack extraction fails exactly when some attack has no cost list; on
   * success row i is attack i under the card's identifier, its cost joined.
   */
  lemma {:induction false} AttackRowsOfSpec(id: string, attacks: seq<Attack>)
    ensures AttackRowsOf(id, attacks).Failure? <==> exists a :: a in attacks && a.cost.None?
    ensures AttackRowsOf(id, attacks).Success? ==> forall i :: 0 <= i < |attacks| ==>
      var row := AttackRowsOf(id, attacks).value[i];
      row.cardId == id && row.attackName == attacks[i].name
      && row.attackCost == Join(attacks[i].cost.value, ", ")
  {
    if attacks != [] {
      var n := |attacks| - 1;
      AttackRowsOfSpec(id, attacks[..n]);
      assert attacks == attacks[..n] + [attacks[n]];
      if AttackRowsOf(id, attacks[..n]).Success? && attacks[n].cost.Some? {
        var rows := AttackRowsOf(id, attacks[..n]).value;
        assert forall i :: 0 <= i < n ==> attacks[..n][i] == attacks[i];
        assert forall i :: 0 <= i < n ==> (rows + [AttackRowOf(id, attacks[n])])[i] == rows[i];
      }
    }
  }

  function AttackRows(card: Card): (r: Result<seq<AttackRow>, Error>)
  {
    AttackRowsOf(card.id, Items(card.attacks))
  }

  /** The attack rows of a card, or none when extraction aborts (used only once it is known to succeed). */
  function AttackRowsOrNone(card: Card): seq<AttackRow>
  {
    if AttackRows(card).Success? then AttackRows(card).value else []
  }

  method ExtractAttacks(card: Card) returns (r: Result<seq<AttackRow>, Error>)
    ensures r == AttackRows(card)
  {
    var rows: seq<AttackRow> := [];
    if NonEmpty(card.attacks) {
      var items := card.attacks.value;
      for i := 0 to |items|
        invariant AttackRowsOf(card.id, items[..i]) == Success(rows)
      {
        assert items[..i + 1][..i] == items[..i];
        if items[i].cost.None? {
          AttackRowsOfSpec(card.id, items);
          assert items[i] in items;
          return Failure(AttackCostMissing(card.id));
        }
        rows := rows + [AttackRowOf(card.id, items[i])];
      }
      assert items[..|items|] == items;
    }
    r := Success(rows);
  }

  // ---------------------------------------------------------------------
  // extract_prices_data

  /** The price variants, each emitted under its own `price_type` tag. */
  datatype Variant = Normal | Holofoil | ReverseHolofoil | FirstEditionHolofoil | FirstEditionNormal

  /** The `price_type` tag of a variant. */
  function VariantName(v: Variant): (name: string)
    ensures '_' !in name && name != "unknown"
  {
    match v
    case Normal => "normal"
    case Holofoil => "holofoil"
    case ReverseHolofoil => "reverseHolofoil"
    case FirstEditionHolofoil => "firstEditionHolofoil"
    case FirstEditionNormal => "firstEditionNormal"
  }

  lemma {:induction false} VariantNamesDistinct(v: Variant, w: Variant)
    ensures VariantName(v) == VariantName(w) ==> v == w
  {
  }

  /** The position of a variant in the order the extractor tests them. */
  function Rank(v: Variant): nat
  {
    match v
    case Normal => 0
    case Holofoil => 1
    case ReverseHolofoil => 2
    case FirstEditionHolofoil => 3
    case FirstEditionNormal => 4
  }

  const VariantOrder: seq<Variant> :=
    [Normal, Holofoil, ReverseHolofoil, FirstEditionHolofoil, FirstEditionNormal]

  /** The quote the API gives for a variant, if any. */
  function Quote(p: Prices, v: Variant): Option<PriceQuote>
  {
    match v
    case Normal => p.normal
    case Holofoil => p.holofoil
    case ReverseHolofoil => p.reverseHolofoil
    case FirstEditionHolofoil => p.firstEditionHolofoil
    case FirstEditionNormal => p.firstEditionNormal
  }

  datatype PriceRow = PriceRow(cardId: string, variant: Variant, quote: PriceQuote)

  function PriceKey(r: PriceRow): string { r.cardId }

  /** One row per variant of `vs` that has a quote, in the order of `vs`. */
  function Populated(id: string, p: Prices, vs: seq<Variant>): (rows: seq<PriceRow>)
    ensures |rows| <= |vs|
  {
    if vs == [] then []
    else
      var n := |vs| - 1;
      var q := Quote(p, vs[n]);
      Populated(id, p, vs[..n]) + (if q.Some? then [PriceRow(id, vs[n], q.value)] else [])
  }

  /** Every emitted row is a quoted variant of `vs`, copied verbatim under the card's identifier. */
  lemma {:induction false} PopulatedSound(id: string, p: Prices, vs: seq<Variant>)
    ensures forall r :: r in Populated(id, p, vs) ==>
      r.cardId == id && r.variant in vs && Quote(p, r.variant) == Some(r.quote)
  {
    if vs != [] {
      var n := |vs| - 1;
      PopulatedSound(id, p, vs[..n]);
      assert forall v :: v in vs[..n] ==> v in vs;
    }
  }

  /** Every quoted variant of `vs` is emitted. */
  lemma {:induction false} PopulatedComplete(id: string, p: Prices, vs: seq<Variant>, v: Variant)
    requires v in vs && Quote(p, v).Some?
    ensures exists r :: r in Populated(id, p, vs) && r.variant == v
  {
    var n := |vs| - 1;
    var rows := Populated(id, p, vs);
    if vs[n] == v {
      var r := PriceRow(id, v, Quote(p, v).value);
      assert rows[|rows| - 1] == r;
    } else {
      assert v in vs[..n] by {
        var i :| 0 <= i < |vs| && vs[i] == v;
        assert vs[..n][i] == v;
      }
      PopulatedComplete(id, p, vs[..n], v);
      var r :| r in Populated(id, p, vs[..n]) && r.variant == v;
      assert r in rows;
    }
  }

  /** Rows follow the order of `vs` when `vs` is listed by increasing rank. */
  lemma {:induction false} PopulatedOrdered(id: string, p: Prices, vs: seq<Variant>)
    requires forall i, j :: 0 <= i < j < |vs| ==> Rank(vs[i]) < Rank(vs[j])
    ensures forall i, j :: 0 <= i < j < |Populated(id, p, vs)| ==>
      Rank(Populated(id, p, vs)[i].variant) < Rank(Populated(id, p, vs)[j].variant)
  {
    if vs != [] {
      var n := |vs| - 1;
      var init := Populated(id, p, vs[..n]);
      PopulatedOrdered(id, p, vs[..n]);
      PopulatedSound(id, p, vs[..n]);
      forall r | r in init ensures Rank(r.variant) < Rank(vs[n]) {
        var i :| 0 <= i < n && vs[..n][i] == r.variant;
      }
    }
  }

  /**
   * `extract_prices_data`: one row per variant that has a quote, at most
   * five, in the fixed variant order; none when the card has no TCGplayer
   * data or no prices.
   */
  function PriceRows(card: Card): (rows: seq<PriceRow>)
    ensures |rows| <= 5
    ensures card.tcgplayer.None? || card.tcgplayer.value.prices.None? ==> rows == []
    ensures forall r :: r in rows ==> r.cardId == card.id
    ensures forall i, j :: 0 <= i < j < |rows| ==> Rank(rows[i].variant) < Rank(rows[j].variant)
    ensures card.tcgplayer.Some? && card.tcgplayer.value.prices.Some? ==>
      var p := card.tcgplayer.value.prices.value;
      && (forall r :: r in rows ==> Quote(p, r.variant) == Some(r.quote))
      && (forall v :: Quote(p, v).Some? ==> exists r :: r in rows && r.variant == v)
  {
    if card.tcgplayer.Some? && card.tcgplayer.value.prices.Some? then
      var p := card.tcgplayer.value.prices.value;
      PopulatedSound(card.id, p, VariantOrder);
      PopulatedOrdered(card.id, p, VariantOrder);
      assert forall v :: Quote(p, v).Some? ==> exists r :: r in Populated(card.id, p, VariantOrder) && r.variant == v by {
        forall v | Quote(p, v).Some? ensures exists r :: r in Populated(card.id, p, VariantOrder) && r.variant == v {
          assert VariantOrder[Rank(v)] == v;
          PopulatedComplete(card.id, p, VariantOrder, v);
        }
      }
      Populated(card.id, p, VariantOrder)
    else []
  }

  /** No two price rows of a card share a variant. */
  lemma {:induction false} PriceVariantsDistinct(card: Card)
    ensures forall i, j :: 0 <= i < j < |PriceRows(card)| ==>
      PriceRows(card)[i].variant != PriceRows(card)[j].variant
  {
  }

  method ExtractPrices(card: Card) returns (rows: seq<PriceRow>)
    ensures rows == PriceRows(card)
  {
    rows := [];
    if card.tcgplayer.Some? && card.tcgplayer.value.prices.Some? {
      var p := card.tcgplayer.value.prices.value;
      var id := card.id;
      var vs: seq<Variant> := [];
      rows := AppendIfQuoted(rows, id, Normal, p.normal);
      PopulatedStep(id, p, vs, Normal);
      vs := vs + [Normal];
      rows := AppendIfQuoted(rows, id, Holofoil, p.holofoil);
      PopulatedStep(id, p, vs, Holofoil);
      vs := vs + [Holofoil];
      rows := AppendIfQuoted(rows, id, ReverseHolofoil, p.reverseHolofoil);
      PopulatedStep(id, p, vs, ReverseHolofoil);
      vs := vs + [ReverseHolofoil];
      rows := AppendIfQuoted(rows, id, FirstEditionHolofoil, p.firstEditionHolofoil);
      PopulatedStep(id, p, vs, FirstEditionHolofoil);
      vs := vs + [FirstEditionHolofoil];
      rows := AppendIfQuoted(rows, id, FirstEditionNormal, p.firstEditionNormal);
      PopulatedStep(id, p, vs, FirstEditionNormal);
      vs := vs + [FirstEditionNormal];
      assert vs == VariantOrder;
    }
  }

  /** `if price_data.<variant>: prices.append({...})`. */
  method AppendIfQuoted(rows: seq<PriceRow>, id: string, v: Variant, q: Option<PriceQuote>)
    returns (rows': seq<PriceRow>)
    ensures rows' == rows + (if q.Some? then [PriceRow(id, v, q.value)] else [])
  {
    rows' := rows;
    if q.Some? {
      rows' := rows' + [PriceRow(id, v, q.value)];
    }
  }

  /** Testing one more variant appends its row, if it has a quote. */
  lemma {:induction false} PopulatedStep(id: string, p: Prices, vs: seq<Variant>, v: Variant)
    ensures Populated(id, p, vs + [v])
         == Populated(id, p, vs) + (if Quote(p, v).Some? then [PriceRow(id, v, Quote(p, v).value)] else [])
  {
    assert (vs + [v])[..|vs|] == vs;
  }

  // ---------------------------------------------------------------------
  // extract_resistances_data and extract_weaknesses_data

  datatype ResistanceRow = ResistanceRow(
    cardId: string, resistanceType: Option<string>, resistanceValue: Option<string>)

  datatype WeaknessRow = WeaknessRow(
    cardId: string, weaknessType: Option<string>, weaknessValue: Option<string>)

  function ResistanceKey(r: ResistanceRow): string { r.cardId }

  function WeaknessKey(r: WeaknessRow): string { r.cardId }

  /** One row per resistance, in order, each carrying the card's identifier. */
  function ResistanceRows(card: Card): (rows: seq<ResistanceRow>)
    ensures |rows| == Size(card.resistances)
    ensures forall r :: r in rows ==> r.cardId == card.id
  {
    var items := Items(card.resistances);
    seq(|items|, i requires 0 <= i < |items| => ResistanceRow(card.id, items[i].kind, items[i].value))
  }

  /** One row per weakness, in order, each carrying the card's identifier. */
  function WeaknessRows(card: Card): (rows: seq<WeaknessRow>)
    ensures |rows| == Size(card.weaknesses)
    ensures forall r :: r in rows ==> r.cardId == card.id
  {
    var items := Items(card.weaknesses);
    seq(|items|, i requires 0 <= i < |items| => WeaknessRow(card.id, items[i].kind, items[i].value))
  }

  method ExtractResistances(card: Card) returns (rows: seq<ResistanceRow>)
    ensures rows == ResistanceRows(card)
  {
    rows := [];
    if NonEmpty(card.resistances) {
      var items := card.resistances.value;
      for i := 0 to |items|
        invariant |rows| == i
        invariant forall j :: 0 <= j < i ==>
          rows[j] == ResistanceRow(card.id, items[j].kind, items[j].value)
      {
        rows := rows + [ResistanceRow(card.id, items[i].kind, items[i].value)];
      }
    }
  }

  method ExtractWeaknesses(card: Card) returns (rows: seq<WeaknessRow>)
    ensures rows == WeaknessRows(card)
  {
    rows := [];
    if NonEmpty(card.weaknesses) {
      var items := card.weaknesses.value;
      for i := 0 to |items|
        invariant |rows| == i
        invariant forall j :: 0 <= j < i ==>
          rows[j] == WeaknessRow(card.id, items[j].kind, items[j].value)
      {
        rows := rows + [WeaknessRow(card.id, items[i].kind, items[i].value)];
      }
    }
  }
}
