/**
 * What the combine step guarantees: with distinct card identifiers, the
 * joined table is exactly the concatenation, card by card, of rows computed
 * from each card alone; every card appears; keys are unique; and the run
 * aborts exactly in the cases the program cannot handle.
 */
module Guarantees {
  import opened Wrappers
  import opened Cards
  import opened Tables
  import opened Extract
  import opened Combine

  // ---------------------------------------------------------------------
  // Merging count tables keeps the rows one for one

  predicate KeysDistinct(t: seq<CountRow>) {
    forall i, j :: 0 <= i < j < |t| ==> t[i].cardId != t[j].cardId
  }

  /** Merging a count table with distinct keys adds one column and no rows. */
  lemma {:induction false} MergeCountsPointwise(rows: seq<Wide>, t: seq<CountRow>)
    requires KeysDistinct(t)
    ensures |MergeCounts(rows, t)| == |rows|
    ensures forall i :: 0 <= i < |rows| ==>
      MergeCounts(rows, t)[i] == Wide(rows[i].basic, rows[i].counts + [CountOf(t, WideKey(rows[i]))])
  {
    forall i | 0 <= i < |rows| ensures |Matches(t, CountKey, WideKey(rows[i]))| <= 1 {
      MatchesDistinctKeys(t, CountKey, WideKey(rows[i]));
    }
    LeftJoinOneToOne(rows, WideKey, t, CountKey);
  }

  /** The merge loop keeps the scalar rows one for one and appends one count per table. */
  lemma {:induction false} MergeAllPointwise(rows: seq<Wide>, ts: seq<seq<CountRow>>)
    requires forall j :: 0 <= j < |ts| ==> KeysDistinct(ts[j])
    ensures |MergeAll(rows, ts)| == |rows|
    ensures forall i :: 0 <= i < |rows| ==>
      MergeAll(rows, ts)[i] == Wide(rows[i].basic, rows[i].counts + CountsOf(ts, WideKey(rows[i])))
  {
    if ts != [] {
      var n := |ts| - 1;
      assert forall j :: 0 <= j < n ==> ts[..n][j] == ts[j];
      MergeAllPointwise(rows, ts[..n]);
      MergeCountsPointwise(MergeAll(rows, ts[..n]), ts[n]);
    }
  }

  // ---------------------------------------------------------------------
  // The counts a card receives

  /** With distinct identifiers, a card's count in a merged table is the size of its own collection, or absent. */
  lemma {:induction false} CountForCard<R>(cards: seq<Card>, f: Card -> seq<R>, key: R -> string, i: nat)
    requires i < |cards| && DistinctIds(cards)
    requires forall c, r :: c in cards && r in f(c) ==> key(r) == IdOf(c)
    ensures CountOf(GroupSize(FlatMap(cards, f), key), cards[i].id) == CountColumn(|f(cards[i])|)
  {
    GroupSizeLookup(FlatMap(cards, f), key, cards[i].id);
    MatchesFlatMapKeyed(cards, f, IdOf, key, i);
  }

  /** A card whose attacks extract contributes one row per attack, each keyed by the card. */
  lemma {:induction false} AttackRowsKeyed(c: Card)
    requires AttackRows(c).Success?
    ensures |AttackRowsOrNone(c)| == Size(c.attacks)
    ensures forall r :: r in AttackRowsOrNone(c) ==> AttackKey(r) == IdOf(c)
  {
    var rows := AttackRowsOrNone(c);
    AttackRowsOfSpec(c.id, Items(c.attacks));
    forall r | r in rows ensures AttackKey(r) == IdOf(c) {
      var j :| 0 <= j < |rows| && rows[j] == r;
    }
  }

  lemma {:induction false} CountsOfFour(ts: seq<seq<CountRow>>, k: string)
    requires |ts| == 4
    ensures CountsOf(ts, k) == [CountOf(ts[0], k), CountOf(ts[1], k), CountOf(ts[2], k), CountOf(ts[3], k)]
  {
    assert ts[..3][..2][..1][..0] == [];
    assert CountsOf(ts, k) == CountsOf(ts[..3], k) + [CountOf(ts[3], k)];
    assert CountsOf(ts[..3], k) == CountsOf(ts[..3][..2], k) + [CountOf(ts[2], k)];
    assert CountsOf(ts[..3][..2], k) == CountsOf(ts[..3][..2][..1], k) + [CountOf(ts[1], k)];
    assert CountsOf(ts[..3][..2][..1], k) == [CountOf(ts[0], k)];
  }

  /** The four count columns of card `i` after the merge loop. */
  lemma {:induction false} CountsForCard(cards: seq<Card>, i: nat)
    requires i < |cards| && DistinctIds(cards)
    requires AllAttackRows(cards).Success?
    ensures CountsOf(CountTables(FlatMap(cards, AbilityRows), AllAttackRows(cards).value,
                                 FlatMap(cards, ResistanceRows), FlatMap(cards, WeaknessRows)),
                     cards[i].id)
         == CardCounts(cards[i])
  {
    var ts := CountTables(FlatMap(cards, AbilityRows), AllAttackRows(cards).value,
                          FlatMap(cards, ResistanceRows), FlatMap(cards, WeaknessRows));
    AttackCountForCard(cards, i);
    CountForCard(cards, AbilityRows, AbilityKey, i);
    CountForCard(cards, ResistanceRows, ResistanceKey, i);
    CountForCard(cards, WeaknessRows, WeaknessKey, i);
    CountsOfFour(ts, cards[i].id);
  }

  /** With distinct identifiers, a card's attack count is its number of attacks, or absent. */
  lemma {:induction false} AttackCountForCard(cards: seq<Card>, i: nat)
    requires i < |cards| && DistinctIds(cards)
    requires AllAttackRows(cards).Success?
    ensures CountOf(GroupSize(AllAttackRows(cards).value, AttackKey), cards[i].id) == CountColumn(Size(cards[i].attacks))
  {
    AllAttackRowsFlat(cards);
    forall c | c in cards ensures |AttackRowsOrNone(c)| == Size(c.attacks)
      && forall r :: r in AttackRowsOrNone(c) ==> AttackKey(r) == IdOf(c)
    {
      AttackRowsKeyed(c);
    }
    CountForCard(cards, AttackRowsOrNone, AttackKey, i);
  }

  // ---------------------------------------------------------------------
  // The joined table, card by card

  /** Joining one card's scalar row with its own price rows and finalizing gives exactly its rows. */
  lemma {:induction false} CardPiece(c: Card, w: Wide)
    requires w.basic == BasicRowOf(c)
    requires w.counts == CardCounts(c)
    ensures MapSeq(JoinRow(w, PriceRows(c)), Finalize) == CardOutput(c)
  {
    var ps := PriceRows(c);
    if ps == [] {
      assert CompositeKey(c.id, Unknown) == c.id + "_unknown";
    } else {
      var lhs := MapSeq(JoinRow(w, ps), Finalize);
      forall i | 0 <= i < |ps| ensures lhs[i] == CardOutput(c)[i] {
        assert JoinRow(w, ps)[i] == (w, Some(ps[i]));
      }
    }
  }

  /** The scalar rows after the merge loop: one per card, in card order, carrying that card's own counts. */
  lemma {:induction false} WideRows(cards: seq<Card>)
    requires DistinctIds(cards)
    requires AllAttackRows(cards).Success?
    ensures var wide := MergeAll(BasicTable(cards), CountTables(
              FlatMap(cards, AbilityRows), AllAttackRows(cards).value,
              FlatMap(cards, ResistanceRows), FlatMap(cards, WeaknessRows)));
            |wide| == |cards| &&
            forall i :: 0 <= i < |cards| ==> wide[i] == Wide(BasicRowOf(cards[i]), CardCounts(cards[i]))
  {
    var ts := CountTables(FlatMap(cards, AbilityRows), AllAttackRows(cards).value,
                          FlatMap(cards, ResistanceRows), FlatMap(cards, WeaknessRows));
    CountTablesDistinct(FlatMap(cards, AbilityRows), AllAttackRows(cards).value,
                        FlatMap(cards, ResistanceRows), FlatMap(cards, WeaknessRows));
    forall i | 0 <= i < |cards|
      ensures CountsOf(ts, cards[i].id) == CardCounts(cards[i])
    {
      CountsForCard(cards, i);
    }
    MergedScalarRows(cards, ts);
  }

  /** Each count table lists a card identifier at most once. */
  lemma {:induction false} CountTablesDistinct(abilities: seq<AbilityRow>, attacks: seq<AttackRow>,
                            resistances: seq<ResistanceRow>, weaknesses: seq<WeaknessRow>)
    ensures forall j :: 0 <= j < 4 ==> KeysDistinct(CountTables(abilities, attacks, resistances, weaknesses)[j])
  {
  }

  /** Merging count tables that give every card its own counts onto the scalar rows. */
  lemma {:induction false} MergedScalarRows(cards: seq<Card>, ts: seq<seq<CountRow>>)
    requires forall j :: 0 <= j < |ts| ==> KeysDistinct(ts[j])
    requires forall i :: 0 <= i < |cards| ==> CountsOf(ts, cards[i].id) == CardCounts(cards[i])
    ensures |MergeAll(BasicTable(cards), ts)| == |cards|
    ensures forall i :: 0 <= i < |cards| ==>
      MergeAll(BasicTable(cards), ts)[i] == Wide(BasicRowOf(cards[i]), CardCounts(cards[i]))
  {
    var basic := BasicTable(cards);
    MergeAllPointwise(basic, ts);
    forall i | 0 <= i < |cards|
      ensures MergeAll(basic, ts)[i] == Wide(BasicRowOf(cards[i]), CardCounts(cards[i]))
    {
      assert basic[i] == Widen(cards[i]);
      assert [] + CountsOf(ts, cards[i].id) == CountsOf(ts, cards[i].id);
    }
  }

  /** Card `i`'s scalar row meets exactly that card's price rows in the global price table. */
  lemma {:induction false} PieceForCard(cards: seq<Card>, wide: seq<Wide>, i: nat)
    requires DistinctIds(cards)
    requires i < |wide| == |cards|
    requires wide[i] == Wide(BasicRowOf(cards[i]), CardCounts(cards[i]))
    ensures MapSeq(JoinRow(wide[i], Matches(FlatMap(cards, PriceRows), PriceKey, WideKey(wide[i]))), Finalize)
         == CardOutput(cards[i])
  {
    MatchesFlatMapKeyed(cards, PriceRows, IdOf, PriceKey, i);
    CardPiece(cards[i], wide[i]);
  }

  /** Every card's scalar row meets exactly that card's price rows. */
  lemma {:induction false} PiecesByCard(cards: seq<Card>, wide: seq<Wide>)
    requires DistinctIds(cards)
    requires |wide| == |cards|
    requires forall i :: 0 <= i < |cards| ==> wide[i] == Wide(BasicRowOf(cards[i]), CardCounts(cards[i]))
    ensures forall i :: 0 <= i < |cards| ==>
      MapSeq(JoinRow(wide[i], Matches(FlatMap(cards, PriceRows), PriceKey, WideKey(wide[i]))), Finalize)
      == CardOutput(cards[i])
  {
    forall i | 0 <= i < |cards|
      ensures MapSeq(JoinRow(wide[i], Matches(FlatMap(cards, PriceRows), PriceKey, WideKey(wide[i]))), Finalize)
           == CardOutput(cards[i])
    {
      PieceForCard(cards, wide, i);
    }
  }

  /** Left-joining per-card rows with the price table and finalizing gives, card after card, each card's own rows. */
  lemma {:induction false} JoinByCard(cards: seq<Card>, wide: seq<Wide>)
    requires DistinctIds(cards)
    requires |wide| == |cards|
    requires forall i :: 0 <= i < |cards| ==> wide[i] == Wide(BasicRowOf(cards[i]), CardCounts(cards[i]))
    ensures MapSeq(LeftJoin(wide, WideKey, FlatMap(cards, PriceRows), PriceKey), Finalize)
         == FlatMap(cards, CardOutput)
  {
    PiecesByCard(cards, wide);
    var prices := FlatMap(cards, PriceRows);
    var xss := seq(|wide|, i requires 0 <= i < |wide| =>
                     JoinRow(wide[i], Matches(prices, PriceKey, WideKey(wide[i]))));
    var lhs := seq(|xss|, i requires 0 <= i < |xss| => MapSeq(xss[i], Finalize));
    LeftJoinIsFlattenOf(wide, WideKey, prices, PriceKey, xss);
    MapSeqFlattenOf(xss, Finalize, lhs);
    FlatMapIsFlattenOf(cards, CardOutput, lhs);
  }

  /**
   * With distinct card identifiers, a successful run emits, card after card
   * in input order, exactly the rows each card determines on its own: the
   * left joins against the global count and price tables pick up precisely
   * that card's child rows.
   */
  lemma {:induction false} DenormaliseByCard(cards: seq<Card>)
    requires DistinctIds(cards)
    requires Denormalise(cards).Success?
    ensures Denormalise(cards).value == FlatMap(cards, CardOutput)
  {
    WideRows(cards);
    var wide := MergeAll(BasicTable(cards), CountTables(
              FlatMap(cards, AbilityRows), AllAttackRows(cards).value,
              FlatMap(cards, ResistanceRows), FlatMap(cards, WeaknessRows)));
    JoinByCard(cards, wide);
  }

  // ---------------------------------------------------------------------
  // The rows of one card

  /**
   * A card yields one row per price row, or exactly one "unknown" row
   * with empty price columns when it has none; every row repeats the
   * card's scalar fields and counts and is keyed by its identifier and
   * price type.
   */
  lemma {:induction false} CardRows(c: Card)
    ensures |CardOutput(c)| == if PriceRows(c) == [] then 1 else |PriceRows(c)|
    ensures 1 <= |CardOutput(c)| <= 5
    ensures PriceRows(c) == [] ==>
      CardOutput(c) == [OutputRow(CompositeKey(c.id, Unknown), BasicRowOf(c).fields, CardCounts(c), Unknown, NoQuote)]
    ensures forall r :: r in CardOutput(c) ==>
      && r.fields == BasicRowOf(c).fields
      && r.counts == CardCounts(c)
      && r.key == CompositeKey(c.id, r.priceType)
      && '_' !in r.priceType
      && (r.priceType == Unknown <==> PriceRows(c) == [])
  {
    var ps := PriceRows(c);
    if ps == [] {
      assert CompositeKey(c.id, Unknown) == c.id + "_unknown";
    } else {
      forall r | r in CardOutput(c)
        ensures r.key == CompositeKey(c.id, r.priceType) && '_' !in r.priceType && r.priceType != Unknown
      {
        var i :| 0 <= i < |ps| && CardOutput(c)[i] == r;
        assert r.priceType == VariantName(ps[i].variant);
      }
    }
  }

  /** No two rows of a card share a price type. */
  lemma {:induction false} CardPriceTypesDistinct(c: Card)
    ensures forall i, j :: 0 <= i < j < |CardOutput(c)| ==> CardOutput(c)[i].priceType != CardOutput(c)[j].priceType
  {
    var ps := PriceRows(c);
    if ps != [] {
      forall i, j | 0 <= i < j < |ps| ensures CardOutput(c)[i].priceType != CardOutput(c)[j].priceType {
        PriceVariantsDistinct(c);
        VariantNamesDistinct(ps[i].variant, ps[j].variant);
      }
    }
  }

  /** Each priced row of a card copies the quote of the variant it names. */
  lemma {:induction false} CardQuotesSound(c: Card)
    requires c.tcgplayer.Some? && c.tcgplayer.value.prices.Some?
    ensures forall r :: r in CardOutput(c) && r.priceType != Unknown ==>
      exists v :: r.priceType == VariantName(v) && Quote(c.tcgplayer.value.prices.value, v) == Some(r.quote)
  {
    var p := c.tcgplayer.value.prices.value;
    var ps := PriceRows(c);
    var out := CardOutput(c);
    forall r | r in out && r.priceType != Unknown
      ensures exists v :: r.priceType == VariantName(v) && Quote(p, v) == Some(r.quote)
    {
      if ps != [] {
        var i :| 0 <= i < |ps| && out[i] == r;
        assert ps[i] in ps;
        assert r.priceType == VariantName(ps[i].variant) && r.quote == ps[i].quote;
      }
    }
  }

  /** Every quoted variant of a card has a row carrying that quote. */
  lemma {:induction false} CardQuotesComplete(c: Card, v: Variant)
    requires c.tcgplayer.Some? && c.tcgplayer.value.prices.Some?
    requires Quote(c.tcgplayer.value.prices.value, v).Some?
    ensures exists r :: (r in CardOutput(c) && r.priceType == VariantName(v)
                         && r.quote == Quote(c.tcgplayer.value.prices.value, v).value)
  {
    var ps := PriceRows(c);
    var out := CardOutput(c);
    var pr :| pr in ps && pr.variant == v;
    var i :| 0 <= i < |ps| && ps[i] == pr;
    assert out[i] in out;
  }

  // ---------------------------------------------------------------------
  // Keys

  /** No two rows share a key. */
  predicate KeysUniqueIn(rows: seq<OutputRow>)
  {
    forall i, j :: 0 <= i < j < |rows| ==> rows[i].key != rows[j].key
  }

  /** Within one card, the keys differ because the price types do. */
  lemma {:induction false} CardKeysUnique(c: Card)
    ensures KeysUniqueIn(CardOutput(c))
  {
    CardRows(c);
    CardPriceTypesDistinct(c);
    var out := CardOutput(c);
    forall i, j | 0 <= i < j < |out| ensures out[i].key != out[j].key {
      assert out[i] in out && out[j] in out;
      if out[i].key == out[j].key {
        KeyInjective(c.id, out[i].priceType, c.id, out[j].priceType);
      }
    }
  }

  lemma {:induction false} AppendKeysUnique(a: seq<OutputRow>, b: seq<OutputRow>)
    requires KeysUniqueIn(a) && KeysUniqueIn(b)
    requires forall x, y :: x in a && y in b ==> x.key != y.key
    ensures KeysUniqueIn(a + b)
  {
    var ab := a + b;
    forall i, j | 0 <= i < j < |ab| ensures ab[i].key != ab[j].key {
      if j < |a| {
        assert ab[i] == a[i] && ab[j] == a[j];
      } else if i >= |a| {
        assert ab[i] == b[i - |a|] && ab[j] == b[j - |a|];
      } else {
        assert ab[i] == a[i] && ab[j] == b[j - |a|];
        assert a[i] in a && b[j - |a|] in b;
      }
    }
  }

  /** Rows of two cards with different identifiers have different keys. */
  lemma {:induction false} OtherCardOtherKey(d: Card, e: Card, x: OutputRow, y: OutputRow)
    requires d.id != e.id
    requires x in CardOutput(d) && y in CardOutput(e)
    ensures x.key != y.key
  {
    CardRows(d);
    CardRows(e);
    if x.key == y.key {
      KeyInjective(d.id, x.priceType, e.id, y.priceType);
    }
  }

  /** A row of an earlier card and a row of the last card have different keys. */
  lemma {:induction false} EarlierCardOtherKey(cards: seq<Card>, x: OutputRow, y: OutputRow)
    requires DistinctIds(cards) && |cards| > 0
    requires x in FlatMap(cards[..|cards| - 1], CardOutput)
    requires y in CardOutput(cards[|cards| - 1])
    ensures x.key != y.key
  {
    var n := |cards| - 1;
    FlatMapMember(cards[..n], CardOutput, x);
    var d :| d in cards[..n] && x in CardOutput(d);
    var k :| 0 <= k < n && cards[..n][k] == d;
    OtherCardOtherKey(d, cards[n], x, y);
  }

  /** With distinct card identifiers, the per-card rows of all cards have pairwise distinct keys. */
  lemma {:induction false} KeysUnique(cards: seq<Card>)
    requires DistinctIds(cards)
    ensures KeysUniqueIn(FlatMap(cards, CardOutput))
  {
    if cards != [] {
      var n := |cards| - 1;
      var init := FlatMap(cards[..n], CardOutput);
      assert DistinctIds(cards[..n]);
      KeysUnique(cards[..n]);
      CardKeysUnique(cards[n]);
      forall x, y | x in init && y in CardOutput(cards[n]) ensures x.key != y.key {
        EarlierCardOtherKey(cards, x, y);
      }
      AppendKeysUnique(init, CardOutput(cards[n]));
    }
  }

  // ---------------------------------------------------------------------
  // Whole-run guarantees

  /** With distinct card identifiers, no two rows of a successful run share a `card_type_id`. */
  lemma {:induction false} OutputKeysUnique(cards: seq<Card>)
    requires DistinctIds(cards)
    requires Denormalise(cards).Success?
    ensures KeysUniqueIn(Denormalise(cards).value)
  {
    DenormaliseByCard(cards);
    KeysUnique(cards);
  }

  /**
   * With distinct card identifiers, every row of every card is in the
   * output, and the output has between one and five rows per card.
   */
  lemma {:induction false} EveryCardAppears(cards: seq<Card>)
    requires DistinctIds(cards)
    requires Denormalise(cards).Success?
    ensures forall c, r :: c in cards && r in CardOutput(c) ==> r in Denormalise(cards).value
    ensures |cards| <= |Denormalise(cards).value| <= 5 * |cards|
  {
    DenormaliseByCard(cards);
    forall c, r | c in cards && r in CardOutput(c) ensures r in FlatMap(cards, CardOutput) {
      FlatMapMember(cards, CardOutput, r);
    }
    forall c | c in cards ensures 1 <= |CardOutput(c)| <= 5 {
      CardRows(c);
    }
    FlatMapLength(cards, CardOutput, 1, 5);
  }

  /** A card has some quoted price variant. */
  predicate Priced(c: Card)
  {
    c.tcgplayer.Some? && c.tcgplayer.value.prices.Some?
    && exists v :: Quote(c.tcgplayer.value.prices.value, v).Some?
  }

  /** A card has no price rows exactly when it has no quoted variant. */
  lemma {:induction false} PriceRowsEmpty(c: Card)
    ensures PriceRows(c) == [] <==> !Priced(c)
  {
    var ps := PriceRows(c);
    if ps != [] {
      assert ps[0] in ps;
    }
  }

  /** Some attack of some card lists no energy cost. */
  predicate SomeAttackCostMissing(cards: seq<Card>)
  {
    exists c, a :: c in cards && a in Items(c.attacks) && a.cost.None?
  }

  /** A child table built card by card is empty exactly when every card contributes nothing. */
  lemma {:induction false} EmptyTable<R>(cards: seq<Card>, f: Card -> seq<R>, n: Card -> nat)
    requires forall c :: c in cards ==> |f(c)| == n(c)
    ensures FlatMap(cards, f) == [] <==> forall c :: c in cards ==> n(c) == 0
  {
    FlatMapEmpty(cards, f);
  }

  /** Attack extraction fails exactly when some attack has no cost. */
  lemma {:induction false} AttackFailure(cards: seq<Card>)
    ensures AllAttackRows(cards).Failure? <==> SomeAttackCostMissing(cards)
    ensures AllAttackRows(cards).Failure? ==> AllAttackRows(cards).error.AttackCostMissing?
    ensures AllAttackRows(cards).Success? ==>
      (AllAttackRows(cards).value == [] <==> forall c :: c in cards ==> Size(c.attacks) == 0)
  {
    AllAttackRowsFlat(cards);
    if AllAttackRows(cards).Failure? {
      AllAttackRowsFirstFailure(cards);
      var c :| c in cards && AttackRows(c).Failure?;
      AttackRowsOfSpec(c.id, Items(c.attacks));
    } else {
      forall c, a | c in cards && a in Items(c.attacks) ensures a.cost.Some? {
        AttackRowsOfSpec(c.id, Items(c.attacks));
      }
      forall c | c in cards ensures |AttackRowsOrNone(c)| == Size(c.attacks) {
        AttackRowsKeyed(c);
      }
      EmptyTable(cards, AttackRowsOrNone, (c: Card) => Size(c.attacks));
    }
  }

  /** An attack without a cost aborts the run, naming the first card that has one. */
  lemma {:induction false} AbortNamesFirstCard(cards: seq<Card>)
    requires SomeAttackCostMissing(cards)
    ensures Denormalise(cards).Failure?
    ensures exists k :: (0 <= k < |cards| && FirstAttackFailure(cards, k)
                         && Denormalise(cards).error == AttackCostMissing(cards[k].id))
  {
    AttackFailure(cards);
    AllAttackRowsFirstFailure(cards);
  }

  /**
   * The run aborts exactly when an attack has no cost (joining None), or
   * when one of the child tables is empty (its data frame has no
   * `card_id` column): no card with an ability, an attack, a resistance, a
   * weakness or a quoted price.
   */
  lemma {:induction false} RunFailsExactlyWhen(cards: seq<Card>)
    ensures Denormalise(cards).Failure? <==>
      || SomeAttackCostMissing(cards)
      || (forall c :: c in cards ==> Size(c.abilities) == 0)
      || (forall c :: c in cards ==> Size(c.attacks) == 0)
      || (forall c :: c in cards ==> Size(c.resistances) == 0)
      || (forall c :: c in cards ==> Size(c.weaknesses) == 0)
      || (forall c :: c in cards ==> !Priced(c))
    ensures Denormalise(cards).Failure? ==>
      (Denormalise(cards).error.AttackCostMissing? <==> SomeAttackCostMissing(cards))
  {
    AttackFailure(cards);
    EmptyTable(cards, AbilityRows, (c: Card) => Size(c.abilities));
    EmptyTable(cards, ResistanceRows, (c: Card) => Size(c.resistances));
    EmptyTable(cards, WeaknessRows, (c: Card) => Size(c.weaknesses));
    FlatMapEmpty(cards, PriceRows);
    forall c | c in cards ensures PriceRows(c) == [] <==> !Priced(c) {
      PriceRowsEmpty(c);
    }
  }
}
