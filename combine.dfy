/**
 * The combine step of `main` in get_data.py: flatten every card into the six
 * tables, count child rows per card, left-join the counts and the price rows
 * onto the scalar rows, fill a missing price type with "unknown", and key
 * each row by `card_id + '_' + price_type`.
 */
module Combine {
  import opened Wrappers
  import opened Cards
  import opened Tables
  import opened Extract

  // ---------------------------------------------------------------------
  // Rows of the table under construction

  /** A scalar row with the count columns merged onto it so far. */
  datatype Wide = Wide(basic: BasicRow, counts: seq<Option<nat>>)

  function WideKey(w: Wide): string { w.basic.cardId }

  /** A row of the final table: the key first, `card_id` gone. */
  datatype OutputRow = OutputRow(
    key: string,
    fields: CardFields,
    counts: seq<Option<nat>>,
    priceType: string,
    quote: PriceQuote)

  /** The price type given to rows whose card has no price row. */
  const Unknown: string := "unknown"

  /** The price columns of a row that found no price row to join. */
  const NoQuote: PriceQuote := PriceQuote(None, None, None, None, None)

  const CountColumns: seq<string> := ["num_abilities", "num_attacks", "num_resistances", "num_weaknesses"]

  const PriceColumns: seq<string> := ["price_type", "low", "mid", "high", "market", "directLow"]

  /** The new key column. */
  const KeyColumn: string := "card_type_id"

  /** The columns after the merge loop: the scalar columns, then each merged table's non-key columns. */
  function MergedColumns(): seq<string>
  {
    BasicColumns + CountColumns + PriceColumns
  }

  /** The header written: the key column added, `card_id` dropped, the key moved to the front. */
  function FinalColumns(): seq<string>
  {
    MoveToFront(DropColumn(MergedColumns() + [KeyColumn], "card_id"), KeyColumn)
  }

  /**
   * No scalar column after `card_id` is 7 characters long (the length of
   * "card_id") or 12 (the length of "card_type_id"). Comparing lengths
   * separates the names far more cheaply than comparing all 33 of them
   * character by character, which is what ScalarColumnsAfterId needs.
   */
  lemma {:induction false} ScalarColumnLengths()
    ensures forall i :: 1 <= i < |BasicColumns| ==> |BasicColumns[i]| != 7 && |BasicColumns[i]| != 12
  {
  }

  /** Neither `card_id` nor the key column reappears among the later scalar columns. */
  lemma {:induction false} ScalarColumnsAfterId()
    ensures "card_id" !in BasicColumns[1..] && KeyColumn !in BasicColumns[1..]
  {
    ScalarColumnLengths();
    forall x | x in BasicColumns[1..] ensures x != "card_id" && x != KeyColumn {
      var i :| 0 <= i < |BasicColumns[1..]| && BasicColumns[1..][i] == x;
      assert x == BasicColumns[i + 1];
    }
  }

  lemma {:induction false} MergedColumnsAfterId()
    ensures "card_id" !in CountColumns + PriceColumns && KeyColumn !in CountColumns + PriceColumns
  {
  }

  /**
   * The written header is the key, then the scalar columns without
   * `card_id`, the four counts and the six price columns, in merge order;
   * one column per field of an output row.
   */
  lemma {:induction false} FinalColumnsLayout()
    ensures FinalColumns() == [KeyColumn] + BasicColumns[1..] + CountColumns + PriceColumns
    ensures |FinalColumns()| == 45 && "card_id" !in FinalColumns()
  {
    var rest := BasicColumns[1..] + CountColumns + PriceColumns;
    ScalarColumnsAfterId();
    MergedColumnsAfterId();
    assert BasicColumns == ["card_id"] + BasicColumns[1..];
    assert MergedColumns() + [KeyColumn] == ["card_id"] + rest + [KeyColumn];
    ReplaceIdColumn("card_id", KeyColumn, rest);
  }

  // ---------------------------------------------------------------------
  // The composite key and its inverse

  /** `card_id + '_' + price_type`. */
  function CompositeKey(id: string, priceType: string): (key: string)
    ensures |key| == |id| + 1 + |priceType|
    ensures key[..|id|] == id && key[|id|] == '_' && key[|id| + 1..] == priceType
  {
    id + "_" + priceType
  }

  /** The position of the last underscore of `s`, if any. */
  function LastUnderscore(s: string): (r: Option<nat>)
    ensures r.Some? ==> r.value < |s| && s[r.value] == '_'
    ensures r.Some? ==> forall j :: r.value < j < |s| ==> s[j] != '_'
    ensures r.None? ==> '_' !in s
  {
    if s == [] then None
    else if s[|s| - 1] == '_' then Some(|s| - 1)
    else
      var r := LastUnderscore(s[..|s| - 1]);
      assert s == s[..|s| - 1] + [s[|s| - 1]];
      r
  }

  /** Splits a key at its last underscore into a card identifier and a price type. */
  function SplitKey(key: string): Option<(string, string)>
  {
    match LastUnderscore(key)
    case None => None
    case Some(i) => Some((key[..i], key[i + 1..]))
  }

  /** A key splits back into the identifier and price type it was built from. */
  lemma {:induction false} KeyRoundTrip(id: string, priceType: string)
    requires '_' !in priceType
    ensures SplitKey(CompositeKey(id, priceType)) == Some((id, priceType))
  {
    var key := CompositeKey(id, priceType);
    assert key[|id|] == '_';
    assert forall j :: |id| < j < |key| ==> key[j] == priceType[j - |id| - 1];
    LastUnderscoreAt(key, |id|);
    assert key[..|id|] == id;
    assert key[|id| + 1..] == priceType;
  }

  lemma {:induction false} LastUnderscoreAt(s: string, i: nat)
    requires i < |s| && s[i] == '_'
    requires forall j :: i < j < |s| ==> s[j] != '_'
    ensures LastUnderscore(s) == Some(i)
  {
    if i < |s| - 1 {
      LastUnderscoreAt(s[..|s| - 1], i);
    }
  }

  /** Keys built from price types without underscores determine identifier and price type. */
  lemma {:induction false} KeyInjective(a: string, p: string, b: string, q: string)
    requires '_' !in p && '_' !in q
    requires CompositeKey(a, p) == CompositeKey(b, q)
    ensures a == b && p == q
  {
    KeyRoundTrip(a, p);
    KeyRoundTrip(b, q);
  }

  // ---------------------------------------------------------------------
  // The combine step as functions

  /** `basic_df.copy()`: one scalar row per card, no counts merged yet. */
  function Widen(c: Card): Wide { Wide(BasicRowOf(c), []) }

  function BasicTable(cards: seq<Card>): seq<Wide> { MapSeq(cards, Widen) }

  /** `[attack for card in all_cards for attack in extract_attacks_data(card)]`, failing at the first failing card. */
  function AllAttackRows(cards: seq<Card>): (r: Result<seq<AttackRow>, Error>)
    ensures r.Failure? ==> r.error.AttackCostMissing?
  {
    if cards == [] then Success([])
    else
      var n := |cards| - 1;
      match AllAttackRows(cards[..n])
      case Failure(e) => Failure(e)
      case Success(rows) =>
        match AttackRows(cards[n])
        case Failure(e) => Failure(e)
        case Success(more) => Success(rows + more)
  }

  /** Card `k` is the first whose attack extraction fails. */
  predicate FirstAttackFailure(cards: seq<Card>, k: nat)
    requires k < |cards|
  {
    AttackRows(cards[k]).Failure? && forall j :: 0 <= j < k ==> AttackRows(cards[j]).Success?
  }

  /** When attack extraction over all cards fails, it fails at the first failing card, naming it. */
  lemma {:induction false} AllAttackRowsFirstFailure(cards: seq<Card>)
    requires AllAttackRows(cards).Failure?
    ensures exists k :: (0 <= k < |cards| && FirstAttackFailure(cards, k)
                         && AllAttackRows(cards).error == AttackCostMissing(cards[k].id))
  {
    var n := |cards| - 1;
    if AllAttackRows(cards[..n]).Failure? {
      AllAttackRowsFirstFailure(cards[..n]);
      var k :| 0 <= k < n && FirstAttackFailure(cards[..n], k)
        && AllAttackRows(cards[..n]).error == AttackCostMissing(cards[..n][k].id);
      assert forall j :: 0 <= j <= k ==> cards[..n][j] == cards[j];
      assert FirstAttackFailure(cards, k);
    } else {
      AllAttackRowsFlat(cards[..n]);
      forall j | 0 <= j < n ensures AttackRows(cards[j]).Success? {
        assert cards[..n][j] == cards[j];
      }
      assert FirstAttackFailure(cards, n);
    }
  }

  /** Attack extraction over all cards fails exactly when it fails for some card, and otherwise concatenates. */
  lemma {:induction false} AllAttackRowsFlat(cards: seq<Card>)
    ensures AllAttackRows(cards).Failure? <==> exists c :: c in cards && AttackRows(c).Failure?
    ensures AllAttackRows(cards).Success? ==> AllAttackRows(cards).value == FlatMap(cards, AttackRowsOrNone)
  {
    AllAttackRowsFails(cards);
    if AllAttackRows(cards).Success? {
      AllAttackRowsConcat(cards);
    }
  }

  lemma {:induction false} AllAttackRowsFails(cards: seq<Card>)
    ensures AllAttackRows(cards).Failure? <==> exists c :: c in cards && AttackRows(c).Failure?
  {
    if cards != [] {
      var n := |cards| - 1;
      AllAttackRowsFails(cards[..n]);
      if AllAttackRows(cards[..n]).Failure? {
        var c :| c in cards[..n] && AttackRows(c).Failure?;
        assert c in cards;
      } else if AttackRows(cards[n]).Success? {
        forall c | c in cards ensures AttackRows(c).Success? {
          var j :| 0 <= j < |cards| && cards[j] == c;
          if j < n {
            assert cards[..n][j] == c;
          }
        }
      }
    }
  }

  lemma {:induction false} AllAttackRowsConcat(cards: seq<Card>)
    requires AllAttackRows(cards).Success?
    ensures AllAttackRows(cards).value == FlatMap(cards, AttackRowsOrNone)
  {
    if cards != [] {
      var n := |cards| - 1;
      AllAttackRowsConcat(cards[..n]);
    }
  }

  /** Attaches the count a left join found (or nothing) as a new column. */
  function AddCount(p: (Wide, Option<CountRow>)): Wide
  {
    Wide(p.0.basic, p.0.counts + [if p.1.None? then None else Some(p.1.value.count)])
  }

  /** `final_df.merge(count_table, on='card_id', how='left')`. */
  function MergeCounts(rows: seq<Wide>, t: seq<CountRow>): seq<Wide>
  {
    MapSeq(LeftJoin(rows, WideKey, t, CountKey), AddCount)
  }

  /** The merge loop over the count tables, one merge per table in order. */
  function MergeAll(rows: seq<Wide>, ts: seq<seq<CountRow>>): (r: seq<Wide>)
    ensures |r| >= |rows|
  {
    if ts == [] then rows else MergeCounts(MergeAll(rows, ts[..|ts| - 1]), ts[|ts| - 1])
  }

  /** The count columns the merges attach to a row with identifier `k`. */
  function CountsOf(ts: seq<seq<CountRow>>, k: string): (r: seq<Option<nat>>)
    ensures |r| == |ts|
  {
    if ts == [] then [] else CountsOf(ts[..|ts| - 1], k) + [CountOf(ts[|ts| - 1], k)]
  }

  /** `final_df['price_type'].fillna('unknown')`, the new key column, and `card_id` dropped. */
  function Finalize(p: (Wide, Option<PriceRow>)): (r: OutputRow)
    ensures r.priceType == Unknown <==> p.1.None?
    ensures p.1.Some? ==> r.priceType == VariantName(p.1.value.variant) && r.quote == p.1.value.quote
    ensures p.1.None? ==> r.quote == NoQuote
    ensures r.key == CompositeKey(p.0.basic.cardId, r.priceType)
    ensures r.fields == p.0.basic.fields && r.counts == p.0.counts
  {
    var priceType := if p.1.None? then Unknown else VariantName(p.1.value.variant);
    OutputRow(
      CompositeKey(p.0.basic.cardId, priceType),
      p.0.basic.fields,
      p.0.counts,
      priceType,
      if p.1.None? then NoQuote else p.1.value.quote)
  }

  /** The four `groupby('card_id').size()` tables, in merge order. */
  function CountTables(abilities: seq<AbilityRow>, attacks: seq<AttackRow>,
                       resistances: seq<ResistanceRow>, weaknesses: seq<WeaknessRow>)
    : seq<seq<CountRow>>
  {
    [GroupSize(abilities, AbilityKey), GroupSize(attacks, AttackKey),
     GroupSize(resistances, ResistanceKey), GroupSize(weaknesses, WeaknessKey)]
  }

  /** What `main` produces from the fetched cards, before the CSV write. */
  function Denormalise(cards: seq<Card>): (r: Result<seq<OutputRow>, Error>)
    ensures r.Success? ==> |r.value| >= |cards| > 0
  {
    match AllAttackRows(cards)
    case Failure(e) => Failure(e)
    case Success(attacks) =>
      var abilities := FlatMap(cards, AbilityRows);
      var resistances := FlatMap(cards, ResistanceRows);
      var weaknesses := FlatMap(cards, WeaknessRows);
      var prices := FlatMap(cards, PriceRows);
      if abilities == [] then Failure(MissingCardIdColumn("abilities"))
      else if attacks == [] then Failure(MissingCardIdColumn("attacks"))
      else if resistances == [] then Failure(MissingCardIdColumn("resistances"))
      else if weaknesses == [] then Failure(MissingCardIdColumn("weaknesses"))
      else if prices == [] then Failure(MissingCardIdColumn("prices"))
      else
        var wide := MergeAll(BasicTable(cards), CountTables(abilities, attacks, resistances, weaknesses));
        Success(MapSeq(LeftJoin(wide, WideKey, prices, PriceKey), Finalize))
  }

  // ---------------------------------------------------------------------
  // The combine step as the program runs it

  /** The six per-card tables of `main`, before they become data frames. */
  datatype Extracted = Extracted(
    basic: seq<Wide>,
    abilities: seq<AbilityRow>,
    attacks: seq<AttackRow>,
    prices: seq<PriceRow>,
    resistances: seq<ResistanceRow>,
    weaknesses: seq<WeaknessRow>)

  /** The list comprehensions of `main`: every extractor applied to every card, in card order. */
  method ExtractTables(cards: seq<Card>) returns (r: Result<Extracted, Error>)
    ensures AllAttackRows(cards).Failure? ==> r == Failure(AllAttackRows(cards).error)
    ensures AllAttackRows(cards).Success? ==> r == Success(Extracted(
      BasicTable(cards), FlatMap(cards, AbilityRows), AllAttackRows(cards).value,
      FlatMap(cards, PriceRows), FlatMap(cards, ResistanceRows), FlatMap(cards, WeaknessRows)))
  {
    var basic: seq<Wide> := [];
    var abilities: seq<AbilityRow> := [];
    var attacks: seq<AttackRow> := [];
    var prices: seq<PriceRow> := [];
    var resistances: seq<ResistanceRow> := [];
    var weaknesses: seq<WeaknessRow> := [];
    for i := 0 to |cards|
      invariant basic == BasicTable(cards[..i])
      invariant abilities == FlatMap(cards[..i], AbilityRows)
      invariant AllAttackRows(cards[..i]) == Success(attacks)
      invariant prices == FlatMap(cards[..i], PriceRows)
      invariant resistances == FlatMap(cards[..i], ResistanceRows)
      invariant weaknesses == FlatMap(cards[..i], WeaknessRows)
    {
      var card := cards[i];
      assert cards[..i + 1][..i] == cards[..i];
      MapSeqSnoc(cards, i, Widen);
      basic := basic + [Widen(card)];
      var a := ExtractAbilities(card);
      FlatMapSnoc(cards, i, AbilityRows);
      abilities := abilities + a;
      var t := ExtractAttacks(card);
      if t.Failure? {
        AllAttackRowsPrefix(cards, i + 1);
        return Failure(t.error);
      }
      AllAttackRowsSnoc(cards, i);
      attacks := attacks + t.value;
      var p := ExtractPrices(card);
      FlatMapSnoc(cards, i, PriceRows);
      prices := prices + p;
      var s := ExtractResistances(card);
      FlatMapSnoc(cards, i, ResistanceRows);
      resistances := resistances + s;
      var w := ExtractWeaknesses(card);
      FlatMapSnoc(cards, i, WeaknessRows);
      weaknesses := weaknesses + w;
    }
    assert cards[..|cards|] == cards;
    r := Success(Extracted(basic, abilities, attacks, prices, resistances, weaknesses));
  }

  /** `for df in dfs: final_df = final_df.merge(df, on='card_id', how='left')`, over the count tables. */
  method MergeCountTables(basic: seq<Wide>, tables: seq<seq<CountRow>>) returns (wide: seq<Wide>)
    ensures wide == MergeAll(basic, tables)
  {
    wide := basic;
    for k := 0 to |tables|
      invariant wide == MergeAll(basic, tables[..k])
    {
      assert tables[..k + 1][..k] == tables[..k];
      wide := MergeCounts(wide, tables[k]);
    }
    assert tables[..|tables|] == tables;
  }

  /** `main` from the fetched cards up to the CSV write. */
  method BuildTable(cards: seq<Card>) returns (r: Result<seq<OutputRow>, Error>)
    ensures r == Denormalise(cards)
  {
    var x := ExtractTables(cards);
    if x.Failure? {
      return Failure(x.error);
    }
    var e := x.value;
    if e.abilities == [] { return Failure(MissingCardIdColumn("abilities")); }
    if e.attacks == [] { return Failure(MissingCardIdColumn("attacks")); }
    if e.resistances == [] { return Failure(MissingCardIdColumn("resistances")); }
    if e.weaknesses == [] { return Failure(MissingCardIdColumn("weaknesses")); }
    var tables := CountTables(e.abilities, e.attacks, e.resistances, e.weaknesses);
    var wide := MergeCountTables(e.basic, tables);
    if e.prices == [] { return Failure(MissingCardIdColumn("prices")); }
    var priced := LeftJoin(wide, WideKey, e.prices, PriceKey);
    r := Success(MapSeq(priced, Finalize));
  }

  /** Once attack extraction fails on a prefix of the cards, it fails on all of them with the same error. */
  /** Extending a successful prefix by one card adds that card's attack rows, or fails with its error. */
  lemma {:induction false} AllAttackRowsSnoc(cards: seq<Card>, i: nat)
    requires i < |cards| && AllAttackRows(cards[..i]).Success?
    ensures AttackRows(cards[i]).Failure? ==> AllAttackRows(cards[..i + 1]) == Failure(AttackRows(cards[i]).error)
    ensures AttackRows(cards[i]).Success? ==>
      AllAttackRows(cards[..i + 1]) == Success(AllAttackRows(cards[..i]).value + AttackRows(cards[i]).value)
  {
    assert cards[..i + 1][..i] == cards[..i];
  }

  lemma {:induction false} AllAttackRowsPrefix(cards: seq<Card>, m: nat)
    requires m <= |cards|
    requires AllAttackRows(cards[..m]).Failure?
    ensures AllAttackRows(cards) == AllAttackRows(cards[..m])
  {
    if m < |cards| {
      var n := |cards| - 1;
      assert cards[..n][..m] == cards[..m];
      AllAttackRowsPrefix(cards[..n], m);
    } else {
      assert cards[..m] == cards;
    }
  }

  // ---------------------------------------------------------------------
  // The result card by card

  /** The count columns a card's rows carry: each collection's size, absent when it is empty or missing. */
  function CardCounts(c: Card): seq<Option<nat>>
  {
    [CountColumn(Size(c.abilities)), CountColumn(Size(c.attacks)),
     CountColumn(Size(c.resistances)), CountColumn(Size(c.weaknesses))]
  }

  /**
   * The rows one card contributes, computed from the card alone: one row
   * per price variant it has, or a single "unknown" row when it has none;
   * every row carries the card's scalar fields and its child-row counts.
   */
  function CardOutput(c: Card): seq<OutputRow>
  {
    var fields := BasicRowOf(c).fields;
    var counts := CardCounts(c);
    var ps := PriceRows(c);
    if ps == [] then
      [OutputRow(c.id + "_unknown", fields, counts, "unknown", NoQuote)]
    else
      seq(|ps|, i requires 0 <= i < |ps| =>
        OutputRow(c.id + "_" + VariantName(ps[i].variant), fields, counts,
                  VariantName(ps[i].variant), ps[i].quote))
  }
}
