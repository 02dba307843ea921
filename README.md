# Pokémon TCG card flattening, modelled in Dafny

`get_data.py` downloads every card of the Pokémon Trading Card Game API and
writes them as one flat CSV table. The work is done in two stages.

1. **Per-card extractors.**
   - `extract_basic_card_data` turns a nested card record into one scalar row. It reads through optional nested objects (set, legalities, images, ancient trait). It joins the rules texts with `", "`. It fans the first two types and first four subtypes out into numbered columns. It keeps the national Pokédex number only when the card lists exactly one.
   - `extract_abilities_data`, `extract_attacks_data`, `extract_prices_data`, `extract_resistances_data` and `extract_weaknesses_data` each produce zero or more child rows per card. Every child row carries the card's `card_id`.
   - `extract_prices_data` emits one row per quoted price variant, in the fixed order normal, holofoil, reverseHolofoil, firstEditionHolofoil, firstEditionNormal.
2. **The combine step of `main`.**
   - The child rows of all cards are gathered into tables.
   - Four of them are counted per card (`groupby('card_id').size()`).
   - The counts, then the price rows, are left-joined onto the scalar rows by `card_id`.
   - A missing `price_type` becomes `"unknown"`.
   - The key `card_type_id = card_id + "_" + price_type` is added.
   - `card_id` is dropped and the key is moved to the front.

The model is in six modules, one file each:

| file | module | contents |
|---|---|---|
| `wrappers.dfy` | `Wrappers` | `Option` and `Result` |
| `cards.dfy` | `Cards` | The input card record. Every nested object and list is an `Option`. |
| `extract.dfy` | `Extract` | The six extractors. The scalar row is a pure function. Each child extractor is a method with the loop (or the chain of `if`s) of the source, proved equal to a reference function. |
| `tables.dfy` | `Tables` | The table operations the combine step uses, written over sequences of keyed rows. |
| `combine.dfy` | `Combine` | Two parts, each proved equal to the other. `Denormalise` is the whole combine step as a function. `BuildTable`, `ExtractTables` and `MergeCountTables` are the step as the program runs it. |
| `guarantees.dfy` | `Guarantees` | What a run guarantees. |

The table operations in `Tables` are:
- the list comprehension `FlatMap`
- `groupby().size()` as `GroupSize`
- `merge(how='left')` as `LeftJoin`
- the column-list edits `DropColumn` and `MoveToFront`

The key fact proved is `Guarantees.DenormaliseByCard`. When card identifiers are distinct, the joined table is exactly the concatenation, card after card, of `Combine.CardOutput(c)`. That function computes a card's rows from the card alone. The per-card and whole-run properties are then proved about it.

Errors that abort the run are modelled as `Failure` results:
- **An attack with no cost list.** `', '.join(None)` raises a `TypeError`. This is `AttackCostMissing(card id)`.
- **An empty child table.** An empty data frame has no `card_id` column, so `groupby`/`merge` raise a `KeyError`. This is `MissingCardIdColumn(table)`.

The card id and the table name are added by the model to record where the run stops. The program's own exceptions do not carry them.

## Model

| member | source | states |
|---|---|---|
| Extract.Join | get_data.py:34 | `', '.join` gives the empty string for no elements and the element itself for one. For more, its length is the total element length plus one separator between each pair. |
| Extract.JoinAppend | get_data.py:34 | Joining two non-empty lists is joining each, with one separator between them. With the empty and one-element cases, this fixes every character of a join. |
| Extract.BasicRowOf | get_data.py:13-60 | `extract_basic_card_data` never fails. `card_id` is the card's id, and the ten plain columns (name, hp, rarity, artist, supertype, evolvesFrom, flavorText, convertedRetreatCost, regulationMark, number) are copied verbatim. The derived columns are stated by FanOutColumns, PokedexNumberColumn, RulesColumn and NestedObjectsMayBeAbsent. |
| Extract.FanOutColumns | get_data.py:52-57 | Type column k (k < 2) and subtype column k (k < 4) hold list element k exactly when the list has more than k elements, and are absent otherwise. |
| Extract.ExtraTypesDropped | get_data.py:52-53 | Types beyond the second do not change the scalar row, whatever the card's subtypes. |
| Extract.ExtraSubtypesDropped | get_data.py:54-57 | Subtypes beyond the fourth do not change the scalar row, whatever the card's types. |
| Extract.PokedexNumberColumn | get_data.py:58 | `nationalPokedexNumber` is present exactly when the list is present with exactly one element, and then it is that element. |
| Extract.RulesColumn | get_data.py:34 | `rules` is absent exactly when the list is absent or empty. Otherwise it is the rules joined with `", "`: with one rule, that rule. Its length is the rules' total length plus 2 per separator. |
| Extract.NestedObjectsMayBeAbsent | get_data.py:24-51 | An absent set, legalities, set images, images or ancient trait blanks the columns read through it, and never aborts. A present one has each of its fields copied to its column. `card_id` is the card's id. |
| Extract.AbilityRows | get_data.py:72-81 | One ability row per ability, so an absent or empty list gives none. Every row carries the card's id. |
| Extract.ExtractAbilities | get_data.py:62-81 | The append loop returns exactly `AbilityRows(card)`. |
| Extract.AttackRowsOf | get_data.py:93-104 | A failure always names the card (`AttackCostMissing(id)`), and a success has one row per attack. |
| Extract.AttackRowsOfSpec | get_data.py:93-104 | Attack extraction fails exactly when some attack has no cost list. On success, row i carries the card id, attack i's name and its cost joined with `", "`. |
| Extract.ExtractAttacks | get_data.py:83-104 | The append loop, which returns early on a missing cost, returns exactly `AttackRows(card)`. |
| Extract.VariantName | get_data.py:119-168 | No `price_type` tag contains `'_'`, and none is `"unknown"`. |
| Extract.PriceRows | get_data.py:116-169 | There are at most 5 price rows, and none when `tcgplayer` or its `prices` is absent. Every row carries the card's id. Rows come in strictly increasing variant order. Every row copies the quote of its variant verbatim, and every quoted variant has a row. |
| Extract.PriceVariantsDistinct | get_data.py:119-168 | No two price rows of a card share a variant. |
| Extract.ExtractPrices | get_data.py:106-169 | The five `if … append` blocks return exactly `PriceRows(card)`. |
| Extract.ResistanceRows | get_data.py:181-189 | One resistance row per resistance, so an absent or empty list gives none. Every row carries the card's id. |
| Extract.WeaknessRows | get_data.py:201-209 | One weakness row per weakness, so an absent or empty list gives none. Every row carries the card's id. |
| Extract.ExtractResistances | get_data.py:171-189 | The append loop returns exactly `ResistanceRows(card)`. |
| Extract.ExtractWeaknesses | get_data.py:191-209 | The append loop returns exactly `WeaknessRows(card)`. |
| Tables.GroupSize | get_data.py:232-235 | `groupby('card_id').size()`: one row per key that occurs, with no key twice. Each row's count is the positive number of rows with that key. A key is listed exactly when some row has it. |
| Tables.GroupSizeLookup | get_data.py:232-242 | Looking a key up in a group-size table finds at most one row. It gives the number of rows with that key, or nothing (not 0) when there are none. |
| Tables.LeftJoin | get_data.py:242 | `merge(how='left')` gives at least as many rows as the left table. LeftJoinRows states that every left row appears. |
| Tables.LeftJoinRows | get_data.py:242 | Every joined row pairs a left row with a right row of the same key, or with nothing exactly when no right row matches. Every left row appears. |
| Tables.LeftJoinIsFlatten | get_data.py:242 | `merge(how='left')` takes each left row in order, then all its matching right rows in right-table order, or one row with nothing when none match. |
| Tables.LeftJoinOneToOne | get_data.py:242 | When each left row matches at most one right row, the join keeps the left rows one for one, each paired with its match or with nothing. |
| Tables.DropColumn | get_data.py:247 | The result is the column list without the dropped column and with every other column kept. |
| Tables.MoveToFront | get_data.py:250-251 | The named column comes first, followed by all the others in their order. No column is lost or added. |
| Tables.ReplaceIdColumn | get_data.py:246-251 | Appending a key column, dropping the leading id column and moving the key to the front yields the key followed by the remaining columns in order. |
| Combine.FinalColumnsLayout | get_data.py:238-251 | The written header is `card_type_id`, then the scalar columns without `card_id`, then the four count columns, then the six price columns: 45 columns, with no `card_id`. |
| Combine.CompositeKey | get_data.py:246 | The key is the card id, then `'_'`, then the price type: its length is their total plus one. KeyRoundTrip and KeyInjective give its inverse. |
| Combine.KeyRoundTrip | get_data.py:246 | A key splits at its last underscore back into the card id and the price type, whenever the price type has no `'_'`. |
| Combine.KeyInjective | get_data.py:246 | Two keys built from underscore-free price types are equal only when both the card ids and the price types are equal. |
| Combine.AllAttackRows | get_data.py:218 | The attack comprehension can fail only with a missing attack cost. AllAttackRowsFlat and AllAttackRowsFirstFailure state when it fails, and what it yields. |
| Combine.AllAttackRowsFlat | get_data.py:218 | The attack comprehension fails exactly when some card's attacks fail. Otherwise it is the concatenation of the cards' attack rows. |
| Combine.AllAttackRowsFirstFailure | get_data.py:218 | When the attack comprehension fails, its error names the first card whose extraction fails. |
| Combine.MergeAll | get_data.py:240-242 | The merges over the count tables never drop a scalar row. MergeAllPointwise states the rows exactly when the keys are distinct. |
| Combine.Finalize | get_data.py:245-247 | A row with no price gets price type `"unknown"` and empty price columns. A priced row gets its variant's tag and quote verbatim. The key is `card_id + "_" + price_type`, and the scalar fields and counts are carried over. |
| Combine.Denormalise | get_data.py:216-251 | A successful run has at least one card and at least as many rows as cards. EveryCardAppears states that every card has its rows in the output (when ids are distinct). RunFailsExactlyWhen states when it aborts, and DenormaliseByCard states its rows. |
| Combine.ExtractTables | get_data.py:216-221 | The six comprehensions, run as one loop over the cards, give the scalar table and the concatenated child tables. On a missing attack cost they give the comprehension's error. |
| Combine.MergeCountTables | get_data.py:240-242 | The merge loop over the count tables equals merging them one after another (`MergeAll`). |
| Combine.BuildTable | get_data.py:216-251 | `main` from the fetched cards to the final frame produces exactly `Denormalise(cards)`, including every abort. |
| Guarantees.MergeCountsPointwise | get_data.py:242 | Merging a count table with distinct keys adds exactly one column to each row, holding that row's count or nothing, and adds no rows. |
| Guarantees.MergeAllPointwise | get_data.py:240-242 | The merge loop over count tables keeps the scalar rows one for one. It appends, per table, the count for the row's key. |
| Guarantees.CountForCard | get_data.py:232-242 | With distinct ids, a card's merged count is the size of its own collection, or absent when the collection is empty. |
| Guarantees.AttackCountForCard | get_data.py:218-242 | With distinct ids, a card's merged attack count is its number of attacks, or absent when it has none. |
| Guarantees.MergedScalarRows | get_data.py:240-242 | When the count tables give each card its own counts, the merged table has one row per card, in order, holding its scalar row and those counts. |
| Guarantees.CountsForCard | get_data.py:232-242 | With distinct ids, the four count columns of a card are its numbers of abilities, attacks, resistances and weaknesses, each absent when 0. |
| Guarantees.WideRows | get_data.py:240-242 | After the count merges there is exactly one row per card, in card order, holding the card's scalar row and its own four counts. |
| Guarantees.CardPiece | get_data.py:242-247 | Joining one card's row with its own price rows and applying the fill, the key and the drop gives exactly `CardOutput(c)`. |
| Guarantees.JoinByCard | get_data.py:242-247 | The price merge and finalisation over all cards give the concatenation of each card's `CardOutput`. |
| Guarantees.DenormaliseByCard | get_data.py:216-251 | With distinct ids, a successful run's table is exactly the concatenation, in card order, of each card's rows computed from that card alone. |
| Guarantees.CardRows | get_data.py:242-246 | A card yields one row per price row, or exactly one `"unknown"` row with empty price columns, so 1 to 5 rows. Every row repeats the card's scalar fields and counts. Every row is keyed `card_id + "_" + price_type`. The price type is `"unknown"` exactly when the card has no price rows. |
| Guarantees.CardPriceTypesDistinct | get_data.py:119-168 | No two rows of one card share a price type. |
| Guarantees.CardQuotesSound | get_data.py:119-168 | Every priced row of a card carries, verbatim, the quote of the variant its price type names. |
| Guarantees.CardQuotesComplete | get_data.py:119-168 | Every quoted variant of a card has a row carrying that quote. |
| Guarantees.CardKeysUnique | get_data.py:246 | The keys of one card's rows are pairwise distinct. |
| Guarantees.OtherCardOtherKey | get_data.py:246 | Rows of two cards with different ids have different keys. |
| Guarantees.KeysUnique | get_data.py:246 | With distinct ids, the keys of all cards' rows are pairwise distinct. |
| Guarantees.OutputKeysUnique | get_data.py:246-251 | With distinct card ids, no two rows of a successful run share a `card_type_id`. |
| Guarantees.EveryCardAppears | get_data.py:240-245 | With distinct ids, every row of every card is in the output, and there are between `|cards|` and `5·|cards|` rows. |
| Guarantees.PriceRowsEmpty | get_data.py:116-169 | A card has no price rows exactly when it has no quoted variant. |
| Guarantees.AttackFailure | get_data.py:218 | The attack comprehension fails exactly when some attack lacks a cost, and then with `AttackCostMissing`. Otherwise it is empty exactly when no card has an attack. |
| Guarantees.AbortNamesFirstCard | get_data.py:218 | A missing attack cost aborts the run at the first card whose attack extraction fails. The model records that card's id in the error; Python's exception does not carry it. |
| Guarantees.RunFailsExactlyWhen | get_data.py:218-242 | The run aborts exactly when an attack lacks a cost, or no card has an ability, an attack, a resistance, a weakness, or a quoted price. The error is an attack-cost error exactly when a cost is missing. |

## Left out

- Fetching and configuration (get_data.py:7-11, 213) are network I/O through the card SDK. The cards are a parameter of the model.
- The CSV write and the message (get_data.py:254-255) are file and console I/O. The message names `final_pokemon_data.csv` while the file written is `raw_pokemon_data.csv`. This is cosmetic and not modelled.
- Data frame construction and dtype inference (get_data.py:224-229) are replaced by sequences of typed rows. After the left joins pandas stores counts as floats with `NaN` for a missing count; the model uses `Option<nat>`, with `None` for `NaN`.
- Tables.GroupSize: lists keys in order of first occurrence, whereas pandas sorts them. A key occurs at most once in a count table, so the left joins do not depend on this order.
- Combine.Denormalise: the source merges all five tables in one loop. The model merges the four count tables in a loop and then the price table on its own. The rows and the column order are the same.
- pandas suffixes (`_x`, `_y`) for clashing column names are not modelled: no two merged tables share a column other than `card_id`.
- Duplicate card ids: the guarantees in `Guarantees` assume distinct card ids. With duplicates, pandas multiplies the matching rows, and `Denormalise` models that as written, but nothing is proved about it.
- Error payloads: Python's `TypeError` from `', '.join(None)` names no card, and pandas' `KeyError` names only `'card_id'`, not the table. The card id in `AttackCostMissing` and the table name in `MissingCardIdColumn` record where the model stops; the program reports neither.
- Price amounts are opaque values that are copied and never inspected. Floating point is not modelled.
- Strings are sequences of characters with no encoding.
- utilities.py is not part of this model. Its summaries and plots are pandas and matplotlib reporting on the written table.
