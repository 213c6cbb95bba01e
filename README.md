# Derived statistics of a Limited-format stats service

This project models the derivation layer of `stataccess.py`, the module that turns the
aggregate tables of a draft-statistics database into win rates, records and summary tables.
The SQL fetches are not modelled. Each query's rows arrive as an input sequence of records,
such as `Schema.TurnCount`, `Schema.CardGameStat` or `Schema.StartStat`. A SQL `GROUP BY ... SUM`
becomes a keyed sum over those rows (`Grouping.KeyedSum`); a key with no row sums to zero. A
pandas `NaN` left by a join on the index, and SQL's `NULL` from `AVG` over no rows, become
`Tables.Option.None`. A lookup that raises in the source becomes `Tables.Result.Err` with a
`Tables.Failure` saying which lookup failed.

Modules, one per file:

- `SafeDivision`: the zero-denominator guard (`games.mask(games == 0, 1)` and `max(games, 1)`) that every rate uses.
- `Codec`: the parts of the archetype id scheme that the queries rely on.
  - An id's base colours are its low five bits.
  - "ALL" is a selection that the card queries handle specially. The label reaches the model already turned into a `Codec.Selection`. `getCardInDeckWinRates` and `getGameInHandWR` upper-case the label before testing it against 'ALL'. `makeCardTable` tests the label as given, so there 'all' takes the single-archetype path.
  - The format overview lists its 33 labels in a fixed order.
- `TurnHistogram`: the sparse `(turns, won) -> games` histogram, and the dense per-turn loop over it.
- `LengthBuckets`: `getRecordByLength`.
- `Speed`: `getArchAvgSpeed`.
- `Mulligans`: `getArchWinRatesByMulls`.
- `PlayDraw`: `getPlayDrawSplits`.
- `CopyBuckets`: `getCardRecordByCopies`.
- `CardRates`: `getCardInDeckWinRates` and `getGameInHandWR`.
- `Decks`: `getMetaDistribution` and `getMeanDecklist`.
- `ArchetypeQueries`: `getArchetypeLabels` and `getArchAvgCurve`.
- `ColorFilter`: `getCardsWithColor`.
- `FormatOverview`: `makeFormatOverviewTable`.
- `CardTable`: `makeCardTable`, covering GPWR, the pack-column rename loop, mean pick, the name-order assembly and the joined in-hand columns.
- Supporting modules: `Tables`, `Schema`, `Order` (strict orders and insertion sort), `Grouping` (filters and group-by sums) and `Text` (ASCII upper-casing and prefixes).

The source's loops are modelled as methods whose loops carry invariants and whose `ensures`
tie the result to a specification function:

- `LengthBuckets.RecordByLength`, `LengthBuckets.TallyRange` and `LengthBuckets.MiddleBuckets`;
- `Speed.ArchAvgSpeed`;
- `Mulligans.ArchWinRatesByMulls`;
- `PlayDraw.PlayDrawSplits`;
- `CopyBuckets.RecordByCopies`, which updates an `array` frame in place;
- `FormatOverview.FormatOverviewTable`, which overwrites an `array` frame row by row;
- `CardTable.RenameColumns`.

The vectorised pandas code is modelled as functions.

The model follows the code, including these behaviours a reader might not expect:

- `getRecordByLength` raises on an archetype with no rows, because `max()` of an empty column cannot bound `range`.
- The mean pick is `sum / max` of the per-pick counts. For counts 100, 50 and 10 it is 1.6, where a pick-weighted mean would give 2.3 (`CardTable.MeanPickExample`).
- For copies 1: 10/20, 4: 5/10 and 5: 2/4, the copies table reports 0.7 for bucket 4, where the merged bucket holds 7/14 (see Findings).
- The ALL row of the format overview weights the average game length by wins. Its sums run over all 33 frame rows, including the stored ALL row itself (`FormatOverview.AllLine`).

## Model

| member | source | states |
|---|---|---|
| SafeDivision.SafeRatio | stataccess.py:123-124 | a positive count times the guarded rate gives back the numerator; a zero count divides by one |
| SafeDivision.RateIsProportion | stataccess.py:123-124 | with wins at most games, a guarded rate lies in [0, 1] |
| Codec.CanonicalOrderShape | stataccess.py:513-514 | the overview order has 33 distinct labels and starts with ALL |
| TurnHistogram.Longest | stataccess.py:169 | `turns.max()` bounds every row and is attained by one |
| TurnHistogram.DenseIsBetween | stataccess.py:435-444 | the per-turn lookup loop, with absent keys as 0, sums exactly the histogram rows in the range |
| TurnHistogram.BetweenSplit | stataccess.py:151-175 | summing a range of lengths in two parts gives the whole range |
| LengthBuckets.TallyRange | stataccess.py:151-156 | the accumulating loop over lengths lo..hi returns the wins and the games of those lengths |
| LengthBuckets.MiddleBuckets | stataccess.py:158-166 | buckets 5..15 each hold the wins and games of exactly their length, after bucket 4 |
| LengthBuckets.RecordByLength | stataccess.py:129-179 | an empty histogram raises; otherwise 13 buckets 4..16, where 4 holds lengths 1–4 and 16 holds 16 and above, with guarded win rates and game-length rates |
| LengthBuckets.BucketsPartitionPlayedGames | stataccess.py:151-175 | the 13 buckets hold every game of at least one turn exactly once |
| LengthBuckets.TurnZeroIsDropped | stataccess.py:151 | games recorded at turn 0 are the only games no bucket holds |
| LengthBuckets.ShortGamesLeaveTopBucketEmpty | stataccess.py:169-175 | with no game of 16 turns or more, the top bucket is empty |
| Speed.ArchAvgSpeed | stataccess.py:432-452 | the densifying loop gives the histogram's statistics: the turn-weighted sums over the guarded counts, and their difference as speed; an empty histogram gives zeros and no speed |
| Speed.EmptyHistogramHasNoSpeed | stataccess.py:432 | an empty histogram reports zeros and no speed entry |
| Speed.GameLengthIsMixture | stataccess.py:446-448 | average game length × games = average win length × wins + average loss length × losses |
| Speed.AveragesWithinLongest | stataccess.py:446-448 | each average length lies between 0 and the longest game |
| Mulligans.ArchWinRatesByMulls | stataccess.py:297-309 | four rows from the fetched rows 2m (draw) and 2m + 1 (play) by label; fewer than 8 rows raise on the first missing label |
| Mulligans.RecordIsMixture | stataccess.py:303-308 | the total rate is the games-weighted mix of the play and draw rates, and all three are proportions |
| Mulligans.RecordExample | stataccess.py:306-308 | 10/20 on the draw and 15/20 on the play give 0.5, 0.75 and 0.625 |
| Mulligans.WinRatesByKey | stataccess.py:297-305 | the corrected lookup by (mulligans, side): four rows, each from its own keys |
| Mulligans.MullsFromSucceeds | stataccess.py:300-305 | the keyed lookup fails exactly when some (mulligans, side) key is absent |
| Mulligans.WinRatesByKeyIgnoresFetchOrder | stataccess.py:297-305 | the keyed rows do not depend on the order of the fetched rows |
| Mulligans.ByLabelAgreesOnOrderedFetch | stataccess.py:297-305 | on a fetch already in (mulligans, side) order with unique keys, the label lookup reads the intended rows |
| Mulligans.SwappedFetchMisreadsSides | stataccess.py:300-305 | on a fetch with the play side first, the label lookup reports the draw side's 2/8 as the play rate, where the keyed lookup reports 6/10 |
| PlayDraw.ArchIds | stataccess.py:324-326 | the ids of the sorted group index, increasing, each once, exactly the archetypes with a row |
| PlayDraw.PlayDrawSplits | stataccess.py:319-333 | succeeds exactly when every archetype has both sides; then one row per archetype in id order with each side's summed games and guarded rate; otherwise fails on the first archetype, in id order, that lacks a side |
| PlayDraw.SplitsConserveGames | stataccess.py:319-333 | the table's games, both sides of every archetype, add up to all fetched games |
| PlayDraw.SplitRatesAreProportions | stataccess.py:323 | with wins at most games per row, both rates are proportions |
| CopyBuckets.CopyKeys | stataccess.py:218-219 | the sorted group index: increasing, exactly the copy counts present |
| CopyBuckets.RecordByCopies | stataccess.py:214-224 | rows in increasing copy order: each count below 4 that is present, with its own sums and rate; then bucket 4 with the sums of every row of 4 or more copies and the as-written rate |
| CopyBuckets.TopGroupsAreMergedSum | stataccess.py:222 | `df.loc[4:].sum()` equals the sum over the fetched rows with at least 4 copies |
| CopyBuckets.TopRateIntendedIsProportion | stataccess.py:221-224 | the merged bucket's rate over its own merged games is a proportion |
| CopyBuckets.ThreeCountsTopRate | stataccess.py:221-224 | on copies 1: 10/20, 4: 5/10, 5: 2/4 the merged bucket holds 7/14, yet the rate is 0.7 |
| CopyBuckets.TopRateAsWrittenCanExceedOne | stataccess.py:221-224 | with 1/2 at 4 copies and 10/10 at 5, the reported rate is 5.5 |
| CardRates.InDeckWinRates | stataccess.py:116-125 | one row per card with a row in the copies window (and the archetype, unless ALL), in id order, with its summed wins and games and guarded rate |
| CardRates.InDeckGamesConserved | stataccess.py:116-125 | the table's games add up to the games of every row in the window |
| CardRates.NarrowerWindowHasFewerGames | stataccess.py:116-120 | one archetype or a narrower copies window never gives a card more games |
| CardRates.InDeckRatesAreProportions | stataccess.py:123-124 | with wins at most games per row, every in-deck rate is a proportion |
| CardRates.GameInHandWR | stataccess.py:246-253 | the derived rows of the resolved archetype id (ALL included), one per row, in card-id order, each with its guarded in-hand rate |
| CardRates.HandRatesAreProportions | stataccess.py:249-250 | with in-hand wins at most in-hand games, every in-hand rate is a proportion |
| Decks.MetaDistribution | stataccess.py:191-200 | one row per main-colour group of the counted decks, keys distinct and exactly the groups, with the group's count and its share of all counted drafts |
| Decks.SharesSumToOne | stataccess.py:197-200 | the draft counts add up to the counted decks, and the shares add up to 1 when a deck is counted |
| Decks.RankWindowByNumber | stataccess.py:192-196 | in a non-default window within 0..6, a deck is counted exactly when it is ranked and its rank number is in the window |
| Decks.NegativeBoundCountsFromEnd | stataccess.py:194 | for any window, a bound from -7 to -1 names the same rank as that bound plus 7, and a lower bound clamps to the start of the rank names |
| Decks.UnrankedOnlyInDefaultWindow | stataccess.py:192-196 | an unranked deck is counted exactly when the window is the default 0..6 |
| Decks.SelectedDecks | stataccess.py:355-367 | a deck is selected exactly when it is fetched and passes the archetype, wins and rank clauses |
| Decks.ColumnMean | stataccess.py:353 | a card's mean is absent exactly when no deck is selected; otherwise times the number of selected decks it gives the card's total count over them |
| Decks.MeanDecklist | stataccess.py:351-367 | the number of selected decks and one mean per card of the pool, absent exactly when no deck is selected, each the card's mean over the selected decks |
| Decks.DefaultWindowsKeepWholeArchetype | stataccess.py:355-362 | the default wins and rank windows filter on the archetype alone |
| Decks.MeanWithinBound | stataccess.py:353 | a mean count never exceeds the most copies any deck holds |
| Decks.SubArchetypeLabelSelectsById | stataccess.py:363-367 | for every label: one ending in a digit selects by archetype id, any other by its upper-cased main colours, and a label selects the same decks in either case |
| ArchetypeQueries.ArchetypeLabels | stataccess.py:384-386 | "ALL" in any case lists every archetype; otherwise exactly those whose id has the colour number as its low five bits |
| ArchetypeQueries.ListingIsSubdivisions | stataccess.py:384-386 | for a colour number below 32, the listing is exactly the ids 32k + c |
| ArchetypeQueries.ColorListingsPartition | stataccess.py:384-386 | listing the 32 colour numbers in turn lists every archetype exactly once |
| ArchetypeQueries.ArchAvgCurve | stataccess.py:69-79 | one value per mana value: the archetype's column total divided by its total games, or the bare total when it has no games |
| ArchetypeQueries.CurvePoint | stataccess.py:74-76 | the mean per game times the total games gives back the column total; with no games it is the total itself |
| ArchetypeQueries.CurveWithinBound | stataccess.py:74-76 | with at most `bound` cards of a mana value per game, the mean is in [0, bound] |
| ArchetypeQueries.OtherArchetypesIgnored | stataccess.py:69-70 | another archetype's rows do not change the curve |
| ColorFilter.LetterIndex | stataccess.py:34-41 | the letter's position in W, U, R, B, G, C, or absent exactly when the letter is not one of them |
| ColorFilter.CardsWithColor | stataccess.py:31-56 | an unknown letter selects nothing; otherwise exactly the cards the mask keeps: colourless (optionally no lands), bit set, or exactly that colour |
| ColorFilter.SelectionKeepsCardOrder | stataccess.py:42-56 | for every letter and flag, the colourless branch included, each next card of the table extends the selection by itself exactly when the mask keeps it, so the selection is in table order |
| ColorFilter.UnknownLetterSelectsNothing | stataccess.py:37-41 | any string whose upper-cased form is not one of the six letters selects nothing |
| ColorFilter.LetterCaseIgnored | stataccess.py:32-37 | a letter selects the same cards as its upper-cased form |
| ColorFilter.ExactIsMulticolor | stataccess.py:48-52 | a card of exactly one colour is also found in multicolour mode |
| ColorFilter.RedBlackCard | stataccess.py:47-52 | a card with mask 12 is found under R (bit 2) and B (bit 3) in multicolour mode only |
| ColorFilter.ColorlessSelection | stataccess.py:42-46 | the colourless letter finds only colour 0, and lands only when lands are included |
| FormatOverview.FormatOverviewTable | stataccess.py:491-515 | the in-place per-id overwrite loop and the ALL update give the overview read out in canonical order |
| FormatOverview.OverviewLabels | stataccess.py:513-515 | the table lists exactly the 33 canonical labels, in order |
| FormatOverview.ArchetypeLine | stataccess.py:495-502 | a line of a colour label carries its stored counts, games = wins + losses, its win rate and its own histogram's lengths, which are 0 without stat rows; aggression = loss length − win length |
| FormatOverview.AllLine | stataccess.py:503-511 | the ALL line sums the counts of all 33 stored rows; its lengths are win-weighted, or loss-weighted for losses, over the frame |
| FormatOverview.FrameAggression | stataccess.py:502-506 | every frame row's aggression is its loss length minus its win length |
| CardTable.GamesPlayedPresent | stataccess.py:531-535 | a card has games played exactly when an admitted stats row is about it |
| CardTable.Gpwr | stataccess.py:545-546 | GPWR is present exactly when games played is |
| CardTable.GpwrIsInDeckRateOverAllCopies | stataccess.py:531-546 | GPWR and games played are the in-deck query's over the copies window [0, max] |
| CardTable.GpwrIsProportion | stataccess.py:545 | with wins at most games per row, GPWR is a proportion |
| CardTable.RenameColumns | stataccess.py:550-558 | the rename loop gives each column with a leading `pack_card_` removed, in column order |
| CardTable.StrippedRoundTrip | stataccess.py:553-557 | removing the prefix undoes adding it; a prefixed column is the prefix plus its name; other columns are unchanged |
| CardTable.Peak | stataccess.py:560 | `max(axis=1)` bounds every pick's count and is attained |
| CardTable.MeanOf | stataccess.py:560 | the mean pick is absent (NaN) exactly when every pick count is 0 |
| CardTable.PickCountsCoverColumn | stataccess.py:548-560 | the per-pick counts of a card add up to its count over every pack row |
| CardTable.MeanOfBounds | stataccess.py:560 | a mean pick lies between 1 and the number of picks |
| CardTable.MeanOfPermutation | stataccess.py:560 | reordering the picks does not change the mean pick |
| CardTable.FlatCountsMeanT | stataccess.py:560 | a card seen equally at each of the first t picks and never after has mean pick t |
| CardTable.MeanPickExample | stataccess.py:560 | counts 100, 50, 10 give 1.6, not the pick-weighted 2.3 |
| CardTable.SortedEntries | stataccess.py:561 | the name-sorted mean-pick series is sorted by name and holds exactly the entries |
| CardTable.SortedCards | stataccess.py:562 | the name-sorted cards are sorted by name and hold exactly the cards |
| CardTable.CardTable | stataccess.py:527-572 | raises exactly when the card and column counts differ; otherwise the cards in name order, the i-th card given the i-th mean pick of the name-sorted series and its own id-joined columns |
| CardTable.JoinedColumns | stataccess.py:545-570 | games played and GPWR are present exactly when an admitted row exists; the in-hand columns are absent exactly when the resolved archetype has no derived row for the card, and otherwise hold that row's values and guarded rate |
| CardTable.MeanPickByName | stataccess.py:560-563 | the mean pick of the card's own column, absent for a card no column names |
| CardTable.CardTableByName | stataccess.py:560-572 | the corrected table: the cards in name order, each with the mean pick of its own column and its id-joined columns |
| CardTable.CardTableAgreesWhenNamesMatch | stataccess.py:561-563 | when the columns name exactly the cards, the positional assignment equals the by-name table |
| CardTable.MeanPickMisattributed | stataccess.py:561-563 | with cards Ant and Cat and columns Bee and Cat, Ant receives Bee's mean pick, where the by-name table leaves it absent |

## Left out

- Database access becomes parameters. The connection, reflection and SQL text are replaced by the fetched rows. `set_abbr` and table-name lookups are not modelled.
- `cardInfo`, `getActiveSets` and `getMostRecentSet` only read a table and are not modelled. Their rows appear as inputs.
- `getArchRecord`, `getAverageWinShares` and `getArchetypeAvgMV` are not modelled; they are outside the modelled core.
- The codec functions `colorInt`, `archLabelToID` and `archIDtoLabel` live in another module, which is not part of this model. Their results are inputs: a resolved id, a colour number, and a list of labels by id.
- The step from a label to a `Codec.Selection` is not modelled. It differs between queries: `makeCardTable` compares the raw label with 'ALL', while `getCardInDeckWinRates` and `getGameInHandWR` compare its upper-cased form.
- JSON encoding, the `as_json` and `index_by_name` variants, and `print` are not modelled. Only id-indexed results are modelled.
- `round(..., 4)` in the mulligan rates is not modelled. Rates are exact.
- Floating point is modelled as exact reals.
- LengthBuckets.RecordByLength: `game_length_rate` is 0 when no game was bucketed, where pandas gives NaN.
- CopyBuckets.RecordByCopies: the fetch's card-name and archetype filter is not modelled; the rows given are those of the card.
- CopyBuckets.RecordByCopies: requires a row with exactly 4 copies, so every card never played as a 4-of, often the case for rares and mythics, is outside the modelled domain. The source handles such a card in one of two ways.
  - No row has 4 or more copies, as with an empty fetch: `df.loc[4:].sum()` is (0, 0), and `.loc[4]` appends the row (4, 0, 0) in order. Its rate is NaN, because `tempgames` has no label 4.
  - Some row has more than 4 copies: the appended row comes after those rows, e.g. index [1, 2, 5, 4]. `df.loc[:4]` on that unsorted index then keeps the rows above 4 with their own rates, next to the NaN-rated bucket 4.
- Decks.MetaDistribution: the store returns groups in unspecified order; the model lists them by first appearance.
- Decks.MetaDistribution and Decks.SelectedDecks: the two queries assume different types for the one `rank` column of the decklists. `getMetaDistribution` matches it against rank names with `IN`, so `Schema.RankedDeck` holds a name. `getMeanDecklist` compares it with `>=` and `<=` against numbers, so `Schema.Decklist` holds a number. Each query is modelled under its own assumption. On any one database one of the two filters meets a column of the other type, and what the store then does is not modelled.
- PlayDraw.PlayDrawSplits: rows are keyed by archetype id. Mapping ids to labels is the codec's job.
- ColorFilter.CardsWithColor: the colourless branch requires card ids to be positions. The source combines a position-indexed land mask with an id-indexed colour mask, and the model does not reproduce pandas' alignment when they differ.
- FormatOverview.FormatOverviewTable: requires the 33 stored labels to be the canonical ones. The codec must name ids 0..31 by distinct canonical labels other than ALL. Otherwise `.at` and `.loc[reorder]` fail or add rows.
- CardTable.CardTable: any pack column other than `pack_number` and `pick_number` is treated as a card column.
- CardTable.CardTable requires card names to be distinct and the renamed pack columns to be distinct. Otherwise the two sorts have no unique order.
- CardTable.InHandRowIsUnique: the derived statistics are taken as keyed by (card, archetype), as the table's key says.
- CardRates.GameInHandWR: requires the derived statistics to hold one row per (card, archetype). With duplicate rows pandas lists them all; that case is not modelled.
- CardTable.JoinedColumns: requires the same one-row-per-(card, archetype) key, so that a card's in-hand columns come from its one derived row.
- CardTable.CardTable: without that key assumption the model's join reads the first derived row of a card, where pandas raises on the duplicate `card_id` index; that error path is not modelled.
- Text.Upper and Text.EndsWithDigit handle ASCII only. Python's `str.upper()` folds every cased Unicode letter and can change the length ('ß' becomes "SS"), and `str.isnumeric()` also accepts characters such as '²', '٣' and '½'. CardsWithColor, MatchesArchetype and ArchetypeLabels inherit this restriction.
- CardTable.CardTable: `adjusted_GIHWR` is the constant 0, as in the source.

## Findings

| source | as written | input that shows it | evidently intended | confidence | as-written member | corrected member |
|---|---|---|---|---|---|---|
| stataccess.py:221-224 | bucket 4's rate divides the merged wins by the games of exactly 4 copies, because `tempgames` is taken before the merge | copies 1: 10/20, 4: 5/10, 5: 2/4 gives 7/10 = 0.7; 1/2 at 4 and 10/10 at 5 gives 5.5 | the merged wins over the merged games, 7/14 = 0.5 | not executed | CopyBuckets.TopRateAsWritten (CopyBuckets.ThreeCountsTopRate, CopyBuckets.TopRateAsWrittenCanExceedOne) | CopyBuckets.TopRateIntended (CopyBuckets.TopRateIntendedIsProportion) |
| stataccess.py:297-305 | `.loc[2m]` and `.loc[2m+1]` read the fetched rows by their original labels, which the in-place sort keeps, so the sort has no effect on which row is read | a fetch with the play side of 0 mulligans first: the play rate reported is the draw side's 2/8 | the row of each (mulligans, side) key: 6/10 on the play | not executed | Mulligans.ArchWinRatesByMulls (Mulligans.SwappedFetchMisreadsSides) | Mulligans.WinRatesByKey (Mulligans.MullsFromSucceeds, Mulligans.WinRatesByKeyIgnoresFetchOrder) |
| stataccess.py:561-563 | the mean picks are assigned by position after both sides are sorted by name, so a card gets another column's mean pick whenever the pack columns and the cards differ in name | cards Ant and Cat, pack columns Bee and Cat: Ant gets Bee's mean pick | each card gets the mean pick of its own column, absent when it has none | not executed | CardTable.CardTable (CardTable.MeanPickMisattributed) | CardTable.CardTableByName (CardTable.MeanPickByName, CardTable.CardTableAgreesWhenNamesMatch) |
