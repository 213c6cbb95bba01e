/**
 * The rows each query fetches from the per-set store, one datatype per select.
 * Counters are naturals; the store hands them over already filtered by the
 * query's `where` clause unless a model says otherwise.
 */
module Schema {
  import opened Tables

  /** A row of `CardInfo`: `color` is the card's colour bitmask (0 for colourless), a land has "L" in `cardType`. */
  datatype Card = Card(id: nat, name: string, color: nat, cardType: string, rarity: string)

  /** `ArchGameStats` summed by `(turns, won)` for one archetype: how many games of that length had that outcome. */
  datatype TurnCount = TurnCount(turns: nat, won: bool, games: nat)

  /** `ArchGameStats` as the format overview selects it: one game-count row with its archetype id. */
  datatype ArchTurnCount = ArchTurnCount(archId: nat, turns: nat, won: bool, games: nat)

  /** A whole `ArchGameStats` row: three key columns, `game_count`, then the card-count columns per mana value. */
  datatype GameStat = GameStat(archId: nat, turns: nat, won: bool, gameCount: nat, manaCounts: seq<nat>)

  /** A row of `CardGameStats`: games a deck of archetype `archId` with `copies` copies of the card won and played. */
  datatype CardGameStat = CardGameStat(cardId: nat, archId: nat, copies: nat, winCount: nat, gameCount: nat)

  /** A row of `ArchStartStats`: games started after `numMulligans` mulligans, on the play or on the draw. */
  datatype StartStat = StartStat(archId: nat, numMulligans: nat, onPlay: bool, winCount: nat, gameCount: nat)

  /** A row of `CardDerivedStats`: fields precomputed upstream for a (card, archetype) pair. */
  datatype DerivedStat = DerivedStat(cardId: nat, archId: nat, gamesInHand: nat, winsInHand: nat,
                                     adjustedIwd: real, inclusionImpact: real)

  /** A row of `Archetypes` with the running totals of that archetype. */
  datatype ArchTotals = ArchTotals(archLabel: string, numDrafts: nat, numWins: nat, numLosses: nat)

  /** A row of `Archetypes` as the label listing selects it. */
  datatype ArchLabel = ArchLabel(id: nat, archLabel: string)

  /** A row of `Decklists` as the meta distribution reads it: `rank` is a rank name or NULL. */
  datatype RankedDeck = RankedDeck(mainColors: string, rank: Option<string>)

  /** A row of `Decklists` as the mean decklist reads it: a numeric rank or NULL, wins, one count per card of the pool. */
  datatype Decklist = Decklist(mainColors: string, archId: nat, rank: Option<int>, wins: int, cardCounts: seq<nat>)

  /** A row of `DraftPacks`: how often each card column was seen at this pack and pick. */
  datatype PackRow = PackRow(packNumber: nat, pickNumber: nat, counts: seq<nat>)
}
