/**
 * The per-card win rates: `getCardInDeckWinRates` (games played with the card
 * in the deck) and `getGameInHandWR` (games with the card in hand).
 */
module CardRates {
  import opened Schema
  import opened SafeDivision
  import opened Order
  import opened Grouping
  import opened Codec

  // ----- getCardInDeckWinRates -----

  datatype CardRate = CardRate(cardId: nat, wins: nat, gamesPlayed: nat, winRate: real)

  function CardOf(r: CardGameStat): nat {
    r.cardId
  }

  function Wins(r: CardGameStat): nat {
    r.winCount
  }

  function Games(r: CardGameStat): nat {
    r.gameCount
  }

  /** The query's `where`: copies in [minCopies, maxCopies], and the archetype unless ALL is selected. */
  predicate InWindow(r: CardGameStat, sel: Selection, minCopies: int, maxCopies: int) {
    minCopies <= r.copies <= maxCopies && sel.Admits(r.archId)
  }

  function Kept(stats: seq<CardGameStat>, sel: Selection, minCopies: int, maxCopies: int): seq<CardGameStat> {
    Where(stats, (r: CardGameStat) => InWindow(r, sel, minCopies, maxCopies))
  }

  /** Games played, within the window, by decks holding card c. */
  function CardGames(stats: seq<CardGameStat>, sel: Selection, minCopies: int, maxCopies: int, c: nat): nat {
    KeyedSum(Kept(stats, sel, minCopies, maxCopies), CardOf, c, Games)
  }

  function CardWins(stats: seq<CardGameStat>, sel: Selection, minCopies: int, maxCopies: int, c: nat): nat {
    KeyedSum(Kept(stats, sel, minCopies, maxCopies), CardOf, c, Wins)
  }

  function RateCard(r: CardRate): nat {
    r.cardId
  }

  /**
   * The table: one row per card with a row inside the window, in id order,
   * holding the card's summed wins and games and its guarded rate.
   */
  function InDeckWinRates(stats: seq<CardGameStat>, sel: Selection, minCopies: int, maxCopies: int): (table: seq<CardRate>)
    ensures KeysOf(table, RateCard) == GroupKeys(Kept(stats, sel, minCopies, maxCopies), CardOf)
    ensures Increasing(KeysOf(table, RateCard), NatLt)
    ensures forall c :: c in KeysOf(table, RateCard) <==> HasKey(Kept(stats, sel, minCopies, maxCopies), CardOf, c)
    ensures forall i :: 0 <= i < |table| ==>
      table[i].wins == CardWins(stats, sel, minCopies, maxCopies, table[i].cardId)
      && table[i].gamesPlayed == CardGames(stats, sel, minCopies, maxCopies, table[i].cardId)
      && table[i].winRate == SafeRatio(table[i].wins as real, table[i].gamesPlayed)
  {
    var kept := Kept(stats, sel, minCopies, maxCopies);
    var ids := GroupKeys(kept, CardOf);
    var table := seq(|ids|, i requires 0 <= i < |ids| =>
      var w, g := KeyedSum(kept, CardOf, ids[i], Wins), KeyedSum(kept, CardOf, ids[i], Games);
      CardRate(ids[i], w, g, SafeRatio(w as real, g)));
    assert KeysOf(table, RateCard) == ids;
    table
  }

  /** Σ games over the table is Σ games over the rows inside the window: each row lands in one card. */
  function TableGames(table: seq<CardRate>): nat {
    if table == [] then 0 else table[0].gamesPlayed + TableGames(table[1..])
  }

  lemma {:induction false} TableGamesIsGroupTotal(kept: seq<CardGameStat>, ids: seq<nat>, table: seq<CardRate>)
    requires |table| == |ids|
    requires forall i :: 0 <= i < |ids| ==> table[i].gamesPlayed == KeyedSum(kept, CardOf, ids[i], Games)
    ensures TableGames(table) == GroupTotal(kept, CardOf, ids, Games)
  {
    if ids != [] {
      TableGamesIsGroupTotal(kept, ids[1..], table[1..]);
    }
  }

  lemma InDeckGamesConserved(stats: seq<CardGameStat>, sel: Selection, minCopies: int, maxCopies: int)
    ensures TableGames(InDeckWinRates(stats, sel, minCopies, maxCopies)) == SumOf(Kept(stats, sel, minCopies, maxCopies), Games)
  {
    var kept := Kept(stats, sel, minCopies, maxCopies);
    var ids := GroupKeys(kept, CardOf);
    var table := InDeckWinRates(stats, sel, minCopies, maxCopies);
    assert forall i :: 0 <= i < |ids| ==> ids[i] == KeysOf(table, RateCard)[i] == table[i].cardId;
    TableGamesIsGroupTotal(kept, ids, table);
    NatLtStrictTotal();
    IncreasingIsDistinct(ids, NatLt);
    EveryKeyIsGroupKey(kept, CardOf);
    GroupsPartitionTotal(kept, CardOf, ids, Games);
  }

  /**
   * Narrowing the query, to one archetype or to a smaller copies window,
   * never gives a card more games.
   */
  lemma NarrowerWindowHasFewerGames(stats: seq<CardGameStat>, arch: nat, allId: nat,
                                    minCopies: int, maxCopies: int, wideMin: int, wideMax: int, c: nat)
    requires wideMin <= minCopies && maxCopies <= wideMax
    ensures CardGames(stats, OneArchetype(arch), minCopies, maxCopies, c)
         <= CardGames(stats, AllArchetypes(allId), wideMin, wideMax, c)
  {
    KeyedSumWhereMonotone(stats, CardOf, c, Games,
                          (r: CardGameStat) => InWindow(r, OneArchetype(arch), minCopies, maxCopies),
                          (r: CardGameStat) => InWindow(r, AllArchetypes(allId), wideMin, wideMax));
  }

  lemma {:induction false} KeptWinsBounded(kept: seq<CardGameStat>, c: nat)
    requires forall x :: x in kept ==> x.winCount <= x.gameCount
    ensures KeyedSum(kept, CardOf, c, Wins) <= KeyedSum(kept, CardOf, c, Games)
  {
    if kept != [] {
      assert kept[0] in kept;
      assert forall x :: x in kept[1..] ==> x in kept;
      KeptWinsBounded(kept[1..], c);
    }
  }

  /** Where no row records more wins than games, every in-deck rate is a proportion. */
  lemma InDeckRatesAreProportions(stats: seq<CardGameStat>, sel: Selection, minCopies: int, maxCopies: int, c: nat)
    requires forall x :: x in stats ==> x.winCount <= x.gameCount
    ensures 0.0 <= SafeRatio(CardWins(stats, sel, minCopies, maxCopies, c) as real, CardGames(stats, sel, minCopies, maxCopies, c)) <= 1.0
  {
    KeptWinsBounded(Kept(stats, sel, minCopies, maxCopies), c);
    RateIsProportion(CardWins(stats, sel, minCopies, maxCopies, c), CardGames(stats, sel, minCopies, maxCopies, c));
  }

  // ----- getGameInHandWR -----

  datatype HandRate = HandRate(cardId: nat, gamesInHand: nat, winRate: real)

  /** A derived row with its guarded in-hand rate; `wins_in_hand` is dropped. */
  function HandRow(d: DerivedStat): HandRate {
    HandRate(d.cardId, d.gamesInHand, SafeRatio(d.winsInHand as real, d.gamesInHand))
  }

  function HandKey(h: HandRate): nat {
    h.cardId
  }

  /** The key of `CardDerivedStats`. */
  function DerivedKey(d: DerivedStat): (nat, nat) {
    (d.cardId, d.archId)
  }

  function DerivedCard(d: DerivedStat): nat {
    d.cardId
  }

  /**
   * The rows of the resolved archetype id (the query filters on it even for
   * ALL, which names a stored aggregate), rated and sorted by card id.
   */
  function GameInHandWR(derived: seq<DerivedStat>, sel: Selection): (table: seq<HandRate>)
    requires KeysDistinct(derived, DerivedKey)
    ensures |table| == |Where(derived, (d: DerivedStat) => d.archId == sel.ResolvedId())|
    ensures SortedBy(table, HandKey, NatLt)
    ensures forall h :: h in table <==> exists d :: d in derived && d.archId == sel.ResolvedId() && h == HandRow(d)
  {
    var kept := Where(derived, (d: DerivedStat) => d.archId == sel.ResolvedId());
    WhereKeepsKeysDistinct(derived, (d: DerivedStat) => d.archId == sel.ResolvedId(), DerivedKey);
    var rated := seq(|kept|, i requires 0 <= i < |kept| => HandRow(kept[i]));
    assert KeysDistinct(rated, HandKey) by {
      forall i, j | 0 <= i < j < |rated| ensures HandKey(rated[i]) != HandKey(rated[j]) {
        assert kept[i] in kept && kept[j] in kept;
        assert DerivedKey(kept[i]) != DerivedKey(kept[j]);
      }
    }
    assert forall h :: h in rated <==> exists d :: d in kept && h == HandRow(d) by {
      forall h ensures h in rated <==> exists d :: d in kept && h == HandRow(d) {
        if exists d :: d in kept && h == HandRow(d) {
          var d :| d in kept && h == HandRow(d);
          var i :| 0 <= i < |kept| && kept[i] == d;
          assert rated[i] == h;
        }
      }
    }
    NatLtStrictTotal();
    SortBy(rated, HandKey, NatLt)
  }

  /** Where no card was won with more often than held, every in-hand rate is a proportion. */
  lemma HandRatesAreProportions(derived: seq<DerivedStat>, sel: Selection)
    requires KeysDistinct(derived, DerivedKey)
    requires forall d :: d in derived ==> d.winsInHand <= d.gamesInHand
    ensures forall h :: h in GameInHandWR(derived, sel) ==> 0.0 <= h.winRate <= 1.0
  {
    forall h | h in GameInHandWR(derived, sel) ensures 0.0 <= h.winRate <= 1.0 {
      var d :| d in derived && d.archId == sel.ResolvedId() && h == HandRow(d);
      RateIsProportion(d.winsInHand, d.gamesInHand);
    }
  }
}
