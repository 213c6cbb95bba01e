/**
 * The decklist queries: `getMetaDistribution` (drafts and meta share per
 * main colours) and `getMeanDecklist` (the mean count of every card over the
 * decks that pass the archetype, wins and rank filters).
 */
module Decks {
  import opened Tables
  import opened Schema
  import opened Order
  import opened Grouping
  import opened Text
  import opened SafeDivision

  // ----- getMetaDistribution -----

  /** The rank names by rank number; 0 stands for an unranked deck. */
  const RankNames: seq<Option<string>> :=
    [None, Some("bronze"), Some("silver"), Some("gold"), Some("platinum"), Some("diamond"), Some("mythic")]

  /** Where a Python slice bound lands in a list of length n: negatives count from the end, both clamp. */
  function SliceBound(i: int, n: nat): (b: nat)
    ensures b <= n
  {
    if i < 0 then (if i + n < 0 then 0 else i + n) else if i > n then n else i
  }

  /** Python's `s[start:stop]`. */
  function PySlice<T>(s: seq<T>, start: int, stop: int): (r: seq<T>)
    ensures |r| <= |s|
  {
    var a, b := SliceBound(start, |s|), SliceBound(stop, |s|);
    if a < b then s[a..b] else []
  }

  /** `rank_names[min_rank:max_rank+1]`. */
  function ValidRanks(minRank: int, maxRank: int): seq<Option<string>> {
    PySlice(RankNames, minRank, maxRank + 1)
  }

  /** The rank clause is added only when the window differs from the default 0..6. */
  predicate RankFilterActive(minRank: int, maxRank: int) {
    minRank != 0 || maxRank != 6
  }

  /** `rank IN (...)`: a NULL rank matches nothing, not even a NULL in the list. */
  predicate Counted(d: RankedDeck, minRank: int, maxRank: int) {
    !RankFilterActive(minRank, maxRank) || (d.rank.Some? && d.rank in ValidRanks(minRank, maxRank))
  }

  function CountedDecks(decks: seq<RankedDeck>, minRank: int, maxRank: int): seq<RankedDeck> {
    Where(decks, (d: RankedDeck) => Counted(d, minRank, maxRank))
  }

  function ColorsOf(d: RankedDeck): string {
    d.mainColors
  }

  function One(d: RankedDeck): nat {
    1
  }

  datatype MetaRow = MetaRow(mainColors: string, drafts: nat, metaShare: real)

  function MetaColors(r: MetaRow): string {
    r.mainColors
  }

  /** The main-colour groups of the counted decks, by first appearance. */
  function MetaGroups(kept: seq<RankedDeck>): (groups: seq<string>)
    ensures Distinct(groups)
    ensures forall m :: m in groups <==> exists d :: d in kept && d.mainColors == m
  {
    var groups := FirstSeen(KeysOf(kept, ColorsOf));
    forall m ensures m in groups <==> exists d :: d in kept && d.mainColors == m {
      if m in groups {
        var i :| 0 <= i < |KeysOf(kept, ColorsOf)| && KeysOf(kept, ColorsOf)[i] == m;
        assert kept[i] in kept;
      } else {
        forall d | d in kept ensures d.mainColors != m {
          var i :| 0 <= i < |kept| && kept[i] == d;
          assert KeysOf(kept, ColorsOf)[i] == d.mainColors;
        }
      }
    }
    groups
  }

  /**
   * One row per main-colour group with its `count(1)` and its share of all
   * counted drafts. The store's group order is not specified; the model lists
   * groups by first appearance.
   */
  function MetaDistribution(decks: seq<RankedDeck>, minRank: int, maxRank: int): (table: seq<MetaRow>)
    ensures Distinct(KeysOf(table, MetaColors))
    ensures forall m :: m in KeysOf(table, MetaColors) <==>
      exists d :: d in decks && Counted(d, minRank, maxRank) && d.mainColors == m
    ensures forall i :: 0 <= i < |table| ==>
      table[i].drafts == KeyedSum(CountedDecks(decks, minRank, maxRank), ColorsOf, table[i].mainColors, One)
    ensures forall i :: 0 <= i < |table| ==>
      CountedDecks(decks, minRank, maxRank) != []
      && table[i].metaShare == Share(table[i].drafts, |CountedDecks(decks, minRank, maxRank)|)
    ensures table != [] ==> CountedDecks(decks, minRank, maxRank) != []
  {
    var kept := CountedDecks(decks, minRank, maxRank);
    var groups := MetaGroups(kept);
    var total := GroupTotal(kept, ColorsOf, groups, One);
    DecksInGroups(kept, groups);
    SumOfOnes(kept);
    assert groups != [] ==> kept != [] by {
      if groups != [] {
        assert groups[0] in groups;
      }
    }
    assert total == |kept|;
    var table := MetaRows(kept, groups, total);
    assert KeysOf(table, MetaColors) == groups;
    table
  }

  /** The `count(1)` of each group and its share of `total`. */
  function MetaRows(kept: seq<RankedDeck>, groups: seq<string>, total: nat): (rows: seq<MetaRow>)
    requires groups != [] ==> total > 0
    ensures |rows| == |groups|
    ensures forall i :: 0 <= i < |rows| ==>
      rows[i].mainColors == groups[i]
      && rows[i].drafts == KeyedSum(kept, ColorsOf, groups[i], One)
      && rows[i].metaShare == Share(rows[i].drafts, total)
  {
    seq(|groups|, i requires 0 <= i < |groups| =>
      var n := KeyedSum(kept, ColorsOf, groups[i], One);
      MetaRow(groups[i], n, Share(n, total)))
  }

  /** `drafts / total_drafts`, for a non-zero total. */
  function Share(n: nat, total: nat): (r: real)
    requires total > 0
    ensures r * total as real == n as real
  {
    n as real / total as real
  }

  lemma DecksInGroups(kept: seq<RankedDeck>, groups: seq<string>)
    requires groups == MetaGroups(kept)
    ensures GroupTotal(kept, ColorsOf, groups, One) == SumOf(kept, One)
  {
    GroupsPartitionTotal(kept, ColorsOf, groups, One);
  }

  lemma {:induction false} SumOfOnes(s: seq<RankedDeck>)
    ensures SumOf(s, One) == |s|
  {
    if s != [] {
      SumOfOnes(s[1..]);
    }
  }

  function Shares(table: seq<MetaRow>): real {
    if table == [] then 0.0 else table[0].metaShare + Shares(table[1..])
  }

  function DraftTotal(table: seq<MetaRow>): nat {
    if table == [] then 0 else table[0].drafts + DraftTotal(table[1..])
  }

  lemma {:induction false} SharesOverTotal(table: seq<MetaRow>, total: nat)
    requires total > 0
    requires forall i :: 0 <= i < |table| ==> table[i].metaShare == Share(table[i].drafts, total)
    ensures Shares(table) * total as real == DraftTotal(table) as real
  {
    if table != [] {
      SharesOverTotal(table[1..], total);
      var t := total as real;
      assert table[0].metaShare * t == table[0].drafts as real;
      assert Shares(table) * t == table[0].metaShare * t + Shares(table[1..]) * t;
    }
  }

  /** Shares whose total scales to the whole count add up to one. */
  lemma WholeShare(shares: real, drafts: nat, n: nat)
    requires n > 0 && drafts == n
    requires shares * (n as real) == drafts as real
    ensures shares == 1.0
  {
    UnitShare(shares, n);
  }

  lemma UnitShare(shares: real, n: nat)
    requires n > 0
    requires shares * (n as real) == n as real
    ensures shares == 1.0
  {
    UnitFactor(shares, n as real);
  }

  lemma UnitFactor(x: real, r: real)
    requires r > 0.0
    requires x * r == r
    ensures x == 1.0
  {
  }

  lemma {:induction false} DraftTotalIsGroupTotal(kept: seq<RankedDeck>, table: seq<MetaRow>)
    requires forall i :: 0 <= i < |table| ==> table[i].drafts == KeyedSum(kept, ColorsOf, table[i].mainColors, One)
    ensures DraftTotal(table) == GroupTotal(kept, ColorsOf, KeysOf(table, MetaColors), One)
  {
    if table != [] {
      DraftTotalIsGroupTotal(kept, table[1..]);
    }
  }

  /** The draft counts add up to the counted decks, and the shares to 1 whenever a deck is counted. */
  lemma SharesSumToOne(decks: seq<RankedDeck>, minRank: int, maxRank: int)
    ensures DraftTotal(MetaDistribution(decks, minRank, maxRank)) == |CountedDecks(decks, minRank, maxRank)|
    ensures CountedDecks(decks, minRank, maxRank) != [] ==> Shares(MetaDistribution(decks, minRank, maxRank)) == 1.0
  {
    var kept := CountedDecks(decks, minRank, maxRank);
    var table := MetaDistribution(decks, minRank, maxRank);
    CountedColorsAreGroups(decks, minRank, maxRank);
    RowsAddUp(kept, table);
    if kept != [] {
      RowsShareOne(kept, table);
    }
  }

  lemma RowsShareOne(kept: seq<RankedDeck>, table: seq<MetaRow>)
    requires kept != [] && DraftTotal(table) == |kept|
    requires forall i :: 0 <= i < |table| ==> table[i].metaShare == Share(table[i].drafts, |kept|)
    ensures Shares(table) == 1.0
  {
    SharesOverTotal(table, |kept|);
    WholeShare(Shares(table), DraftTotal(table), |kept|);
  }

  lemma CountedColorsAreGroups(decks: seq<RankedDeck>, minRank: int, maxRank: int)
    ensures forall d :: d in CountedDecks(decks, minRank, maxRank) ==>
      ColorsOf(d) in KeysOf(MetaDistribution(decks, minRank, maxRank), MetaColors)
  {
    var table := MetaDistribution(decks, minRank, maxRank);
    forall d | d in CountedDecks(decks, minRank, maxRank) ensures ColorsOf(d) in KeysOf(table, MetaColors) {
      assert d in decks && Counted(d, minRank, maxRank);
    }
  }

  lemma RowsAddUp(kept: seq<RankedDeck>, table: seq<MetaRow>)
    requires Distinct(KeysOf(table, MetaColors))
    requires forall d :: d in kept ==> ColorsOf(d) in KeysOf(table, MetaColors)
    requires forall i :: 0 <= i < |table| ==> table[i].drafts == KeyedSum(kept, ColorsOf, table[i].mainColors, One)
    ensures DraftTotal(table) == |kept|
  {
    DraftTotalIsGroupTotal(kept, table);
    GroupsPartitionTotal(kept, ColorsOf, KeysOf(table, MetaColors), One);
    SumOfOnes(kept);
  }

  /**
   * Inside the window 0..6 a ranked deck is counted exactly when its rank
   * number lies in the window, and an unranked deck never is.
   */
  lemma RankWindowByNumber(d: RankedDeck, minRank: int, maxRank: int)
    requires 0 <= minRank && 0 <= maxRank <= 6 && RankFilterActive(minRank, maxRank)
    ensures Counted(d, minRank, maxRank) <==>
      d.rank.Some? && exists k :: minRank <= k <= maxRank && 0 <= k < |RankNames| && RankNames[k] == d.rank
  {
    if minRank <= maxRank {
      ValidRanksSlice(minRank, maxRank);
      SliceMembership(RankNames, minRank, maxRank + 1, d.rank);
    } else {
      assert ValidRanks(minRank, maxRank) == [];
    }
  }

  lemma ValidRanksSlice(minRank: int, maxRank: int)
    requires 0 <= minRank <= maxRank <= 6
    ensures ValidRanks(minRank, maxRank) == RankNames[minRank..maxRank + 1]
  {
    assert SliceBound(minRank, |RankNames|) == minRank && SliceBound(maxRank + 1, |RankNames|) == maxRank + 1;
  }

  lemma SliceMembership<T>(s: seq<T>, a: int, b: int, x: T)
    requires 0 <= a <= b <= |s|
    ensures x in s[a..b] <==> exists k :: a <= k < b && s[k] == x
  {
    if x in s[a..b] {
      var j :| 0 <= j < b - a && s[a..b][j] == x;
      assert s[a + j] == x;
    }
    if exists k :: a <= k < b && s[k] == x {
      var k :| a <= k < b && s[k] == x;
      assert s[a..b][k - a] == x;
    }
  }

  /**
   * A negative bound counts from the end of the rank list, as Python slicing
   * does: from -7 up to -1 it names the same position as the bound plus 7, and
   * below -7 it clamps to the start.
   */
  lemma NegativeBoundCountsFromEnd(minRank: int, maxRank: int)
    ensures -|RankNames| <= minRank < 0 ==> ValidRanks(minRank, maxRank) == ValidRanks(minRank + |RankNames|, maxRank)
    ensures -|RankNames| <= maxRank + 1 < 0 ==> ValidRanks(minRank, maxRank) == ValidRanks(minRank, maxRank + |RankNames|)
    ensures minRank < -|RankNames| ==> ValidRanks(minRank, maxRank) == ValidRanks(0, maxRank)
    ensures maxRank + 1 < -|RankNames| ==> ValidRanks(minRank, maxRank) == []
  {
  }

  /** An unranked deck is counted exactly in the default window, whatever other window is asked for. */
  lemma UnrankedOnlyInDefaultWindow(d: RankedDeck, minRank: int, maxRank: int)
    requires d.rank.None?
    ensures Counted(d, minRank, maxRank) <==> minRank == 0 && maxRank == 6
  {
  }

  // ----- getMeanDecklist -----

  /** The archetype argument after `.upper()`: a sub-archetype label with its resolved id, or main colours. */
  predicate MatchesArchetype(d: Decklist, archLabel: string, labelId: nat) {
    var l := Upper(archLabel);
    if EndsWithDigit(l) then d.archId == labelId else d.mainColors == l
  }

  /** The wins and rank clauses, each added only when its bound differs from the default; NULL never compares. */
  predicate InRecordWindow(d: Decklist, minWins: int, maxWins: int, minRank: int, maxRank: int) {
    && (minWins > 0 ==> d.wins >= minWins)
    && (maxWins < 7 ==> d.wins <= maxWins)
    && (minRank > 0 ==> d.rank.Some? && d.rank.value >= minRank)
    && (maxRank < 6 ==> d.rank.Some? && d.rank.value <= maxRank)
  }

  predicate Selected(d: Decklist, archLabel: string, labelId: nat, minWins: int, maxWins: int, minRank: int, maxRank: int) {
    MatchesArchetype(d, archLabel, labelId) && InRecordWindow(d, minWins, maxWins, minRank, maxRank)
  }

  /** Σ of card column j over the decks. */
  function ColumnSum(decks: seq<Decklist>, j: nat): nat
    requires forall d :: d in decks ==> j < |d.cardCounts|
  {
    if decks == [] then 0 else decks[0].cardCounts[j] + ColumnSum(decks[1..], j)
  }

  datatype MeanDeck = MeanDeck(numDecks: nat, means: seq<Option<real>>)

  /** The decks the query's `where` clauses keep, in fetch order. */
  function SelectedDecks(decks: seq<Decklist>, archLabel: string, labelId: nat,
                         minWins: int, maxWins: int, minRank: int, maxRank: int): (sel: seq<Decklist>)
    ensures |sel| <= |decks| && forall d :: d in sel ==> d in decks
    ensures forall d :: d in sel <==> d in decks && Selected(d, archLabel, labelId, minWins, maxWins, minRank, maxRank)
  {
    Where(decks, (d: Decklist) => Selected(d, archLabel, labelId, minWins, maxWins, minRank, maxRank))
  }

  /**
   * `count(1)` and `avg(card)` per card of the pool; SQL's AVG over no rows
   * is NULL. Every decklist has one count per card of the pool.
   */
  function MeanDecklist(decks: seq<Decklist>, poolSize: nat, archLabel: string, labelId: nat,
                        minWins: int, maxWins: int, minRank: int, maxRank: int): (r: MeanDeck)
    requires forall d :: d in decks ==> |d.cardCounts| == poolSize
    ensures r.numDecks == |SelectedDecks(decks, archLabel, labelId, minWins, maxWins, minRank, maxRank)|
    ensures |r.means| == poolSize
    ensures forall j :: 0 <= j < poolSize ==> (r.means[j].None? <==> r.numDecks == 0)
    ensures forall j :: 0 <= j < poolSize ==>
      r.means[j] == ColumnMean(SelectedDecks(decks, archLabel, labelId, minWins, maxWins, minRank, maxRank), j)
  {
    var sel := SelectedDecks(decks, archLabel, labelId, minWins, maxWins, minRank, maxRank);
    MeanDeck(|sel|, ColumnMeans(sel, poolSize))
  }

  /** The mean of every card column over the selected decks. */
  function ColumnMeans(sel: seq<Decklist>, poolSize: nat): (ms: seq<Option<real>>)
    requires forall d :: d in sel ==> |d.cardCounts| == poolSize
    ensures |ms| == poolSize
    ensures forall j :: 0 <= j < poolSize ==> ms[j] == ColumnMean(sel, j)
  {
    seq(poolSize, j requires 0 <= j < poolSize => ColumnMean(sel, j))
  }

  /** `avg(card)` over the selected decks: NULL over no rows, otherwise the sum over the count. */
  function ColumnMean(sel: seq<Decklist>, j: nat): (m: Option<real>)
    requires forall d :: d in sel ==> j < |d.cardCounts|
    ensures m.None? <==> sel == []
    ensures m.Some? ==> m.value * |sel| as real == ColumnSum(sel, j) as real
  {
    if sel == [] then None
    else
      QuotientTimesCount(ColumnSum(sel, j), |sel|);
      Some(ColumnSum(sel, j) as real / |sel| as real)
  }

  lemma QuotientTimesCount(sum: nat, n: nat)
    requires n > 0
    ensures (sum as real / n as real) * n as real == sum as real
  {
  }

  /** The default windows filter on the archetype alone, whatever the wins and ranks recorded. */
  lemma DefaultWindowsKeepWholeArchetype(d: Decklist, archLabel: string, labelId: nat)
    ensures Selected(d, archLabel, labelId, 0, 7, 0, 6) <==> MatchesArchetype(d, archLabel, labelId)
  {
  }

  lemma {:induction false} ColumnSumBounded(decks: seq<Decklist>, j: nat, bound: nat)
    requires forall d :: d in decks ==> j < |d.cardCounts| && d.cardCounts[j] <= bound
    ensures ColumnSum(decks, j) <= bound * |decks|
  {
    if decks != [] {
      assert decks[0] in decks;
      assert forall d :: d in decks[1..] ==> d in decks;
      ColumnSumBounded(decks[1..], j, bound);
      MulStep(bound, |decks[1..]|);
    }
  }

  lemma MulStep(b: nat, n: nat)
    ensures b * (n + 1) == b + b * n
  {
  }

  lemma QuotientWithinBound(sum: nat, n: nat, bound: nat)
    requires n > 0 && sum <= bound * n
    ensures 0.0 <= sum as real / n as real <= bound as real
  {
    var q, r := sum as real / n as real, n as real;
    assert q * r == sum as real;
    assert (bound * n) as real == bound as real * r;
    assert 0.0 * r == 0.0 <= sum as real;
    assert sum as real <= (bound * n) as real;
    CancelFactor(0.0, q, r);
    CancelFactor(q, bound as real, r);
  }

  /** A mean count never exceeds the most copies any selected deck holds. */
  lemma MeanWithinBound(decks: seq<Decklist>, poolSize: nat, archLabel: string, labelId: nat,
                        minWins: int, maxWins: int, minRank: int, maxRank: int, j: nat, bound: nat)
    requires forall d :: d in decks ==> |d.cardCounts| == poolSize
    requires j < poolSize && forall d :: d in decks ==> d.cardCounts[j] <= bound
    ensures var m := MeanDecklist(decks, poolSize, archLabel, labelId, minWins, maxWins, minRank, maxRank).means[j];
      m.Some? ==> 0.0 <= m.value <= bound as real
  {
    var sel := SelectedDecks(decks, archLabel, labelId, minWins, maxWins, minRank, maxRank);
    if sel != [] {
      ColumnSumBounded(sel, j, bound);
      QuotientWithinBound(ColumnSum(sel, j), |sel|, bound);
    }
  }

  /**
   * The label is read after upper-casing: a label ending in a digit selects
   * by archetype id, any other by its upper-cased main colours, and a label
   * selects the same decks in whatever case it is written.
   */
  lemma SubArchetypeLabelSelectsById(d: Decklist, archLabel: string, labelId: nat)
    ensures EndsWithDigit(archLabel) ==> (MatchesArchetype(d, archLabel, labelId) <==> d.archId == labelId)
    ensures !EndsWithDigit(archLabel) ==> (MatchesArchetype(d, archLabel, labelId) <==> d.mainColors == Upper(archLabel))
    ensures MatchesArchetype(d, archLabel, labelId) <==> MatchesArchetype(d, Upper(archLabel), labelId)
  {
    UpperKeepsLastDigit(archLabel);
    UpperIdempotent(archLabel);
  }
}
