/**
 * Two archetype queries: `getArchetypeLabels` (the archetypes of one base
 * colour combination, or all of them) and `getArchAvgCurve` (the mean card
 * count per mana value over an archetype's games).
 */
module ArchetypeQueries {
  import opened Schema
  import opened Grouping
  import opened Text
  import opened Codec
  import opened SafeDivision

  // ----- getArchetypeLabels -----

  predicate OfColors(row: ArchLabel, colorNumber: nat) {
    BaseColors(row.id) == colorNumber
  }

  /**
   * The archetypes the listing returns; `colorNumber` is the codec's bitmask
   * for `mainColors`, consulted only when the argument is not "ALL" in any case.
   */
  function ArchetypeLabels(rows: seq<ArchLabel>, mainColors: string, colorNumber: nat): (r: seq<ArchLabel>)
    ensures Upper(mainColors) == "ALL" ==> r == rows
    ensures Upper(mainColors) != "ALL" ==>
      forall row :: row in r <==> row in rows && OfColors(row, colorNumber)
  {
    if Upper(mainColors) == "ALL" then rows
    else Where(rows, (row: ArchLabel) => OfColors(row, colorNumber))
  }

  /** For a colour combination (a mask below 32), the listing holds exactly its subdivisions 32k + c. */
  lemma ListingIsSubdivisions(rows: seq<ArchLabel>, mainColors: string, colorNumber: nat)
    requires colorNumber < 32 && Upper(mainColors) != "ALL"
    ensures forall row :: row in ArchetypeLabels(rows, mainColors, colorNumber) <==>
      row in rows && exists k: nat :: row.id == 32 * k + colorNumber
  {
    forall row ensures OfColors(row, colorNumber) <==> exists k: nat :: row.id == 32 * k + colorNumber {
      IdDecomposes(row.id);
      if exists k: nat :: row.id == 32 * k + colorNumber {
        var k: nat :| row.id == 32 * k + colorNumber;
        SubdivisionOf(row.id, k, colorNumber);
      }
    }
  }

  /** Writing an id as 32k + c with c < 32 finds its colours and subdivision. */
  lemma SubdivisionOf(id: nat, k: nat, c: nat)
    requires c < 32 && id == 32 * k + c
    ensures BaseColors(id) == c && Subdivision(id) == k
  {
  }

  /**
   * Σ over the colour numbers below `bound` of the archetypes listed for that
   * colour. The listing reads its label only to tell "ALL" from a colour
   * label; past that test the colour number alone selects, so any label
   * other than "ALL" (here "WU") stands for every colour number in turn.
   */
  function ListedBelow(rows: seq<ArchLabel>, bound: nat): nat {
    if bound == 0 then 0 else ListedBelow(rows, bound - 1) + |ArchetypeLabels(rows, "WU", bound - 1)|
  }

  /** Listing each of the 32 colour combinations in turn lists every archetype exactly once. */
  lemma ColorListingsPartition(rows: seq<ArchLabel>)
    ensures ListedBelow(rows, 32) == |rows|
  {
    ListedBelowCount(rows, 32);
    EveryIdBelow32(rows);
  }

  lemma {:induction false} EveryIdBelow32(rows: seq<ArchLabel>)
    ensures Where(rows, (row: ArchLabel) => BaseColors(row.id) < 32) == rows
  {
    if rows != [] {
      EveryIdBelow32(rows[1..]);
    }
  }

  lemma NamedListing(rows: seq<ArchLabel>, c: nat)
    ensures ArchetypeLabels(rows, "WU", c) == Where(rows, (row: ArchLabel) => OfColors(row, c))
  {
    assert Upper("WU") == "WU";
  }

  lemma {:induction false} ListedBelowCount(rows: seq<ArchLabel>, bound: nat)
    ensures ListedBelow(rows, bound) == |Where(rows, (row: ArchLabel) => BaseColors(row.id) < bound)|
  {
    if bound == 0 {
      WhereNone(rows, bound);
    } else {
      ListedBelowCount(rows, bound - 1);
      NamedListing(rows, bound - 1);
      WhereSplitsAtColor(rows, bound - 1);
    }
  }

  lemma {:induction false} WhereNone(rows: seq<ArchLabel>, bound: nat)
    requires bound == 0
    ensures Where(rows, (row: ArchLabel) => BaseColors(row.id) < bound) == []
  {
    if rows != [] {
      WhereNone(rows[1..], bound);
    }
  }

  /** The archetypes below colour c + 1 are those below c and those of colour c. */
  lemma {:induction false} WhereSplitsAtColor(rows: seq<ArchLabel>, c: nat)
    ensures |Where(rows, (row: ArchLabel) => BaseColors(row.id) < c + 1)|
         == |Where(rows, (row: ArchLabel) => BaseColors(row.id) < c)| + |Where(rows, (row: ArchLabel) => OfColors(row, c))|
  {
    if rows != [] {
      WhereSplitsAtColor(rows[1..], c);
    }
  }

  // ----- getArchAvgCurve -----

  /** The row's count in mana-value column j; every row the query sums has that column. */
  function Column(s: GameStat, j: nat): nat {
    if j < |s.manaCounts| then s.manaCounts[j] else 0
  }

  /** Σ of one mana-value column over the rows. */
  function ColumnTotal(rows: seq<GameStat>, j: nat): nat {
    if rows == [] then 0 else Column(rows[0], j) + ColumnTotal(rows[1..], j)
  }

  function GameCount(s: GameStat): nat {
    s.gameCount
  }

  function OfArchetype(rows: seq<GameStat>, archId: nat): seq<GameStat> {
    Where(rows, (s: GameStat) => s.archId == archId)
  }

  /**
   * The column sums of the archetype's rows divided by their total
   * `game_count`, or the bare sums when that total is 0. Every row has one
   * column per mana value, `width` in all.
   */
  function ArchAvgCurve(rows: seq<GameStat>, archId: nat, width: nat): (r: seq<real>)
    requires forall s :: s in rows ==> |s.manaCounts| == width
    ensures |r| == width
    ensures forall j :: 0 <= j < width && SumOf(OfArchetype(rows, archId), GameCount) > 0 ==>
      r[j] == ColumnTotal(OfArchetype(rows, archId), j) as real / SumOf(OfArchetype(rows, archId), GameCount) as real
    ensures forall j :: 0 <= j < width && SumOf(OfArchetype(rows, archId), GameCount) == 0 ==>
      r[j] == ColumnTotal(OfArchetype(rows, archId), j) as real
  {
    var arch := OfArchetype(rows, archId);
    seq(width, j requires 0 <= j < width => CurvePoint(arch, j))
  }

  /**
   * Column j's mean per game over the rows: times the total games it gives
   * back the column's total; with no games it is the bare total.
   */
  function CurvePoint(arch: seq<GameStat>, j: nat): (m: real)
    ensures SumOf(arch, GameCount) > 0 ==> m * SumOf(arch, GameCount) as real == ColumnTotal(arch, j) as real
    ensures SumOf(arch, GameCount) == 0 ==> m == ColumnTotal(arch, j) as real
  {
    SafeRatio(ColumnTotal(arch, j) as real, SumOf(arch, GameCount))
  }

  /** When every row's count in column j is at most `bound` per game, so is the column's total. */
  lemma {:induction false} ColumnTotalBounded(rows: seq<GameStat>, j: nat, bound: nat)
    requires forall s :: s in rows ==> Column(s, j) <= bound * s.gameCount
    ensures ColumnTotal(rows, j) <= bound * SumOf(rows, GameCount)
  {
    if rows != [] {
      assert rows[0] in rows;
      assert forall s :: s in rows[1..] ==> s in rows;
      ColumnTotalBounded(rows[1..], j, bound);
      var g, rest := rows[0].gameCount, SumOf(rows[1..], GameCount);
      assert SumOf(rows, GameCount) == g + rest;
      Distribute(bound, g, rest);
    }
  }

  lemma Distribute(b: nat, x: nat, y: nat)
    ensures b * (x + y) == b * x + b * y
  {
  }

  lemma AverageWithin(total: nat, n: nat, bound: nat, avg: real)
    requires n > 0 && total <= bound * n && avg * (n as real) == total as real
    ensures 0.0 <= avg <= bound as real
  {
    var r := n as real;
    assert (bound * n) as real == bound as real * r;
    assert (bound as real - avg) * r == bound as real * r - total as real;
  }

  /** With at most `bound` cards of a mana value per game, the mean count of that mana value is at most `bound`. */
  lemma CurveWithinBound(rows: seq<GameStat>, archId: nat, width: nat, j: nat, bound: nat)
    requires forall s :: s in rows ==> |s.manaCounts| == width
    requires j < width && forall s :: s in rows ==> Column(s, j) <= bound * s.gameCount
    ensures 0.0 <= ArchAvgCurve(rows, archId, width)[j] <= bound as real
  {
    var arch := OfArchetype(rows, archId);
    var total, n := ColumnTotal(arch, j), SumOf(arch, GameCount);
    ColumnTotalBounded(arch, j, bound);
    if n > 0 {
      AverageWithin(total, n, bound, SafeRatio(total as real, n));
    } else {
      assert total == 0;
    }
  }

  /** Another archetype's rows do not move the curve. */
  lemma {:induction false} OtherArchetypesIgnored(rows: seq<GameStat>, other: GameStat, archId: nat, width: nat)
    requires forall s :: s in rows ==> |s.manaCounts| == width
    requires |other.manaCounts| == width && other.archId != archId
    ensures ArchAvgCurve([other] + rows, archId, width) == ArchAvgCurve(rows, archId, width)
  {
    assert ([other] + rows)[1..] == rows;
    assert OfArchetype([other] + rows, archId) == OfArchetype(rows, archId);
  }
}
