/**
 * `getCardRecordByCopies`: one card's record by the number of copies in the
 * deck, with every count of 4 or more merged into bucket 4.
 */
module CopyBuckets {
  import opened Schema
  import opened SafeDivision
  import opened Order
  import opened Grouping

  /** The saturating top bucket. */
  const Top: nat := 4

  /** A row of the grouped frame: wins and games of one copy count. */
  datatype Bucket = Bucket(copies: nat, wins: nat, games: nat)

  datatype CopyRow = CopyRow(copies: nat, wins: nat, games: nat, winRate: real)

  function CopiesOf(r: CardGameStat): nat {
    r.copies
  }

  function Wins(r: CardGameStat): nat {
    r.winCount
  }

  function Games(r: CardGameStat): nat {
    r.gameCount
  }

  /** A column that keeps only the rows with at least `Top` copies. */
  function AtTop(f: CardGameStat -> nat): CardGameStat -> nat {
    (x: CardGameStat) => if x.copies >= Top then f(x) else 0
  }

  /** Σ f over the fetched rows with at least `Top` copies: what the merged bucket should hold. */
  function MergedSum(stats: seq<CardGameStat>, f: CardGameStat -> nat): nat {
    SumOf(stats, AtTop(f))
  }

  /** The copy counts of the group-by index after `sort_index`. */
  function CopyKeys(stats: seq<CardGameStat>): (ks: seq<nat>)
    ensures Increasing(ks, NatLt)
    ensures forall c :: c in ks <==> HasKey(stats, CopiesOf, c)
  {
    GroupKeys(stats, CopiesOf)
  }

  /** One group of the group-by on `copies`. */
  function GroupOf(stats: seq<CardGameStat>, c: nat): Bucket {
    Bucket(c, KeyedSum(stats, CopiesOf, c, Wins), KeyedSum(stats, CopiesOf, c, Games))
  }

  /** A bucket below the top one with its guarded rate. */
  function Rated(b: Bucket): CopyRow {
    CopyRow(b.copies, b.wins, b.games, SafeRatio(b.wins as real, b.games))
  }

  /**
   * The top bucket's rate as the source computes it: `tempgames` is taken
   * before the merge, so the merged wins divide the games of exactly 4 copies.
   */
  function TopRateAsWritten(stats: seq<CardGameStat>): real {
    SafeRatio(MergedSum(stats, Wins) as real, KeyedSum(stats, CopiesOf, Top, Games))
  }

  /** The rate of the merged bucket over its own merged games. */
  function TopRateIntended(stats: seq<CardGameStat>): real {
    SafeRatio(MergedSum(stats, Wins) as real, MergedSum(stats, Games))
  }

  /** Where copy count c sits in the sorted index. */
  method PositionOf(ks: seq<nat>, c: nat) returns (p: nat)
    requires c in ks
    ensures p < |ks| && ks[p] == c
  {
    p := 0;
    while ks[p] != c
      invariant p < |ks| && c in ks[p..]
      decreases |ks| - p
    {
      assert ks[p..] == [ks[p]] + ks[p + 1..];
      p := p + 1;
    }
  }

  /** `df.loc[4:].sum()`: the wins and games of the frame rows from position p on. */
  method SumFrom(stats: seq<CardGameStat>, ks: seq<nat>, rows: seq<Bucket>, p: nat) returns (wins: nat, games: nat)
    requires |rows| == |ks| && p <= |ks|
    requires forall i :: 0 <= i < |rows| ==> rows[i] == GroupOf(stats, ks[i])
    ensures wins == GroupTotal(stats, CopiesOf, ks[p..], Wins)
    ensures games == GroupTotal(stats, CopiesOf, ks[p..], Games)
  {
    wins, games := 0, 0;
    for j := p to |rows|
      invariant wins == GroupTotal(stats, CopiesOf, ks[p..j], Wins)
      invariant games == GroupTotal(stats, CopiesOf, ks[p..j], Games)
    {
      assert ks[p..j + 1] == ks[p..j] + [ks[j]];
      assert [ks[j]][1..] == [];
      GroupTotalConcat(stats, CopiesOf, ks[p..j], [ks[j]], Wins);
      GroupTotalConcat(stats, CopiesOf, ks[p..j], [ks[j]], Games);
      wins, games := wins + rows[j].wins, games + rows[j].games;
    }
    assert ks[p..|rows|] == ks[p..];
  }

  /**
   * The card must have been played with exactly 4 copies. A card without such
   * a row is outside this model, and the source treats it in one of two ways.
   * If no row has 4 or more copies, an empty fetch included, `.loc[4]`
   * appends the row (4, 0, 0) in order, and its rate is NaN because
   * `tempgames` has no label 4. If some row has more than 4 copies, the
   * appended row follows those rows, so `.loc[:4]` on the unsorted index also
   * keeps the rows above 4 with their own rates, and bucket 4's rate is NaN.
   */
  method RecordByCopies(stats: seq<CardGameStat>) returns (table: seq<CopyRow>)
    requires HasKey(stats, CopiesOf, Top)
    ensures |table| >= 1
    ensures forall i, j :: 0 <= i < j < |table| ==> table[i].copies < table[j].copies
    ensures forall i :: 0 <= i < |table| - 1 ==>
      table[i].copies < Top && HasKey(stats, CopiesOf, table[i].copies) && table[i] == Rated(GroupOf(stats, table[i].copies))
    ensures forall c: nat :: c < Top && HasKey(stats, CopiesOf, c) ==> exists i :: 0 <= i < |table| - 1 && table[i].copies == c
    ensures table[|table| - 1] ==
      CopyRow(Top, MergedSum(stats, Wins), MergedSum(stats, Games), TopRateAsWritten(stats))
  {
    var ks := CopyKeys(stats);
    var n := |ks|;
    var frame := new Bucket[n](i requires 0 <= i < n => GroupOf(stats, ks[i]));
    var tempGames := seq(n, i requires 0 <= i < n => Guard(GroupOf(stats, ks[i]).games));
    var p := PositionOf(ks, Top);
    var wins, games := SumFrom(stats, ks, frame[..], p);
    TopGroupsAreMergedSum(stats, ks, p, Wins);
    TopGroupsAreMergedSum(stats, ks, p, Games);
    frame[p] := Bucket(Top, wins, games);
    var kept := frame[..p + 1];
    assert forall i :: 0 <= i < p ==> kept[i] == GroupOf(stats, ks[i]);
    table := AttachRates(kept, tempGames[..p + 1]);
    assert forall i :: 0 <= i < p ==> table[i] == Rated(GroupOf(stats, ks[i]));
    assert forall i :: 0 <= i < p ==> NatLt(ks[i], ks[p]);
    assert forall i :: 0 <= i < p ==> table[i].copies == ks[i];
    CoversBelowTop(stats, ks, p, table);
  }

  lemma CoversBelowTop(stats: seq<CardGameStat>, ks: seq<nat>, p: nat, table: seq<CopyRow>)
    requires ks == CopyKeys(stats) && p < |ks| && ks[p] == Top && |table| == p + 1
    requires forall i :: 0 <= i < p ==> table[i].copies == ks[i]
    ensures forall c: nat :: c < Top && HasKey(stats, CopiesOf, c) ==> exists i :: 0 <= i < |table| - 1 && table[i].copies == c
  {
    forall c: nat | c < Top && HasKey(stats, CopiesOf, c) ensures exists i :: 0 <= i < p && table[i].copies == c {
      BelowTopKept(ks, p, c);
    }
  }

  /** Every copy count below 4 sits before bucket 4 in the sorted index. */
  lemma BelowTopKept(ks: seq<nat>, p: nat, c: nat)
    requires Increasing(ks, NatLt) && p < |ks| && ks[p] == Top && c in ks && c < Top
    ensures exists i :: 0 <= i < p && ks[i] == c
  {
    var i :| 0 <= i < |ks| && ks[i] == c;
  }

  /** `df['win_rate'] = df['wins'] / tempgames`, aligned row by row. */
  method AttachRates(kept: seq<Bucket>, tempGames: seq<nat>) returns (table: seq<CopyRow>)
    requires |tempGames| == |kept| && forall i :: 0 <= i < |tempGames| ==> tempGames[i] >= 1
    ensures |table| == |kept|
    ensures forall k :: 0 <= k < |kept| ==>
      table[k] == CopyRow(kept[k].copies, kept[k].wins, kept[k].games, kept[k].wins as real / tempGames[k] as real)
  {
    table := [];
    for i := 0 to |kept|
      invariant |table| == i
      invariant forall k :: 0 <= k < i ==>
        table[k] == CopyRow(kept[k].copies, kept[k].wins, kept[k].games, kept[k].wins as real / tempGames[k] as real)
    {
      table := table + [CopyRow(kept[i].copies, kept[i].wins, kept[i].games, kept[i].wins as real / tempGames[i] as real)];
    }
  }

  lemma AtTopApplies(x: CardGameStat, f: CardGameStat -> nat)
    ensures AtTop(f)(x) == if x.copies >= Top then f(x) else 0
  {
  }

  lemma {:induction false} KeyedSumAtTop(s: seq<CardGameStat>, k: nat, f: CardGameStat -> nat)
    ensures KeyedSum(s, CopiesOf, k, AtTop(f)) == if k >= Top then KeyedSum(s, CopiesOf, k, f) else 0
  {
    if s != [] {
      KeyedSumAtTop(s[1..], k, f);
    }
  }

  lemma {:induction false} BelowTopGroupsVanish(s: seq<CardGameStat>, ks: seq<nat>, f: CardGameStat -> nat)
    requires forall i :: 0 <= i < |ks| ==> ks[i] < Top
    ensures GroupTotal(s, CopiesOf, ks, AtTop(f)) == 0
  {
    if ks != [] {
      KeyedSumAtTop(s, ks[0], f);
      BelowTopGroupsVanish(s, ks[1..], f);
    }
  }

  lemma {:induction false} TopGroupsKeep(s: seq<CardGameStat>, ks: seq<nat>, f: CardGameStat -> nat)
    requires forall i :: 0 <= i < |ks| ==> ks[i] >= Top
    ensures GroupTotal(s, CopiesOf, ks, AtTop(f)) == GroupTotal(s, CopiesOf, ks, f)
  {
    if ks != [] {
      KeyedSumAtTop(s, ks[0], f);
      TopGroupsKeep(s, ks[1..], f);
    }
  }

  /** The groups from the position of copy count 4 on hold exactly the fetched rows with 4 or more copies. */
  lemma TopGroupsAreMergedSum(stats: seq<CardGameStat>, ks: seq<nat>, p: nat, f: CardGameStat -> nat)
    requires ks == CopyKeys(stats) && p < |ks| && ks[p] == Top
    ensures GroupTotal(stats, CopiesOf, ks[p..], f) == MergedSum(stats, f)
  {
    NatLtStrictTotal();
    IncreasingIsDistinct(ks, NatLt);
    EveryKeyIsGroupKey(stats, CopiesOf);
    GroupsPartitionTotal(stats, CopiesOf, ks, AtTop(f));
    assert ks == ks[..p] + ks[p..];
    GroupTotalConcat(stats, CopiesOf, ks[..p], ks[p..], AtTop(f));
    SplitAtTop(ks, p);
    BelowTopGroupsVanish(stats, ks[..p], f);
    TopGroupsKeep(stats, ks[p..], f);
  }

  /** In increasing copy counts, those before 4 are below it and the rest at least 4. */
  lemma SplitAtTop(ks: seq<nat>, p: nat)
    requires Increasing(ks, NatLt) && p < |ks| && ks[p] == Top
    ensures forall i :: 0 <= i < |ks[..p]| ==> ks[..p][i] < Top
    ensures forall i :: 0 <= i < |ks[p..]| ==> ks[p..][i] >= Top
  {
    forall i | 0 <= i < |ks[..p]| ensures ks[..p][i] < Top {
      assert NatLt(ks[i], ks[p]);
    }
    forall i | 0 <= i < |ks[p..]| ensures ks[p..][i] >= Top {
      if i > 0 {
        assert NatLt(ks[p], ks[p + i]);
      }
    }
  }

  lemma {:induction false} MergedWinsBounded(stats: seq<CardGameStat>)
    requires forall i :: 0 <= i < |stats| ==> stats[i].winCount <= stats[i].gameCount
    ensures MergedSum(stats, Wins) <= MergedSum(stats, Games)
  {
    if stats != [] {
      assert forall i :: 0 <= i < |stats[1..]| ==> stats[1..][i] == stats[i + 1];
      MergedWinsBounded(stats[1..]);
      assert stats[0].winCount <= stats[0].gameCount;
      AtTopApplies(stats[0], Wins);
      AtTopApplies(stats[0], Games);
    }
  }

  /** Over its own games the merged bucket's rate is a proportion. */
  lemma TopRateIntendedIsProportion(stats: seq<CardGameStat>)
    requires forall i :: 0 <= i < |stats| ==> stats[i].winCount <= stats[i].gameCount
    ensures 0.0 <= TopRateIntended(stats) <= 1.0
  {
    MergedWinsBounded(stats);
    RateIsProportion(MergedSum(stats, Wins), MergedSum(stats, Games));
  }

  /** Copies 1: 10 of 20, copies 4: 5 of 10, copies 5: 2 of 4. */
  const ThreeCounts: seq<CardGameStat> :=
    [CardGameStat(0, 0, 1, 10, 20), CardGameStat(0, 0, 4, 5, 10), CardGameStat(0, 0, 5, 2, 4)]

  /** The merged bucket holds 7 wins in 14 games, yet the source reports 7 / 10. */
  lemma ThreeCountsTopRate()
    ensures MergedSum(ThreeCounts, Wins) == 7 && MergedSum(ThreeCounts, Games) == 14
    ensures TopRateAsWritten(ThreeCounts) == 0.7
    ensures TopRateIntended(ThreeCounts) == 0.5
  {
    var s := ThreeCounts;
    assert s[1..] == [s[1], s[2]] && s[1..][1..] == [s[2]] && [s[2]][1..] == [];
    assert SumOf(s, AtTop(Wins)) == 0 + (5 + (2 + 0));
    assert SumOf(s, AtTop(Games)) == 0 + (10 + (4 + 0));
    assert KeyedSum(s, CopiesOf, Top, Games) == 10;
  }

  /** With few games at exactly 4 copies the reported rate is not even a proportion. */
  lemma TopRateAsWrittenCanExceedOne()
    ensures TopRateAsWritten([CardGameStat(0, 0, 4, 1, 2), CardGameStat(0, 0, 5, 10, 10)]) == 5.5
  {
    var s := [CardGameStat(0, 0, 4, 1, 2), CardGameStat(0, 0, 5, 10, 10)];
    assert s[1..] == [s[1]] && [s[1]][1..] == [];
    assert SumOf([s[1]], AtTop(Wins)) == 10;
    assert SumOf(s, AtTop(Wins)) == 11;
    assert KeyedSum(s, CopiesOf, Top, Games) == 2;
  }
}
