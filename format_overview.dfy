/**
 * `makeFormatOverviewTable`: the per-archetype totals of the 32 colour
 * combinations and the aggregate ALL row, with average win and game lengths
 * and aggression, in a fixed order of labels.
 */
module FormatOverview {
  import opened Tables
  import opened Schema
  import opened Order
  import opened Grouping
  import opened SafeDivision
  import opened Codec
  import opened Speed

  /** A row of the working frame, which the source indexes by label. */
  datatype ArchRow = ArchRow(archLabel: string, numDrafts: nat, numWins: nat, numLosses: nat,
                             averageWinLength: real, averageLossLength: real, averageGameLength: real,
                             aggression: real)

  /** A row of the returned table. */
  datatype OverviewLine = OverviewLine(archLabel: string, numDrafts: nat, numGames: nat, winRate: real,
                                       averageWinLength: real, averageGameLength: real, aggression: real)

  function StoredLabel(r: ArchTotals): string {
    r.archLabel
  }

  function RowLabel(r: ArchRow): string {
    r.archLabel
  }

  function Labels(stored: seq<ArchTotals>): seq<string> {
    KeysOf(stored, StoredLabel)
  }

  /**
   * The store holds one row per canonical label, ALL included, and the codec
   * names the ids 0..31 by distinct canonical labels other than ALL.
   */
  predicate WellFormed(stored: seq<ArchTotals>, labelOf: seq<string>) {
    && Distinct(Labels(stored))
    && (forall l :: l in Labels(stored) ==> l in CanonicalOrder)
    && (forall l :: l in CanonicalOrder ==> l in Labels(stored))
    && |labelOf| == 32
    && Distinct(labelOf)
    && (forall id :: 0 <= id < |labelOf| ==> labelOf[id] in CanonicalOrder && labelOf[id] != "ALL")
  }

  /** The position of a label in a list that holds it. */
  function IndexOf(ls: seq<string>, l: string): (p: nat)
    requires l in ls
    ensures p < |ls| && ls[p] == l
    ensures forall q :: 0 <= q < p ==> ls[q] != l
  {
    if ls[0] == l then 0 else 1 + IndexOf(ls[1..], l)
  }

  lemma IndexOfDistinct(ls: seq<string>, i: nat)
    requires Distinct(ls) && i < |ls|
    ensures IndexOf(ls, ls[i]) == i
  {
  }

  /** The id the codec names by label l, if any. */
  function CodecId(labelOf: seq<string>, l: string): Option<nat> {
    if l in labelOf then Some(IndexOf(labelOf, l)) else None
  }

  /** `arch_stats_df[arch_stats_df['arch_id'] == id]` as a turn histogram. */
  function HistogramOf(stats: seq<ArchTurnCount>, id: nat): seq<TurnCount> {
    if stats == [] then []
    else (if stats[0].archId == id then [TurnCount(stats[0].turns, stats[0].won, stats[0].games)] else [])
         + HistogramOf(stats[1..], id)
  }

  /** A stored row with the four length columns set to 0. */
  function Fresh(r: ArchTotals): ArchRow {
    ArchRow(r.archLabel, r.numDrafts, r.numWins, r.numLosses, 0.0, 0.0, 0.0, 0.0)
  }

  /** The `df.at[label, ...]` writes for one archetype with stat rows. */
  function WithLengths(r: ArchRow, s: SpeedStats): ArchRow {
    r.(averageWinLength := s.averageWinLength, averageGameLength := s.averageGameLength,
       averageLossLength := s.averageLossLength, aggression := s.averageLossLength - s.averageWinLength)
  }

  /** The frame row of a stored row once the ids below `upto` have been visited. */
  function Visited(r: ArchTotals, labelOf: seq<string>, stats: seq<ArchTurnCount>, upto: nat): ArchRow {
    match CodecId(labelOf, r.archLabel)
    case Some(id) =>
      if id < upto && HistogramOf(stats, id) != [] then WithLengths(Fresh(r), SpeedOf(HistogramOf(stats, id)))
      else Fresh(r)
    case None => Fresh(r)
  }

  function Measured(stored: seq<ArchTotals>, labelOf: seq<string>, stats: seq<ArchTurnCount>, upto: nat): (m: seq<ArchRow>)
    ensures |m| == |stored|
  {
    seq(|stored|, q requires 0 <= q < |stored| => Visited(stored[q], labelOf, stats, upto))
  }

  function Drafts(r: ArchRow): nat {
    r.numDrafts
  }

  function Wins(r: ArchRow): nat {
    r.numWins
  }

  function Losses(r: ArchRow): nat {
    r.numLosses
  }

  function WinWeighted(r: ArchRow): real {
    r.averageWinLength * r.numWins as real
  }

  function GameWeighted(r: ArchRow): real {
    r.averageGameLength * r.numWins as real
  }

  function LossWeighted(r: ArchRow): real {
    r.averageLossLength * r.numLosses as real
  }

  /**
   * The ALL row: lengths weighted by wins (losses for the loss length) over
   * every frame row, then counts summed over every frame row; both sums take
   * in the stored ALL row itself.
   */
  function WithTotals(frame: seq<ArchRow>, r: ArchRow): ArchRow {
    var wins, losses := SumOf(frame, Wins), SumOf(frame, Losses);
    var win := SafeRatio(RealSumOf(frame, WinWeighted), wins);
    var loss := SafeRatio(RealSumOf(frame, LossWeighted), losses);
    r.(averageWinLength := win, averageGameLength := SafeRatio(RealSumOf(frame, GameWeighted), wins),
       averageLossLength := loss, aggression := loss - win,
       numDrafts := SumOf(frame, Drafts), numWins := wins, numLosses := losses)
  }

  lemma AllIsStored(stored: seq<ArchTotals>, labelOf: seq<string>)
    requires WellFormed(stored, labelOf)
    ensures "ALL" in Labels(stored)
  {
    assert CanonicalOrder[0] == "ALL";
  }

  /** The frame once every id is visited and the ALL row is filled in. */
  function Frame(stored: seq<ArchTotals>, labelOf: seq<string>, stats: seq<ArchTurnCount>): (f: seq<ArchRow>)
    requires WellFormed(stored, labelOf)
    ensures KeysOf(f, RowLabel) == Labels(stored)
  {
    AllIsStored(stored, labelOf);
    var m := Measured(stored, labelOf, stats, 32);
    var a := IndexOf(Labels(stored), "ALL");
    m[a := WithTotals(m, m[a])]
  }

  /** `num_wins / (num_wins + num_losses)`, dividing by one when there are no games. */
  function WinRate(wins: nat, losses: nat): (r: real)
    ensures wins + losses > 0 ==> r * (wins + losses) as real == wins as real
    ensures wins + losses == 0 ==> r == 0.0
  {
    SafeRatio(wins as real, wins + losses)
  }

  function Line(r: ArchRow): OverviewLine {
    OverviewLine(r.archLabel, r.numDrafts, r.numWins + r.numLosses, WinRate(r.numWins, r.numLosses),
                 r.averageWinLength, r.averageGameLength, r.aggression)
  }

  /** `output_df.loc[reorder]`. */
  function Reorder(frame: seq<ArchRow>): (lines: seq<OverviewLine>)
    requires forall l :: l in CanonicalOrder ==> l in KeysOf(frame, RowLabel)
    ensures |lines| == |CanonicalOrder|
  {
    seq(|CanonicalOrder|, i requires 0 <= i < |CanonicalOrder| =>
      Line(frame[IndexOf(KeysOf(frame, RowLabel), CanonicalOrder[i])]))
  }

  function Overview(stored: seq<ArchTotals>, labelOf: seq<string>, stats: seq<ArchTurnCount>): seq<OverviewLine>
    requires WellFormed(stored, labelOf)
  {
    Reorder(Frame(stored, labelOf, stats))
  }

  /**
   * The source's loop over ids 0..31 overwrites the length columns of each
   * archetype that has stat rows, in place; the ALL row is then overwritten
   * and the frame read out in canonical order.
   */
  method FormatOverviewTable(stored: seq<ArchTotals>, labelOf: seq<string>, stats: seq<ArchTurnCount>)
    returns (table: seq<OverviewLine>)
    requires WellFormed(stored, labelOf)
    ensures table == Overview(stored, labelOf, stats)
  {
    var frame := new ArchRow[|stored|];
    for q := 0 to |stored|
      invariant forall k :: 0 <= k < q ==> frame[k] == Fresh(stored[k])
    {
      frame[q] := Fresh(stored[q]);
    }
    assert frame[..] == Measured(stored, labelOf, stats, 0);
    for id := 0 to 32
      invariant frame[..] == Measured(stored, labelOf, stats, id)
    {
      var hist := HistogramOf(stats, id);
      if hist != [] {
        var p := IndexOf(Labels(stored), labelOf[id]);
        MeasuredStep(stored, labelOf, stats, id, p);
        frame[p] := WithLengths(frame[p], SpeedOf(hist));
      } else {
        MeasuredSkip(stored, labelOf, stats, id);
      }
    }
    AllIsStored(stored, labelOf);
    var a := IndexOf(Labels(stored), "ALL");
    frame[a] := WithTotals(frame[..], frame[a]);
    assert frame[..] == Frame(stored, labelOf, stats);
    FrameCoversCanonical(stored, labelOf, stats);
    table := Reorder(frame[..]);
  }

  lemma FrameCoversCanonical(stored: seq<ArchTotals>, labelOf: seq<string>, stats: seq<ArchTurnCount>)
    requires WellFormed(stored, labelOf)
    ensures forall l :: l in CanonicalOrder ==> l in KeysOf(Frame(stored, labelOf, stats), RowLabel)
  {
  }

  lemma MeasuredStep(stored: seq<ArchTotals>, labelOf: seq<string>, stats: seq<ArchTurnCount>, id: nat, p: nat)
    requires WellFormed(stored, labelOf) && id < 32 && HistogramOf(stats, id) != []
    requires labelOf[id] in Labels(stored) && p == IndexOf(Labels(stored), labelOf[id])
    ensures Measured(stored, labelOf, stats, id + 1)
         == Measured(stored, labelOf, stats, id)[p := WithLengths(Measured(stored, labelOf, stats, id)[p], SpeedOf(HistogramOf(stats, id)))]
  {
    forall q | 0 <= q < |stored|
      ensures Visited(stored[q], labelOf, stats, id + 1)
           == (if q == p then WithLengths(Visited(stored[q], labelOf, stats, id), SpeedOf(HistogramOf(stats, id)))
               else Visited(stored[q], labelOf, stats, id))
    {
      if q == p {
        VisitedAtLabel(stored[q], labelOf, stats, id);
      } else {
        assert Labels(stored)[q] != Labels(stored)[p];
        VisitedElsewhere(stored[q], labelOf, stats, id);
      }
    }
  }

  /** Visiting id writes the lengths of the row the codec names by id. */
  lemma VisitedAtLabel(r: ArchTotals, labelOf: seq<string>, stats: seq<ArchTurnCount>, id: nat)
    requires Distinct(labelOf) && id < |labelOf| && r.archLabel == labelOf[id] && HistogramOf(stats, id) != []
    ensures Visited(r, labelOf, stats, id + 1) == WithLengths(Visited(r, labelOf, stats, id), SpeedOf(HistogramOf(stats, id)))
  {
    IndexOfDistinct(labelOf, id);
    assert CodecId(labelOf, r.archLabel) == Some(id);
  }

  /** Visiting id leaves every other row alone. */
  lemma VisitedElsewhere(r: ArchTotals, labelOf: seq<string>, stats: seq<ArchTurnCount>, id: nat)
    requires id < |labelOf| && r.archLabel != labelOf[id]
    ensures Visited(r, labelOf, stats, id + 1) == Visited(r, labelOf, stats, id)
  {
    match CodecId(labelOf, r.archLabel)
    case None =>
    case Some(k) =>
      assert k != id;
  }

  lemma MeasuredSkip(stored: seq<ArchTotals>, labelOf: seq<string>, stats: seq<ArchTurnCount>, id: nat)
    requires HistogramOf(stats, id) == []
    ensures Measured(stored, labelOf, stats, id + 1) == Measured(stored, labelOf, stats, id)
  {
  }

  // ----- properties of the table -----

  function StoredDrafts(r: ArchTotals): nat {
    r.numDrafts
  }

  function StoredWins(r: ArchTotals): nat {
    r.numWins
  }

  function StoredLosses(r: ArchTotals): nat {
    r.numLosses
  }

  /** The table lists exactly the canonical labels, in the canonical order. */
  lemma OverviewLabels(stored: seq<ArchTotals>, labelOf: seq<string>, stats: seq<ArchTurnCount>)
    requires WellFormed(stored, labelOf)
    ensures |Overview(stored, labelOf, stats)| == 33
    ensures forall i :: 0 <= i < 33 ==> Overview(stored, labelOf, stats)[i].archLabel == CanonicalOrder[i]
  {
    FrameCoversCanonical(stored, labelOf, stats);
  }

  lemma {:induction false} FreshRowReadsZero(r: ArchTotals, labelOf: seq<string>, stats: seq<ArchTurnCount>, id: nat)
    requires Distinct(labelOf) && id < |labelOf| && r.archLabel == labelOf[id]
    ensures var s := SpeedOf(HistogramOf(stats, id));
      var v := Visited(r, labelOf, stats, 32);
      id < 32 ==>
        v.averageWinLength == s.averageWinLength && v.averageLossLength == s.averageLossLength
        && v.averageGameLength == s.averageGameLength && v.aggression == s.averageLossLength - s.averageWinLength
        && v.numDrafts == r.numDrafts && v.numWins == r.numWins && v.numLosses == r.numLosses
  {
    IndexOfDistinct(labelOf, id);
    assert CodecId(labelOf, r.archLabel) == Some(id);
    if HistogramOf(stats, id) == [] {
      EmptyHistogramHasNoSpeed();
    }
  }

  /**
   * The line at position i, whose label the codec gives the id `id`: its
   * stored counts, games = wins + losses, and the lengths of its own
   * histogram, which are 0 when it has no stat rows; aggression is the loss
   * length minus the win length.
   */
  lemma ArchetypeLine(stored: seq<ArchTotals>, labelOf: seq<string>, stats: seq<ArchTurnCount>, i: nat, id: nat)
    requires WellFormed(stored, labelOf) && i < |CanonicalOrder| && id < 32 && labelOf[id] == CanonicalOrder[i]
    ensures labelOf[id] in Labels(stored)
    ensures var line := Overview(stored, labelOf, stats)[i];
      var r := stored[IndexOf(Labels(stored), labelOf[id])];
      var s := SpeedOf(HistogramOf(stats, id));
      && line.archLabel == labelOf[id]
      && line.numDrafts == r.numDrafts
      && line.numGames == r.numWins + r.numLosses
      && line.winRate == WinRate(r.numWins, r.numLosses)
      && line.averageWinLength == s.averageWinLength
      && line.averageGameLength == s.averageGameLength
      && line.aggression == s.averageLossLength - s.averageWinLength
  {
    assert i != 0 by {
      assert CanonicalOrder[0] == "ALL";
    }
    var q := IndexOf(Labels(stored), labelOf[id]);
    LineAt(stored, labelOf, stats, i);
    var v := Measured(stored, labelOf, stats, 32)[q];
    assert v == Visited(stored[q], labelOf, stats, 32);
    FreshRowReadsZero(stored[q], labelOf, stats, id);
  }

  /** The line of a label other than ALL reads the visited row of that label. */
  lemma LineAt(stored: seq<ArchTotals>, labelOf: seq<string>, stats: seq<ArchTurnCount>, i: nat)
    requires WellFormed(stored, labelOf) && 0 < i < |CanonicalOrder|
    ensures CanonicalOrder[i] in Labels(stored)
    ensures Overview(stored, labelOf, stats)[i]
         == Line(Measured(stored, labelOf, stats, 32)[IndexOf(Labels(stored), CanonicalOrder[i])])
  {
    AllIsStored(stored, labelOf);
    var l := CanonicalOrder[i];
    assert l != "ALL" by {
      CanonicalOrderShape();
      assert CanonicalOrder[0] == "ALL";
    }
    var q := IndexOf(Labels(stored), l);
    var a := IndexOf(Labels(stored), "ALL");
    assert q != a;
    var f := Frame(stored, labelOf, stats);
    FrameCoversCanonical(stored, labelOf, stats);
    assert IndexOf(KeysOf(f, RowLabel), l) == q;
  }

  /**
   * The ALL line: counts summed over all 33 stored rows, the stored ALL row's
   * own counts included; lengths weighted by wins (losses for the loss
   * length) over the frame, where the stored ALL row still reads 0 but its
   * wins and losses already weigh in.
   */
  lemma AllLine(stored: seq<ArchTotals>, labelOf: seq<string>, stats: seq<ArchTurnCount>)
    requires WellFormed(stored, labelOf)
    ensures var line := Overview(stored, labelOf, stats)[0];
      var m := Measured(stored, labelOf, stats, 32);
      var wins, losses := SumOf(stored, StoredWins), SumOf(stored, StoredLosses);
      && line.archLabel == "ALL"
      && line.numDrafts == SumOf(stored, StoredDrafts)
      && line.numGames == wins + losses
      && line.winRate == WinRate(wins, losses)
      && line.averageWinLength == SafeRatio(RealSumOf(m, WinWeighted), wins)
      && line.averageGameLength == SafeRatio(RealSumOf(m, GameWeighted), wins)
      && line.aggression == SafeRatio(RealSumOf(m, LossWeighted), losses) - SafeRatio(RealSumOf(m, WinWeighted), wins)
      && m[IndexOf(Labels(stored), "ALL")].averageWinLength == 0.0
      && m[IndexOf(Labels(stored), "ALL")].averageLossLength == 0.0
  {
    AllIsStored(stored, labelOf);
    var m := Measured(stored, labelOf, stats, 32);
    var a := IndexOf(Labels(stored), "ALL");
    assert CodecId(labelOf, "ALL") == None;
    assert m[a] == Fresh(stored[a]);
    SumsAgree(m, stored, Drafts, StoredDrafts);
    SumsAgree(m, stored, Wins, StoredWins);
    SumsAgree(m, stored, Losses, StoredLosses);
    var f := Frame(stored, labelOf, stats);
    FrameCoversCanonical(stored, labelOf, stats);
    assert CanonicalOrder[0] == "ALL";
    assert IndexOf(KeysOf(f, RowLabel), CanonicalOrder[0]) == a;
  }

  /** Every frame row's aggression is its loss length minus its win length. */
  lemma FrameAggression(stored: seq<ArchTotals>, labelOf: seq<string>, stats: seq<ArchTurnCount>)
    requires WellFormed(stored, labelOf)
    ensures forall r :: r in Frame(stored, labelOf, stats) ==> r.aggression == r.averageLossLength - r.averageWinLength
  {
  }
}
