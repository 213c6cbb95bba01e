/**
 * `getPlayDrawSplits`: every archetype's games and win rate on the play and
 * on the draw, from the start statistics grouped by (archetype, side).
 */
module PlayDraw {
  import opened Tables
  import opened Schema
  import opened SafeDivision
  import opened Order
  import opened Grouping

  datatype SplitRow = SplitRow(archId: nat, gamesOnPlay: nat, wrOnPlay: real, gamesOnDraw: nat, wrOnDraw: real)

  function SideKey(r: StartStat): (nat, bool) {
    (r.archId, r.onPlay)
  }

  function ArchOf(r: StartStat): nat {
    r.archId
  }

  function Wins(r: StartStat): nat {
    r.winCount
  }

  function Games(r: StartStat): nat {
    r.gameCount
  }

  /** The group (a, onPlay) exists in the group-by result. */
  predicate HasSide(rows: seq<StartStat>, a: nat, onPlay: bool) {
    HasKey(rows, SideKey, (a, onPlay))
  }

  /** One group's `win_rate`: games of 0 are masked to 1. */
  function SideRate(rows: seq<StartStat>, a: nat, onPlay: bool): real {
    SafeRatio(KeyedSum(rows, SideKey, (a, onPlay), Wins) as real, KeyedSum(rows, SideKey, (a, onPlay), Games))
  }

  /** The output row of archetype a. */
  function SplitOf(rows: seq<StartStat>, a: nat): SplitRow {
    SplitRow(a, KeyedSum(rows, SideKey, (a, true), Games), SideRate(rows, a, true),
             KeyedSum(rows, SideKey, (a, false), Games), SideRate(rows, a, false))
  }

  /** The archetype ids of the sorted group-by index, each once. */
  function ArchIds(rows: seq<StartStat>): (ids: seq<nat>)
    ensures Increasing(ids, NatLt)
    ensures forall a :: a in ids <==> HasKey(rows, ArchOf, a)
  {
    GroupKeys(rows, ArchOf)
  }

  /**
   * The error the source raises: `.at` on the first archetype, in id order,
   * that lacks a side, and on its play side when that is the one missing.
   */
  ghost predicate FirstIncomplete(rows: seq<StartStat>, f: Failure) {
    && f.MissingPlayDrawKey?
    && f.archId in ArchIds(rows)
    && !HasSide(rows, f.archId, f.onPlay)
    && (!f.onPlay ==> HasSide(rows, f.archId, true))
    && forall a :: a in ArchIds(rows) && a < f.archId ==> HasSide(rows, a, true) && HasSide(rows, a, false)
  }

  /**
   * The loop visits the ids of the index in order; an archetype present on
   * both sides is visited twice and the second `.loc` write repeats the first,
   * so visiting each id once gives the same table.
   */
  method PlayDrawSplits(rows: seq<StartStat>) returns (res: Result<seq<SplitRow>>)
    ensures res.Ok? <==> forall a :: a in ArchIds(rows) ==> HasSide(rows, a, true) && HasSide(rows, a, false)
    ensures res.Ok? ==> |res.value| == |ArchIds(rows)|
    ensures res.Ok? ==> forall i :: 0 <= i < |res.value| ==> res.value[i] == SplitOf(rows, ArchIds(rows)[i])
    ensures res.Err? ==> FirstIncomplete(rows, res.failure)
  {
    var ids := ArchIds(rows);
    var out: seq<SplitRow> := [];
    for i := 0 to |ids|
      invariant |out| == i
      invariant forall k :: 0 <= k < i ==> out[k] == SplitOf(rows, ids[k])
      invariant forall k :: 0 <= k < i ==> HasSide(rows, ids[k], true) && HasSide(rows, ids[k], false)
    {
      var a := ids[i];
      EarlierIdsVisited(ids, i);
      if !HasSide(rows, a, true) {
        return Err(MissingPlayDrawKey(a, true));
      }
      if !HasSide(rows, a, false) {
        return Err(MissingPlayDrawKey(a, false));
      }
      var gamesOnPlay := KeyedSum(rows, SideKey, (a, true), Games);
      var wrOnPlay := SideRate(rows, a, true);
      var gamesOnDraw := KeyedSum(rows, SideKey, (a, false), Games);
      var wrOnDraw := SideRate(rows, a, false);
      out := out + [SplitRow(a, gamesOnPlay, wrOnPlay, gamesOnDraw, wrOnDraw)];
    }
    return Ok(out);
  }

  /** In increasing ids, every id below the `i`-th sits before position i. */
  lemma EarlierIdsVisited(ids: seq<nat>, i: nat)
    requires Increasing(ids, NatLt) && i < |ids|
    ensures forall b :: b in ids && b < ids[i] ==> exists k :: 0 <= k < i && ids[k] == b
  {
    forall b | b in ids && b < ids[i] ensures exists k :: 0 <= k < i && ids[k] == b {
      var k :| 0 <= k < |ids| && ids[k] == b;
      assert ids[k] < ids[i];
    }
  }

  /** The group-by keys of a list of archetypes: play side, then draw side. */
  function SideKeys(ids: seq<nat>): (ks: seq<(nat, bool)>)
    ensures forall a, onPlay: bool :: (a, onPlay) in ks <==> a in ids
  {
    if ids == [] then []
    else
      var rest := SideKeys(ids[1..]);
      assert ids == [ids[0]] + ids[1..];
      [(ids[0], true), (ids[0], false)] + rest
  }

  /** Σ games on both sides over the archetypes listed. */
  function SplitGames(rows: seq<StartStat>, ids: seq<nat>): nat {
    if ids == [] then 0
    else SplitOf(rows, ids[0]).gamesOnPlay + SplitOf(rows, ids[0]).gamesOnDraw + SplitGames(rows, ids[1..])
  }

  lemma {:induction false} SideKeysDistinct(ids: seq<nat>)
    requires Distinct(ids)
    ensures Distinct(SideKeys(ids))
  {
    if ids != [] {
      assert Distinct(ids[1..]) by {
        forall i, j | 0 <= i < j < |ids[1..]| ensures ids[1..][i] != ids[1..][j] {
          assert ids[1..][i] == ids[i + 1] && ids[1..][j] == ids[j + 1];
        }
      }
      SideKeysDistinct(ids[1..]);
      assert ids[0] !in ids[1..] by {
        forall j | 0 <= j < |ids[1..]| ensures ids[1..][j] != ids[0] {
          assert ids[1..][j] == ids[j + 1];
        }
      }
      var rest := SideKeys(ids[1..]);
      var ks := [(ids[0], true), (ids[0], false)] + rest;
      forall i, j | 0 <= i < j < |ks| ensures ks[i] != ks[j] {
        if i >= 2 {
          assert ks[i] == rest[i - 2] && ks[j] == rest[j - 2];
        } else if j >= 2 {
          assert ks[j] == rest[j - 2] && ks[j] in rest;
        }
      }
    }
  }

  lemma {:induction false} SplitGamesIsGroupTotal(rows: seq<StartStat>, ids: seq<nat>)
    ensures SplitGames(rows, ids) == GroupTotal(rows, SideKey, SideKeys(ids), Games)
  {
    if ids != [] {
      SplitGamesIsGroupTotal(rows, ids[1..]);
      var rest := SideKeys(ids[1..]);
      var ks := [(ids[0], true), (ids[0], false)] + rest;
      assert ks[1..] == [(ids[0], false)] + rest;
      assert ks[1..][1..] == rest;
    }
  }

  /** The table holds every fetched game exactly once, split over archetypes and sides. */
  lemma SplitsConserveGames(rows: seq<StartStat>)
    ensures SplitGames(rows, ArchIds(rows)) == SumOf(rows, Games)
  {
    var ids := ArchIds(rows);
    NatLtStrictTotal();
    IncreasingIsDistinct(ids, NatLt);
    SideKeysDistinct(ids);
    SplitGamesIsGroupTotal(rows, ids);
    EveryKeyIsGroupKey(rows, ArchOf);
    assert forall x :: x in rows ==> SideKey(x) in SideKeys(ids);
    GroupsPartitionTotal(rows, SideKey, SideKeys(ids), Games);
  }

  lemma {:induction false} GroupWinsBounded(rows: seq<StartStat>, k: (nat, bool))
    requires forall i :: 0 <= i < |rows| ==> rows[i].winCount <= rows[i].gameCount
    ensures KeyedSum(rows, SideKey, k, Wins) <= KeyedSum(rows, SideKey, k, Games)
  {
    if rows != [] {
      assert forall i :: 0 <= i < |rows[1..]| ==> rows[1..][i] == rows[i + 1];
      GroupWinsBounded(rows[1..], k);
    }
  }

  /** Where no row records more wins than games, both rates are proportions. */
  lemma SplitRatesAreProportions(rows: seq<StartStat>, a: nat)
    requires forall i :: 0 <= i < |rows| ==> rows[i].winCount <= rows[i].gameCount
    ensures 0.0 <= SplitOf(rows, a).wrOnPlay <= 1.0 && 0.0 <= SplitOf(rows, a).wrOnDraw <= 1.0
  {
    GroupWinsBounded(rows, (a, true));
    GroupWinsBounded(rows, (a, false));
    RateIsProportion(KeyedSum(rows, SideKey, (a, true), Wins), KeyedSum(rows, SideKey, (a, true), Games));
    RateIsProportion(KeyedSum(rows, SideKey, (a, false), Wins), KeyedSum(rows, SideKey, (a, false), Games));
  }
}
