/**
 * The sparse `(turns, won) -> games` histogram that the turn-length
 * bucketizer, the speed calculator and the format overview all read.
 * A key with no row counts as zero games, as the source's
 * `if (t, won) in df2.index` guards make it.
 */
module TurnHistogram {
  import opened Schema

  /** What a row contributes: its games, or its games times its length in turns. */
  datatype Measure = Games | TurnWeighted

  function Weight(r: TurnCount, m: Measure): nat {
    match m
    case Games => r.games
    case TurnWeighted => r.turns * r.games
  }

  /** Σ weight over the rows with outcome `won` whose length lies in [lo, hi]. */
  function Between(rows: seq<TurnCount>, lo: int, hi: int, won: bool, m: Measure): nat {
    if rows == [] then 0
    else (if lo <= rows[0].turns <= hi && rows[0].won == won then Weight(rows[0], m) else 0)
         + Between(rows[1..], lo, hi, won, m)
  }

  /** Σ weight over the rows with outcome `won` that lasted at least `lo` turns. */
  function From(rows: seq<TurnCount>, lo: int, won: bool, m: Measure): nat {
    if rows == [] then 0
    else (if lo <= rows[0].turns && rows[0].won == won then Weight(rows[0], m) else 0)
         + From(rows[1..], lo, won, m)
  }

  /** Σ weight over every row with outcome `won`. */
  function Total(rows: seq<TurnCount>, won: bool, m: Measure): nat {
    From(rows, 0, won, m)
  }

  /** `df2.at[(t, won), 'games']`, or 0 when the key is absent. */
  function At(rows: seq<TurnCount>, t: int, won: bool): nat {
    Between(rows, t, t, won, Games)
  }

  /** `res_df['turns'].max()`: the longest game in a non-empty histogram. */
  function Longest(rows: seq<TurnCount>): (t: nat)
    requires rows != []
    ensures forall i :: 0 <= i < |rows| ==> rows[i].turns <= t
    ensures exists i :: 0 <= i < |rows| && rows[i].turns == t
  {
    if |rows| == 1 then rows[0].turns
    else
      var rest := Longest(rows[1..]);
      assert forall i :: 1 <= i < |rows| ==> rows[i] == rows[1..][i - 1];
      if rows[0].turns >= rest then rows[0].turns else rest
  }

  /**
   * What a loop over `range(lo, hi + 1)` accumulates from the per-turn
   * lookups: Σ At(t), or Σ t * At(t) for the turn-weighted measure.
   */
  function Dense(rows: seq<TurnCount>, lo: nat, hi: int, won: bool, m: Measure): nat
    decreases hi - lo
  {
    if hi < lo then 0
    else Dense(rows, lo, hi - 1, won, m)
         + (match m
            case Games => At(rows, hi, won)
            case TurnWeighted => hi * At(rows, hi, won))
  }

  lemma {:induction false} BetweenNothing(rows: seq<TurnCount>, lo: int, hi: int, won: bool, m: Measure)
    requires hi < lo
    ensures Between(rows, lo, hi, won, m) == 0
  {
    if rows != [] {
      BetweenNothing(rows[1..], lo, hi, won, m);
    }
  }

  /** Splitting a range of lengths at `mid` splits the sum. */
  lemma {:induction false} BetweenSplit(rows: seq<TurnCount>, lo: int, mid: int, hi: int, won: bool, m: Measure)
    requires lo - 1 <= mid <= hi
    ensures Between(rows, lo, hi, won, m) == Between(rows, lo, mid, won, m) + Between(rows, mid + 1, hi, won, m)
  {
    if rows != [] {
      BetweenSplit(rows[1..], lo, mid, hi, won, m);
    }
  }

  /** Games of at least `lo` turns are those in [lo, mid - 1] plus those of at least `mid`. */
  lemma {:induction false} FromSplit(rows: seq<TurnCount>, lo: int, mid: int, won: bool, m: Measure)
    requires lo <= mid
    ensures From(rows, lo, won, m) == Between(rows, lo, mid - 1, won, m) + From(rows, mid, won, m)
  {
    if rows != [] {
      FromSplit(rows[1..], lo, mid, won, m);
    }
  }

  /** Once the range reaches the longest game, a bounded range is an unbounded one. */
  lemma {:induction false} BetweenReachingLongest(rows: seq<TurnCount>, lo: int, hi: int, won: bool, m: Measure)
    requires forall i :: 0 <= i < |rows| ==> rows[i].turns <= hi
    ensures Between(rows, lo, hi, won, m) == From(rows, lo, won, m)
  {
    if rows != [] {
      assert forall i :: 0 <= i < |rows[1..]| ==> rows[1..][i] == rows[i + 1];
      BetweenReachingLongest(rows[1..], lo, hi, won, m);
    }
  }

  /** At a single length t, the turn-weighted sum is t times the games. */
  lemma {:induction false} SingleLengthWeighted(rows: seq<TurnCount>, t: nat, won: bool)
    ensures Between(rows, t, t, won, TurnWeighted) == t * At(rows, t, won)
  {
    if rows != [] {
      SingleLengthWeighted(rows[1..], t, won);
      var head := if t <= rows[0].turns <= t && rows[0].won == won then rows[0].games else 0;
      assert At(rows, t, won) == head + At(rows[1..], t, won);
      assert t * At(rows, t, won) == t * head + t * At(rows[1..], t, won);
    }
  }

  /** The dense per-turn accumulation equals the sparse sum over the rows in the same range. */
  lemma {:induction false} DenseIsBetween(rows: seq<TurnCount>, lo: nat, hi: int, won: bool, m: Measure)
    requires lo - 1 <= hi
    ensures Dense(rows, lo, hi, won, m) == Between(rows, lo, hi, won, m)
    decreases hi - lo
  {
    if hi < lo {
      BetweenNothing(rows, lo, hi, won, m);
    } else {
      DenseIsBetween(rows, lo, hi - 1, won, m);
      BetweenSplit(rows, lo, hi - 1, hi, won, m);
      if m == TurnWeighted {
        SingleLengthWeighted(rows, hi, won);
      }
    }
  }

  /** A side with no games has no turn-weighted games either. */
  lemma {:induction false} NoGamesNoWeight(rows: seq<TurnCount>, lo: int, won: bool)
    requires From(rows, lo, won, Games) == 0
    ensures From(rows, lo, won, TurnWeighted) == 0
  {
    if rows != [] {
      NoGamesNoWeight(rows[1..], lo, won);
    }
  }
}
