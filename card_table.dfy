/**
 * `makeCardTable`: every card of the set, in name order, with its in-deck
 * win rate (GPWR), its mean pick in the draft packs and its in-hand
 * statistics. Columns joined on the card id are absent (pandas' NaN) for a
 * card the joined frame has no row for; the mean pick is assigned by
 * position after both sides are sorted by name.
 */
module CardTable {
  import opened Tables
  import opened Schema
  import opened Order
  import opened Grouping
  import opened Text
  import opened SafeDivision
  import opened Codec
  import CardRates

  // ----- GPWR and games played -----

  /** `s2`'s rows: the card game stats, restricted to the archetype unless ALL is selected. */
  function Played(stats: seq<CardGameStat>, sel: Selection): seq<CardGameStat> {
    Where(stats, (r: CardGameStat) => sel.Admits(r.archId))
  }

  lemma PlayedHasKey(stats: seq<CardGameStat>, sel: Selection, c: nat)
    ensures HasKey(Played(stats, sel), CardRates.CardOf, c) <==> exists r :: r in stats && r.cardId == c && sel.Admits(r.archId)
  {
    var p := Played(stats, sel);
    if exists r :: r in stats && r.cardId == c && sel.Admits(r.archId) {
      var r :| r in stats && r.cardId == c && sel.Admits(r.archId);
      assert r in p;
      var i :| 0 <= i < |p| && p[i] == r;
      assert CardRates.CardOf(p[i]) == c;
    }
    if HasKey(p, CardRates.CardOf, c) {
      var i :| 0 <= i < |p| && CardRates.CardOf(p[i]) == c;
      assert p[i] in p;
    }
  }

  /**
   * `df2['games_played']` joined on the card id: the card's summed games over
   * the admitted rows, absent when the group-by has no row for the card.
   */
  function GamesPlayed(stats: seq<CardGameStat>, sel: Selection, c: nat): (g: Option<nat>)
    ensures g.Some? ==> g.value == KeyedSum(Played(stats, sel), CardRates.CardOf, c, CardRates.Games)
  {
    if HasKey(Played(stats, sel), CardRates.CardOf, c) then
      Some(KeyedSum(Played(stats, sel), CardRates.CardOf, c, CardRates.Games))
    else None
  }

  /** A card has games played exactly when some admitted row is about it. */
  lemma GamesPlayedPresent(stats: seq<CardGameStat>, sel: Selection, c: nat)
    ensures GamesPlayed(stats, sel, c).Some? <==> exists r :: r in stats && r.cardId == c && sel.Admits(r.archId)
  {
    PlayedHasKey(stats, sel, c);
  }

  /** `wins / games_played.mask(0 -> 1)` joined on the card id. */
  function Gpwr(stats: seq<CardGameStat>, sel: Selection, c: nat): (r: Option<real>)
    ensures r.Some? <==> GamesPlayed(stats, sel, c).Some?
  {
    match GamesPlayed(stats, sel, c)
    case None => None
    case Some(games) => Some(SafeRatio(KeyedSum(Played(stats, sel), CardRates.CardOf, c, CardRates.Wins) as real, games))
  }

  lemma {:induction false} WhereAgree<T(!new)>(s: seq<T>, p: T -> bool, q: T -> bool)
    requires forall x :: x in s ==> p(x) == q(x)
    ensures Where(s, p) == Where(s, q)
  {
    if s != [] {
      assert forall x :: x in s[1..] ==> x in s;
      WhereAgree(s[1..], p, q);
    }
  }

  /**
   * GPWR is the in-deck win rate over every copy count: where no row holds
   * more than `maxCopies` copies, the card's games and rate are those of the
   * in-deck query over the window [0, maxCopies].
   */
  lemma GpwrIsInDeckRateOverAllCopies(stats: seq<CardGameStat>, sel: Selection, maxCopies: nat, c: nat)
    requires forall r :: r in stats ==> r.copies <= maxCopies
    requires GamesPlayed(stats, sel, c).Some?
    ensures GamesPlayed(stats, sel, c).value == CardRates.CardGames(stats, sel, 0, maxCopies, c)
    ensures Gpwr(stats, sel, c).value
            == SafeRatio(CardRates.CardWins(stats, sel, 0, maxCopies, c) as real, CardRates.CardGames(stats, sel, 0, maxCopies, c))
  {
    WhereAgree(stats, (r: CardGameStat) => sel.Admits(r.archId),
               (r: CardGameStat) => CardRates.InWindow(r, sel, 0, maxCopies));
  }

  /** Where no row records more wins than games, every GPWR is a proportion. */
  lemma GpwrIsProportion(stats: seq<CardGameStat>, sel: Selection, c: nat)
    requires forall x :: x in stats ==> x.winCount <= x.gameCount
    requires Gpwr(stats, sel, c).Some?
    ensures 0.0 <= Gpwr(stats, sel, c).value <= 1.0
  {
    var p := Played(stats, sel);
    CardRates.KeptWinsBounded(p, c);
    RateIsProportion(KeyedSum(p, CardRates.CardOf, c, CardRates.Wins), KeyedSum(p, CardRates.CardOf, c, CardRates.Games));
  }

  // ----- renaming the pack columns -----

  const CardPrefix: string := "pack_card_"

  /** A pack column's card name: the column with a leading `pack_card_` removed. */
  function Stripped(col: string): string {
    if HasPrefix(col, CardPrefix) then col[|CardPrefix|..] else col
  }

  function Renamed(columns: seq<string>): (names: seq<string>)
    ensures |names| == |columns|
    ensures forall i :: 0 <= i < |columns| ==> names[i] == Stripped(columns[i])
  {
    seq(|columns|, i requires 0 <= i < |columns| => Stripped(columns[i]))
  }

  /** The rename loop: the `i`-th new name is the `i`-th column with its prefix removed. */
  method RenameColumns(columns: seq<string>) returns (names: seq<string>)
    ensures names == Renamed(columns)
  {
    names := [];
    for i := 0 to |columns|
      invariant names == Renamed(columns[..i])
    {
      var col := columns[i];
      assert columns[..i + 1] == columns[..i] + [col];
      if |col| >= 10 && col[..10] == CardPrefix {
        names := names + [col[10..]];
      } else {
        names := names + [col];
      }
    }
    assert columns[..|columns|] == columns;
  }

  /** Removing the prefix undoes adding it, and adding it back restores a prefixed column. */
  lemma StrippedRoundTrip(name: string, col: string)
    ensures Stripped(CardPrefix + name) == name
    ensures HasPrefix(col, CardPrefix) ==> CardPrefix + Stripped(col) == col
    ensures !HasPrefix(col, CardPrefix) ==> Stripped(col) == col
  {
    assert (CardPrefix + name)[..|CardPrefix|] == CardPrefix;
    assert (CardPrefix + name)[|CardPrefix|..] == name;
    if HasPrefix(col, CardPrefix) {
      assert col == col[..|CardPrefix|] + col[|CardPrefix|..];
    }
  }

  // ----- mean pick -----

  function PickOf(r: PackRow): nat {
    r.pickNumber
  }

  /** The count in pack column j, 0 past the end of a short row. */
  function CountAt(j: nat): PackRow -> nat {
    (r: PackRow) => if j < |r.counts| then r.counts[j] else 0
  }

  /** Column j summed per pick number, over the given picks in order. */
  function CountsOver(packs: seq<PackRow>, picks: seq<nat>, j: nat): (counts: seq<nat>)
    ensures |counts| == |picks|
    ensures forall k :: 0 <= k < |picks| ==> counts[k] == KeyedSum(packs, PickOf, picks[k], CountAt(j))
  {
    if picks == [] then []
    else [KeyedSum(packs, PickOf, picks[0], CountAt(j))] + CountsOver(packs, picks[1..], j)
  }

  /** Column j's row of the transposed `groupby('pick_number').sum()`: one count per pick, in pick order. */
  function PickCounts(packs: seq<PackRow>, j: nat): seq<nat> {
    CountsOver(packs, GroupKeys(packs, PickOf), j)
  }

  function Id(x: nat): nat {
    x
  }

  function Total(counts: seq<nat>): nat {
    SumOf(counts, Id)
  }

  /** `max(axis=1)`: the largest count, 0 for a row with no picks. */
  function Peak(counts: seq<nat>): (m: nat)
    ensures forall k :: 0 <= k < |counts| ==> counts[k] <= m
    ensures counts != [] ==> exists k :: 0 <= k < |counts| && counts[k] == m
    ensures counts == [] ==> m == 0
  {
    if counts == [] then 0
    else
      var rest := Peak(counts[1..]);
      assert forall k :: 1 <= k < |counts| ==> counts[k] == counts[1..][k - 1];
      if counts[0] >= rest then counts[0] else rest
  }

  /**
   * `sum(axis=1) / max(axis=1)`: absent (NaN) exactly when no pick holds the
   * card, which covers an empty pack table.
   */
  function MeanOf(counts: seq<nat>): (r: Option<real>)
    ensures r.None? <==> forall k :: 0 <= k < |counts| ==> counts[k] == 0
  {
    var m := Peak(counts);
    if m == 0 then None else Some(Total(counts) as real / m as real)
  }

  /** The mean pick of pack column j. */
  function MeanPick(packs: seq<PackRow>, j: nat): Option<real> {
    MeanOf(PickCounts(packs, j))
  }

  lemma {:induction false} CountsOverTotal(packs: seq<PackRow>, picks: seq<nat>, j: nat)
    ensures Total(CountsOver(packs, picks, j)) == GroupTotal(packs, PickOf, picks, CountAt(j))
  {
    if picks != [] {
      CountsOverTotal(packs, picks[1..], j);
      assert CountsOver(packs, picks, j)[1..] == CountsOver(packs, picks[1..], j);
    }
  }

  /** The counts per pick add up to the column's count over every pack row. */
  lemma PickCountsCoverColumn(packs: seq<PackRow>, j: nat)
    ensures Total(PickCounts(packs, j)) == SumOf(packs, CountAt(j))
  {
    var picks := GroupKeys(packs, PickOf);
    NatLtStrictTotal();
    IncreasingIsDistinct(picks, NatLt);
    EveryKeyIsGroupKey(packs, PickOf);
    CountsOverTotal(packs, picks, j);
    GroupsPartitionTotal(packs, PickOf, picks, CountAt(j));
  }

  lemma {:induction false} TotalAtLeastEach(counts: seq<nat>, k: nat)
    requires k < |counts|
    ensures counts[k] <= Total(counts)
  {
    if k > 0 {
      TotalAtLeastEach(counts[1..], k - 1);
    }
  }

  lemma {:induction false} TotalAtMostPeaks(counts: seq<nat>, m: nat)
    requires forall k :: 0 <= k < |counts| ==> counts[k] <= m
    ensures Total(counts) <= |counts| * m
  {
    if counts != [] {
      assert forall k :: 0 <= k < |counts[1..]| ==> counts[1..][k] == counts[k + 1];
      TotalAtMostPeaks(counts[1..], m);
    }
  }

  lemma QuotientBetween(t: nat, m: nat, n: nat)
    requires 0 < m <= t <= n * m
    ensures 1.0 <= t as real / m as real <= n as real
  {
    var q := t as real / m as real;
    var mr := m as real;
    assert q * mr == t as real;
    assert (n * m) as real == n as real * mr;
    assert t as real <= (n * m) as real;
    CancelFactor(1.0, q, mr);
    CancelFactor(q, n as real, mr);
  }

  /** A mean pick lies between 1 and the number of picks. */
  lemma MeanOfBounds(counts: seq<nat>)
    requires MeanOf(counts).Some?
    ensures 1.0 <= MeanOf(counts).value <= |counts| as real
  {
    var m := Peak(counts);
    var k :| 0 <= k < |counts| && counts[k] == m;
    TotalAtLeastEach(counts, k);
    TotalAtMostPeaks(counts, m);
    QuotientBetween(Total(counts), m, |counts|);
  }

  /** The mean pick does not look at pick numbers: reordering the picks leaves it unchanged. */
  lemma MeanOfPermutation(a: seq<nat>, b: seq<nat>)
    requires multiset(a) == multiset(b)
    ensures MeanOf(a) == MeanOf(b)
  {
    SumOfPermutation(a, b, Id);
    if a != [] {
      var i :| 0 <= i < |a| && a[i] == Peak(a);
      assert a[i] in multiset(b);
      var j :| 0 <= j < |b| && b[j] == Peak(b);
      assert b[j] in multiset(a);
    } else {
      assert |b| == |multiset(b)| == 0;
    }
  }

  function Repeat(n: nat, t: nat): (s: seq<nat>)
    ensures |s| == t && forall k :: 0 <= k < t ==> s[k] == n
  {
    if t == 0 then [] else [n] + Repeat(n, t - 1)
  }

  lemma {:induction false} RepeatTotal(n: nat, t: nat)
    ensures Total(Repeat(n, t)) == n * t
  {
    if t > 0 {
      assert Repeat(n, t)[1..] == Repeat(n, t - 1);
      RepeatTotal(n, t - 1);
    }
  }

  /**
   * A card seen n times at each of the first t picks and never after has
   * mean pick t.
   */
  lemma FlatCountsMeanT(n: nat, t: nat, z: nat)
    requires n > 0 && t > 0
    ensures MeanOf(Repeat(n, t) + Repeat(0, z)) == Some(t as real)
  {
    var counts := Repeat(n, t) + Repeat(0, z);
    SumOfConcat(Repeat(n, t), Repeat(0, z), Id);
    RepeatTotal(n, t);
    RepeatTotal(0, z);
    assert Total(counts) == n * t;
    assert Peak(counts) == n by {
      assert counts[0] == n;
      assert forall k :: 0 <= k < |counts| ==> counts[k] <= n;
    }
    ProductOverFactor(n, t);
  }

  lemma ProductOverFactor(n: nat, t: nat)
    requires n > 0
    ensures (n * t) as real / n as real == t as real
  {
    assert (n * t) as real == t as real * n as real;
  }

  /** Counts 100, 50, 10 give 160 / 100: the sum over the maximum, not a pick-weighted average. */
  lemma MeanPickExample()
    ensures MeanOf([100, 50, 10]) == Some(1.6)
    ensures MeanOf([100, 50, 10]) != Some(2.3)
  {
    assert Peak([100, 50, 10]) == 100;
    assert Total([100, 50, 10]) == 160;
  }

  // ----- the card table -----

  /** One row of the mean-pick series: a renamed column and its mean pick. */
  datatype PickEntry = PickEntry(name: string, meanPick: Option<real>)

  function EntryName(e: PickEntry): string {
    e.name
  }

  function PickEntries(packs: seq<PackRow>, names: seq<string>): (es: seq<PickEntry>)
    ensures |es| == |names|
    ensures forall j :: 0 <= j < |names| ==> es[j] == PickEntry(names[j], MeanPick(packs, j))
  {
    seq(|names|, j requires 0 <= j < |names| => PickEntry(names[j], MeanPick(packs, j)))
  }

  function CardName(c: Card): string {
    c.name
  }

  datatype CardLine = CardLine(id: nat, name: string, color: nat, rarity: string,
                               gpwr: Option<real>, gamesPlayed: Option<nat>, meanPick: Option<real>,
                               gamesInHand: Option<nat>, gihwr: Option<real>,
                               adjustedIwd: Option<real>, inclusionImpact: Option<real>,
                               adjustedGihwr: nat)

  function LineName(l: CardLine): string {
    l.name
  }

  /** `s4`'s rows: the derived stats of the resolved archetype id (no exception for ALL). */
  function InHandRows(derived: seq<DerivedStat>, sel: Selection): seq<DerivedStat> {
    Where(derived, (d: DerivedStat) => d.archId == sel.ResolvedId())
  }

  /** The row a join on the card id reads: the first with that card id, absent when there is none. */
  function RowFor(ds: seq<DerivedStat>, c: nat): Option<DerivedStat> {
    if ds == [] then None
    else if ds[0].cardId == c then Some(ds[0])
    else RowFor(ds[1..], c)
  }

  /** The row found is a row about the card, and none is found only when there is none. */
  lemma {:induction false} RowForFinds(ds: seq<DerivedStat>, c: nat)
    ensures RowFor(ds, c).Some? ==> RowFor(ds, c).value in ds && RowFor(ds, c).value.cardId == c
    ensures RowFor(ds, c).None? <==> forall d :: d in ds ==> d.cardId != c
  {
    if ds != [] && ds[0].cardId != c {
      assert forall d :: d in ds <==> d == ds[0] || d in ds[1..];
      RowForFinds(ds[1..], c);
    }
  }

  /** The columns joined to a card on its id. */
  datatype Joined = Joined(gpwr: Option<real>, gamesPlayed: Option<nat>, gamesInHand: Option<nat>,
                           gihwr: Option<real>, adjustedIwd: Option<real>, inclusionImpact: Option<real>)

  /** What the id-joins attach to card c: the GPWR columns and the in-hand columns. */
  function JoinFor(stats: seq<CardGameStat>, sel: Selection, derived: seq<DerivedStat>, c: nat): Joined {
    var hand := RowFor(InHandRows(derived, sel), c);
    Joined(Gpwr(stats, sel, c), GamesPlayed(stats, sel, c),
           if hand.Some? then Some(hand.value.gamesInHand) else None,
           if hand.Some? then Some(CardRates.HandRow(hand.value).winRate) else None,
           if hand.Some? then Some(hand.value.adjustedIwd) else None,
           if hand.Some? then Some(hand.value.inclusionImpact) else None)
  }

  /** A card's line, given the mean pick assigned to it and its joined columns; `adjusted_GIHWR` is always 0. */
  function LineOf(card: Card, meanPick: Option<real>, j: Joined): CardLine {
    CardLine(card.id, card.name, card.color, card.rarity, j.gpwr, j.gamesPlayed, meanPick,
             j.gamesInHand, j.gihwr, j.adjustedIwd, j.inclusionImpact, 0)
  }

  /** With the derived table keyed by (card, archetype), a card's in-hand row is the unique one of the archetype. */
  lemma InHandRowIsUnique(derived: seq<DerivedStat>, sel: Selection, c: nat, d: DerivedStat)
    requires KeysDistinct(derived, CardRates.DerivedKey)
    requires d in derived && d.archId == sel.ResolvedId() && d.cardId == c
    ensures RowFor(InHandRows(derived, sel), c) == Some(d)
  {
    var rows := InHandRows(derived, sel);
    assert d in rows;
    RowForFinds(rows, c);
    var e := RowFor(rows, c).value;
    var i :| 0 <= i < |derived| && derived[i] == d;
    var j :| 0 <= j < |derived| && derived[j] == e;
    assert i == j;
  }

  /** The entries sorted by name: `mean_pick_df.sort_index()`. */
  function SortedEntries(packs: seq<PackRow>, names: seq<string>): (es: seq<PickEntry>)
    requires Distinct(names)
    ensures |es| == |names|
    ensures SortedBy(es, EntryName, NameLt)
    ensures forall e :: e in es <==> e in PickEntries(packs, names)
  {
    var entries := PickEntries(packs, names);
    NameLtStrictTotal();
    SortBy(entries, EntryName, NameLt)
  }

  /** The cards sorted by name: `df.sort_values('name')`. */
  function SortedCards(cards: seq<Card>): (cs: seq<Card>)
    requires KeysDistinct(cards, CardName)
    ensures |cs| == |cards|
    ensures SortedBy(cs, CardName, NameLt)
    ensures forall c :: c in cs <==> c in cards
  {
    NameLtStrictTotal();
    SortBy(cards, CardName, NameLt)
  }

  /** The `i`-th card with the `i`-th mean pick and the card's joined columns. */
  function Lines(sorted: seq<Card>, picks: seq<Option<real>>, stats: seq<CardGameStat>, sel: Selection,
                 derived: seq<DerivedStat>): (lines: seq<CardLine>)
    requires |picks| == |sorted|
    ensures |lines| == |sorted|
    ensures forall i :: 0 <= i < |sorted| ==>
      lines[i] == LineOf(sorted[i], picks[i], JoinFor(stats, sel, derived, sorted[i].id))
  {
    seq(|sorted|, i requires 0 <= i < |sorted| => LineOf(sorted[i], picks[i], JoinFor(stats, sel, derived, sorted[i].id)))
  }

  /** Lines built from cards in name order are in name order. */
  lemma LinesInNameOrder(sorted: seq<Card>, picks: seq<Option<real>>, stats: seq<CardGameStat>, sel: Selection,
                         derived: seq<DerivedStat>)
    requires |picks| == |sorted| && SortedBy(sorted, CardName, NameLt)
    ensures SortedBy(Lines(sorted, picks, stats, sel, derived), LineName, NameLt)
  {
    var lines := Lines(sorted, picks, stats, sel, derived);
    forall i, j | 0 <= i < j < |lines| ensures NameLt(LineName(lines[i]), LineName(lines[j])) {
      assert LineName(lines[i]) == CardName(sorted[i]) && LineName(lines[j]) == CardName(sorted[j]);
    }
  }

  function EntryPick(e: PickEntry): Option<real> {
    e.meanPick
  }

  /**
   * The table as written: the cards in name order, each with its own
   * id-joined columns, and the `i`-th mean pick of the name-sorted series
   * assigned to the `i`-th card; the assignment raises when the lengths differ.
   */
  function CardTable(cards: seq<Card>, stats: seq<CardGameStat>, sel: Selection, packs: seq<PackRow>,
                     columns: seq<string>, derived: seq<DerivedStat>): (res: Result<seq<CardLine>>)
    requires KeysDistinct(cards, CardName)
    requires Distinct(Renamed(columns))
    ensures res.Err? <==> |cards| != |columns|
    ensures res.Err? ==> res.failure == LengthMismatch(|cards|, |columns|)
    ensures res.Ok? ==> |res.value| == |cards| && SortedBy(res.value, LineName, NameLt)
    ensures res.Ok? ==> forall i :: 0 <= i < |res.value| ==>
      res.value[i] == LineOf(SortedCards(cards)[i], SortedEntries(packs, Renamed(columns))[i].meanPick,
                             JoinFor(stats, sel, derived, SortedCards(cards)[i].id))
  {
    var entries := SortedEntries(packs, Renamed(columns));
    if |entries| != |cards| then Err(LengthMismatch(|cards|, |entries|))
    else
      var sorted := SortedCards(cards);
      var picks := KeysOf(entries, EntryPick);
      LinesInNameOrder(sorted, picks, stats, sel, derived);
      Ok(Lines(sorted, picks, stats, sel, derived))
  }

  /** The position of a column name, absent when no column carries it. */
  function ColumnOf(names: seq<string>, name: string): (j: Option<nat>)
    ensures j.Some? ==> j.value < |names| && names[j.value] == name
    ensures j.None? <==> name !in names
  {
    if names == [] then None
    else if names[0] == name then Some(0)
    else
      assert forall n :: n in names <==> n == names[0] || n in names[1..];
      match ColumnOf(names[1..], name)
      case None => None
      case Some(k) => Some(k + 1)
  }

  /** The by-name lookup the positional assignment stands in for: the mean pick of the card's own column. */
  function MeanPickByName(packs: seq<PackRow>, names: seq<string>, name: string): (r: Option<real>)
    requires Distinct(names)
    ensures name !in names ==> r.None?
    ensures forall j :: 0 <= j < |names| && names[j] == name ==> r == MeanPick(packs, j)
  {
    ColumnOfIsPosition(names, name);
    match ColumnOf(names, name)
    case None => None
    case Some(j) => MeanPick(packs, j)
  }

  /** Among distinct names, the position found is the one position of the name. */
  lemma ColumnOfIsPosition(names: seq<string>, name: string)
    requires Distinct(names)
    ensures forall j :: 0 <= j < |names| && names[j] == name ==> ColumnOf(names, name) == Some(j)
  {
    forall j | 0 <= j < |names| && names[j] == name ensures ColumnOf(names, name) == Some(j) {
      var p := ColumnOf(names, name);
      assert p.Some? && names[p.value] == name;
      assert p.value == j;
    }
  }

  /** The mean pick each name-sorted card should receive: its own column's. */
  function PicksByName(sorted: seq<Card>, packs: seq<PackRow>, names: seq<string>): (picks: seq<Option<real>>)
    requires Distinct(names)
    ensures |picks| == |sorted|
    ensures forall i :: 0 <= i < |sorted| ==> picks[i] == MeanPickByName(packs, names, sorted[i].name)
  {
    seq(|sorted|, i requires 0 <= i < |sorted| => MeanPickByName(packs, names, sorted[i].name))
  }

  /**
   * The table as intended: the cards in name order, each with its own
   * id-joined columns and the mean pick of its own column, absent for a
   * card with no column; it has no length to get wrong.
   */
  function CardTableByName(cards: seq<Card>, stats: seq<CardGameStat>, sel: Selection, packs: seq<PackRow>,
                           columns: seq<string>, derived: seq<DerivedStat>): (lines: seq<CardLine>)
    requires KeysDistinct(cards, CardName)
    requires Distinct(Renamed(columns))
    ensures |lines| == |cards| && SortedBy(lines, LineName, NameLt)
    ensures forall i :: 0 <= i < |lines| ==>
      lines[i] == LineOf(SortedCards(cards)[i], MeanPickByName(packs, Renamed(columns), SortedCards(cards)[i].name),
                         JoinFor(stats, sel, derived, SortedCards(cards)[i].id))
  {
    var sorted := SortedCards(cards);
    var picks := PicksByName(sorted, packs, Renamed(columns));
    LinesInNameOrder(sorted, picks, stats, sel, derived);
    Lines(sorted, picks, stats, sel, derived)
  }

  /**
   * The joined columns of card c: games played (and GPWR) exactly when an
   * admitted stats row is about the card, and the in-hand columns of the
   * card's derived row for the resolved archetype, absent when it has none.
   */
  lemma JoinedColumns(stats: seq<CardGameStat>, sel: Selection, derived: seq<DerivedStat>, c: nat)
    requires KeysDistinct(derived, CardRates.DerivedKey)
    ensures JoinFor(stats, sel, derived, c).gamesPlayed.Some? <==>
              exists r :: r in stats && r.cardId == c && sel.Admits(r.archId)
    ensures JoinFor(stats, sel, derived, c).gpwr.Some? <==> JoinFor(stats, sel, derived, c).gamesPlayed.Some?
    ensures JoinFor(stats, sel, derived, c).gamesInHand.None? <==>
              forall d :: d in derived && d.archId == sel.ResolvedId() ==> d.cardId != c
    ensures forall d :: d in derived && d.archId == sel.ResolvedId() && d.cardId == c ==>
              && JoinFor(stats, sel, derived, c).gamesInHand == Some(d.gamesInHand)
              && JoinFor(stats, sel, derived, c).gihwr == Some(SafeRatio(d.winsInHand as real, d.gamesInHand))
              && JoinFor(stats, sel, derived, c).adjustedIwd == Some(d.adjustedIwd)
              && JoinFor(stats, sel, derived, c).inclusionImpact == Some(d.inclusionImpact)
  {
    GamesPlayedPresent(stats, sel, c);
    RowForFinds(InHandRows(derived, sel), c);
    forall d | d in derived && d.archId == sel.ResolvedId() && d.cardId == c
      ensures RowFor(InHandRows(derived, sel), c) == Some(d)
    {
      InHandRowIsUnique(derived, sel, c, d);
    }
  }

  lemma EntryNameIsColumn(packs: seq<PackRow>, names: seq<string>, e: nat)
    requires Distinct(names)
    requires e < |names|
    ensures SortedEntries(packs, names)[e].name in names
  {
    var entries := SortedEntries(packs, names);
    var pe := PickEntries(packs, names);
    assert entries[e] in pe;
    var j :| 0 <= j < |pe| && pe[j] == entries[e];
    assert names[j] == entries[e].name;
  }

  lemma ColumnIsEntryName(packs: seq<PackRow>, names: seq<string>, j: nat)
    requires Distinct(names)
    requires j < |names|
    ensures exists e :: 0 <= e < |names| && SortedEntries(packs, names)[e].name == names[j]
  {
    var entries := SortedEntries(packs, names);
    var pe := PickEntries(packs, names);
    assert pe[j] in entries;
    var e :| 0 <= e < |entries| && entries[e] == pe[j];
  }

  lemma SortedCardIsCard(cards: seq<Card>, i: nat)
    requires KeysDistinct(cards, CardName)
    requires i < |cards|
    ensures exists k :: 0 <= k < |cards| && cards[k] == SortedCards(cards)[i]
  {
    assert SortedCards(cards)[i] in cards;
  }

  lemma CardIsSortedCard(cards: seq<Card>, k: nat)
    requires KeysDistinct(cards, CardName)
    requires k < |cards|
    ensures exists i :: 0 <= i < |cards| && SortedCards(cards)[i] == cards[k]
  {
    assert cards[k] in SortedCards(cards);
  }

  lemma CardNamesAmongEntries(cards: seq<Card>, packs: seq<PackRow>, names: seq<string>)
    requires KeysDistinct(cards, CardName)
    requires Distinct(names)
    requires forall n :: n in KeysOf(cards, CardName) ==> n in names
    ensures forall n :: n in KeysOf(SortedCards(cards), CardName) ==> n in KeysOf(SortedEntries(packs, names), EntryName)
  {
    var a := KeysOf(SortedCards(cards), CardName);
    var b := KeysOf(SortedEntries(packs, names), EntryName);
    forall n | n in a ensures n in b {
      var i :| 0 <= i < |a| && a[i] == n;
      SortedCardIsCard(cards, i);
      var k :| 0 <= k < |cards| && cards[k] == SortedCards(cards)[i];
      assert KeysOf(cards, CardName)[k] == n;
      assert n in KeysOf(cards, CardName);
      assert n in names;
      var j :| 0 <= j < |names| && names[j] == n;
      ColumnIsEntryName(packs, names, j);
      var e :| 0 <= e < |names| && SortedEntries(packs, names)[e].name == names[j];
      assert b[e] == n;
    }
  }

  lemma EntryNamesAmongCards(cards: seq<Card>, packs: seq<PackRow>, names: seq<string>)
    requires KeysDistinct(cards, CardName)
    requires Distinct(names)
    requires forall n :: n in names ==> n in KeysOf(cards, CardName)
    ensures forall n :: n in KeysOf(SortedEntries(packs, names), EntryName) ==> n in KeysOf(SortedCards(cards), CardName)
  {
    var a := KeysOf(SortedCards(cards), CardName);
    var b := KeysOf(SortedEntries(packs, names), EntryName);
    forall n | n in b ensures n in a {
      var e :| 0 <= e < |b| && b[e] == n;
      EntryNameIsColumn(packs, names, e);
      assert n in KeysOf(cards, CardName);
      var k :| 0 <= k < |cards| && KeysOf(cards, CardName)[k] == n;
      CardIsSortedCard(cards, k);
      var i :| 0 <= i < |cards| && SortedCards(cards)[i] == cards[k];
      assert a[i] == n;
    }
  }

  /** With the same names on both sides, the two name-sorted sequences line up name for name. */
  lemma SortedNamesLineUp(cards: seq<Card>, packs: seq<PackRow>, names: seq<string>)
    requires KeysDistinct(cards, CardName)
    requires Distinct(names)
    requires forall n :: n in names <==> n in KeysOf(cards, CardName)
    ensures KeysOf(SortedCards(cards), CardName) == KeysOf(SortedEntries(packs, names), EntryName)
  {
    CardNamesAmongEntries(cards, packs, names);
    EntryNamesAmongCards(cards, packs, names);
    NameLtStrictTotal();
    IncreasingUnique(KeysOf(SortedCards(cards), CardName), KeysOf(SortedEntries(packs, names), EntryName), NameLt);
  }

  lemma LineUpLengths(cards: seq<Card>, packs: seq<PackRow>, names: seq<string>)
    requires KeysDistinct(cards, CardName)
    requires Distinct(names)
    requires KeysOf(SortedCards(cards), CardName) == KeysOf(SortedEntries(packs, names), EntryName)
    ensures |cards| == |names|
  {
    assert |KeysOf(SortedCards(cards), CardName)| == |cards|;
    assert |KeysOf(SortedEntries(packs, names), EntryName)| == |names|;
  }

  lemma PickLinesUp(cards: seq<Card>, packs: seq<PackRow>, names: seq<string>, i: nat)
    requires KeysDistinct(cards, CardName)
    requires Distinct(names)
    requires KeysOf(SortedCards(cards), CardName) == KeysOf(SortedEntries(packs, names), EntryName)
    requires i < |cards|
    ensures SortedEntries(packs, names)[i].meanPick == MeanPickByName(packs, names, SortedCards(cards)[i].name)
  {
    var entries := SortedEntries(packs, names);
    assert entries[i] in PickEntries(packs, names);
    var j :| 0 <= j < |names| && PickEntries(packs, names)[j] == entries[i];
    assert KeysOf(SortedCards(cards), CardName)[i] == KeysOf(entries, EntryName)[i];
  }

  /** With the same names on both sides, the `i`-th entry's mean pick is the `i`-th card's by name. */
  lemma PicksLineUp(cards: seq<Card>, packs: seq<PackRow>, names: seq<string>)
    requires KeysDistinct(cards, CardName)
    requires Distinct(names)
    requires forall n :: n in names <==> n in KeysOf(cards, CardName)
    ensures |cards| == |names|
    ensures KeysOf(SortedEntries(packs, names), EntryPick) == PicksByName(SortedCards(cards), packs, names)
  {
    SortedNamesLineUp(cards, packs, names);
    LineUpLengths(cards, packs, names);
    var picks := KeysOf(SortedEntries(packs, names), EntryPick);
    var intended := PicksByName(SortedCards(cards), packs, names);
    forall i | 0 <= i < |cards| ensures picks[i] == intended[i] {
      PickLinesUp(cards, packs, names, i);
    }
  }

  /**
   * When the pack columns name exactly the cards of the set, the positional
   * assignment gives every card the mean pick of its own column.
   */
  lemma CardTableAgreesWhenNamesMatch(cards: seq<Card>, stats: seq<CardGameStat>, sel: Selection, packs: seq<PackRow>,
                                      columns: seq<string>, derived: seq<DerivedStat>)
    requires KeysDistinct(cards, CardName)
    requires Distinct(Renamed(columns))
    requires forall n :: n in Renamed(columns) <==> n in KeysOf(cards, CardName)
    ensures CardTable(cards, stats, sel, packs, columns, derived) == Ok(CardTableByName(cards, stats, sel, packs, columns, derived))
  {
    PicksLineUp(cards, packs, Renamed(columns));
  }

  const ExampleCards: seq<Card> := [Card(1, "Ant", 0, "Creature", "C"), Card(2, "Cat", 0, "Creature", "C")]
  const ExampleColumns: seq<string> := ["pack_card_Bee", "pack_card_Cat"]
  const ExamplePacks: seq<PackRow> := [PackRow(1, 1, [4, 2]), PackRow(1, 2, [2, 2])]

  lemma ExampleNames()
    ensures Renamed(ExampleColumns) == ["Bee", "Cat"]
    ensures KeysDistinct(ExampleCards, CardName)
  {
    StrippedRoundTrip("Bee", "");
    StrippedRoundTrip("Cat", "");
  }

  lemma ExampleCardsSorted()
    ensures KeysDistinct(ExampleCards, CardName)
    ensures SortedCards(ExampleCards)[0] == ExampleCards[0]
  {
    var sorted := SortedCards(ExampleCards);
    assert NameLt("Ant", "Cat");
    assert sorted[0] in ExampleCards && sorted[1] in ExampleCards;
    if sorted[0] == ExampleCards[1] {
      assert NameLt(sorted[0].name, sorted[1].name);
    }
  }

  lemma ExampleEntriesSorted()
    ensures Distinct(Renamed(ExampleColumns))
    ensures SortedEntries(ExamplePacks, Renamed(ExampleColumns))[0] == PickEntry("Bee", MeanPick(ExamplePacks, 0))
  {
    ExampleNames();
    var entries := SortedEntries(ExamplePacks, Renamed(ExampleColumns));
    var pe := PickEntries(ExamplePacks, Renamed(ExampleColumns));
    assert NameLt("Bee", "Cat");
    assert entries[0] in pe && entries[1] in pe;
  }

  lemma ExampleBeeIsPicked()
    ensures MeanPick(ExamplePacks, 0).Some?
  {
    assert PickOf(ExamplePacks[0]) == 1;
    assert HasKey(ExamplePacks, PickOf, 1);
    var picks := GroupKeys(ExamplePacks, PickOf);
    var k :| 0 <= k < |picks| && picks[k] == 1;
    assert KeyedSum(ExamplePacks, PickOf, 1, CountAt(0)) == 4;
    assert PickCounts(ExamplePacks, 0)[k] == 4;
  }

  lemma ExampleTableAsWritten()
    ensures Distinct(Renamed(ExampleColumns)) && KeysDistinct(ExampleCards, CardName)
    ensures var table := CardTable(ExampleCards, [], AllArchetypes(0), ExamplePacks, ExampleColumns, []);
            table.Ok? && table.value[0].name == "Ant" && table.value[0].meanPick == MeanPick(ExamplePacks, 0)
  {
    ExampleNames();
    ExampleCardsSorted();
    ExampleEntriesSorted();
  }

  lemma ExampleTableByName()
    ensures Distinct(Renamed(ExampleColumns)) && KeysDistinct(ExampleCards, CardName)
    ensures "Ant" !in Renamed(ExampleColumns)
    ensures CardTableByName(ExampleCards, [], AllArchetypes(0), ExamplePacks, ExampleColumns, [])[0].meanPick.None?
  {
    ExampleNames();
    ExampleCardsSorted();
  }

  /**
   * Positional assignment when the names differ but the lengths agree: the
   * set has Ant and Cat, the packs list Bee and Cat, and Ant receives Bee's
   * mean pick, where the by-name table leaves Ant's absent.
   */
  lemma MeanPickMisattributed()
    ensures Distinct(Renamed(ExampleColumns)) && KeysDistinct(ExampleCards, CardName)
    ensures var table := CardTable(ExampleCards, [], AllArchetypes(0), ExamplePacks, ExampleColumns, []);
            && table.Ok?
            && table.value[0].name == "Ant"
            && "Ant" !in Renamed(ExampleColumns)
            && table.value[0].meanPick == MeanPick(ExamplePacks, 0)
            && MeanPick(ExamplePacks, 0).Some?
            && CardTableByName(ExampleCards, [], AllArchetypes(0), ExamplePacks, ExampleColumns, [])[0].meanPick.None?
  {
    ExampleTableAsWritten();
    ExampleTableByName();
    ExampleBeeIsPicked();
  }
}
