/**
 * `getCardsWithColor`: the cards of a set whose colour bitmask matches one
 * colour letter, in the order the card table lists them.
 */
module ColorFilter {
  import opened Tables
  import opened Schema
  import opened Grouping
  import opened Text

  /** The accepted letters; a letter's position is the bit it tests, so R is bit 2 and B bit 3. */
  const Letters: seq<string> := ["W", "U", "R", "B", "G", "C"]

  /** The index of the colourless letter. */
  const Colorless: nat := 5

  /** `colors.index(color)`, or None when the letter is not in the list. */
  function LetterIndex(color: string): (r: Option<nat>)
    ensures r.Some? ==> r.value < |Letters| && Letters[r.value] == color
    ensures r.None? <==> color !in Letters
  {
    if color == "W" then Some(0)
    else if color == "U" then Some(1)
    else if color == "R" then Some(2)
    else if color == "B" then Some(3)
    else if color == "G" then Some(4)
    else if color == "C" then Some(5)
    else None
  }

  function Pow2(c: nat): (p: nat)
    ensures p >= 1
  {
    if c == 0 then 1 else 2 * Pow2(c - 1)
  }

  /** `(color // 2**c) % 2 == 1`: bit c of the mask is set. */
  predicate HasBit(color: nat, c: nat) {
    (color / Pow2(c)) % 2 == 1
  }

  /** `'L' in card_type`. */
  predicate IsLand(card: Card) {
    'L' in card.cardType
  }

  /** The mask the query builds for letter index c. */
  predicate Keeps(card: Card, c: nat, includeMulticolor: bool, includeLands: bool) {
    if c == Colorless then card.color == 0 && (includeLands || !IsLand(card))
    else if includeMulticolor then HasBit(card.color, c)
    else card.color == Pow2(c)
  }

  /** The land mask is built by position and the colour mask by card id; the two agree when ids are positions. */
  predicate IdsArePositions(cards: seq<Card>) {
    forall i :: 0 <= i < |cards| ==> cards[i].id == i
  }

  /**
   * The selected cards (their names or ids are projections of these). An
   * unknown letter selects nothing.
   */
  function CardsWithColor(cards: seq<Card>, color: string, includeMulticolor: bool, includeLands: bool): (r: seq<Card>)
    requires Upper(color) == "C" && !includeLands ==> IdsArePositions(cards)
    ensures LetterIndex(Upper(color)).None? ==> r == []
    ensures LetterIndex(Upper(color)).Some? ==>
      forall card :: card in r <==> card in cards && Keeps(card, LetterIndex(Upper(color)).value, includeMulticolor, includeLands)
  {
    match LetterIndex(Upper(color))
    case None => []
    case Some(c) => Where(cards, (card: Card) => Keeps(card, c, includeMulticolor, includeLands))
  }

  /**
   * The selection is built in the card table's order: extending the table by
   * its next card extends the selection by that card exactly when the mask
   * keeps it. This holds for every letter and every flag, the colourless
   * branch without lands included.
   */
  lemma SelectionKeepsCardOrder(cards: seq<Card>, k: nat, color: string, includeMulticolor: bool, includeLands: bool)
    requires Upper(color) == "C" && !includeLands ==> IdsArePositions(cards)
    requires k < |cards|
    ensures IdsArePositions(cards) ==> IdsArePositions(cards[..k])
    ensures CardsWithColor(cards[..k + 1], color, includeMulticolor, includeLands)
         == CardsWithColor(cards[..k], color, includeMulticolor, includeLands)
            + (if LetterIndex(Upper(color)).Some? && Keeps(cards[k], LetterIndex(Upper(color)).value, includeMulticolor, includeLands)
               then [cards[k]] else [])
  {
    assert cards[..k + 1] == cards[..k] + [cards[k]];
    match LetterIndex(Upper(color))
    case None =>
    case Some(c) =>
      var keep := (card: Card) => Keeps(card, c, includeMulticolor, includeLands);
      WhereConcat(cards[..k], [cards[k]], keep);
      assert Where([cards[k]], keep) == (if keep(cards[k]) then [cards[k]] else []) by {
        assert [cards[k]][1..] == [];
      }
  }

  /** Only the six letters, in either case, are understood: any other string selects nothing. */
  lemma UnknownLetterSelectsNothing(cards: seq<Card>, color: string, includeMulticolor: bool, includeLands: bool)
    requires Upper(color) !in Letters
    ensures CardsWithColor(cards, color, includeMulticolor, includeLands) == []
  {
  }

  /** The letter is upper-cased first, so it selects the same cards in either case. */
  lemma LetterCaseIgnored(cards: seq<Card>, color: string, includeMulticolor: bool, includeLands: bool)
    requires Upper(color) == "C" && !includeLands ==> IdsArePositions(cards)
    ensures CardsWithColor(cards, color, includeMulticolor, includeLands)
         == CardsWithColor(cards, Upper(color), includeMulticolor, includeLands)
  {
    UpperIdempotent(color);
  }

  /** A card of exactly one colour is found in multicolour mode too. */
  lemma ExactIsMulticolor(card: Card, c: nat)
    requires c < Colorless
    ensures Keeps(card, c, false, false) ==> Keeps(card, c, true, false)
  {
  }

  /** Letters name bits in the list's order: "R" tests the mask 4 and "B" the mask 8. */
  lemma LetterBits()
    ensures LetterIndex("R") == Some(2) && Pow2(2) == 4
    ensures LetterIndex("B") == Some(3) && Pow2(3) == 8
  {
  }

  /** A red and black card (mask 4 + 8) is found under "R" and under "B" in multicolour mode, under neither in exact mode. */
  lemma RedBlackCard(card: Card)
    requires card.color == 12
    ensures Keeps(card, 2, true, false) && Keeps(card, 3, true, false)
    ensures !Keeps(card, 2, false, false) && !Keeps(card, 3, false, false)
    ensures !Keeps(card, 0, true, false) && !Keeps(card, 1, true, false) && !Keeps(card, 4, true, false)
  {
    assert Pow2(2) == 4 && Pow2(3) == 8 && Pow2(4) == 16;
  }

  /** The colourless letter finds only colourless cards, and a land only when lands are included. */
  lemma ColorlessSelection(card: Card, includeLands: bool)
    ensures Keeps(card, Colorless, true, includeLands) ==> card.color == 0
    ensures IsLand(card) ==> (Keeps(card, Colorless, true, includeLands) <==> card.color == 0 && includeLands)
  {
  }
}
