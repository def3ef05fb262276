/** Card records as the album controller reads them, and the two folds over a
    list of cards that the rest of the model is specified with. */
module Cards {

  datatype Option<T> = None | Some(value: T)

  /** A card of the catalog, of a user's album or of a user's deck. Only the
      fields the controller's logic reads are kept: `name` is the key the
      controller matches on, `power` is what the deck budget adds up. */
  datatype Card = Card(name: string, power: int)

  /** The names of `cards`, in order. */
  function Names(cards: seq<Card>): (names: seq<string>)
    ensures |names| == |cards|
    ensures forall i :: 0 <= i < |cards| ==> names[i] == cards[i].name
  {
    seq(|cards|, i requires 0 <= i < |cards| => cards[i].name)
  }

  /** How many of `cards` are called `name`, counted from the front as the
      controller's loops visit them. */
  function Occurrences(cards: seq<Card>, name: string): nat
  {
    if cards == [] then 0
    else
      var k := |cards| - 1;
      Occurrences(cards[..k], name) + (if cards[k].name == name then 1 else 0)
  }

  /** The sum of the powers of `cards`, accumulated front to back. */
  function DeckSum(cards: seq<Card>): int
  {
    if cards == [] then 0 else DeckSum(cards[..|cards| - 1]) + cards[|cards| - 1].power
  }

  /** `Occurrences` is the multiplicity of `name` among the card names: it does
      not depend on the order of the list, and it is positive exactly when the
      name occurs. */
  lemma {:induction false} OccurrencesIsMultiplicity(cards: seq<Card>, name: string)
    ensures Occurrences(cards, name) == multiset(Names(cards))[name]
    ensures Occurrences(cards, name) > 0 <==> name in Names(cards)
  {
    if cards != [] {
      var k := |cards| - 1;
      OccurrencesIsMultiplicity(cards[..k], name);
      assert Names(cards) == Names(cards[..k]) + [cards[k].name];
    }
  }

  /** Appending a card to a deck adds exactly its power. */
  lemma DeckSumPush(deck: seq<Card>, card: Card)
    ensures DeckSum(deck + [card]) == DeckSum(deck) + card.power
  {
  }
}
