/** The ownership side of the album: counting the user's copies of each card
    (`loadAlbumUser`) and overlaying those counts on the catalog
    (`renderCardsAlbum`). */
module Ownership {
  import opened Cards

  /** The `cardCount` dictionary after the counting loop has visited `cards`.
      A name already holding a truthy (non-zero) count is incremented, any
      other name is set to 1. */
  function CardCount(cards: seq<Card>): map<string, nat>
  {
    if cards == [] then map[]
    else
      var counts := CardCount(cards[..|cards| - 1]);
      var name := cards[|cards| - 1].name;
      if name in counts && counts[name] > 0 then counts[name := counts[name] + 1]
      else counts[name := 1]
  }

  /** The dictionary holds exactly the names of the album, each with its
      number of copies; so no stored count is below 1. */
  lemma {:induction false} CardCountIsMultiplicity(cards: seq<Card>)
    ensures forall n :: n in CardCount(cards) <==> Occurrences(cards, n) > 0
    ensures forall n :: n in CardCount(cards) ==> CardCount(cards)[n] == Occurrences(cards, n)
  {
    if cards != [] {
      CardCountIsMultiplicity(cards[..|cards| - 1]);
    }
  }

  /** The counting loop of `loadAlbumUser`, over the album the user service
      returned. */
  method LoadCardCount(cards: seq<Card>) returns (cardCount: map<string, nat>)
    ensures cardCount == CardCount(cards)
    ensures forall n :: n in cardCount <==> n in Names(cards)
    ensures forall n :: n in cardCount ==> cardCount[n] == Occurrences(cards, n) >= 1
    ensures cards == [] ==> cardCount == map[]
  {
    cardCount := map[];
    var i := 0;
    while i < |cards|
      invariant 0 <= i <= |cards|
      invariant cardCount == CardCount(cards[..i])
    {
      var card := cards[i];
      assert cards[..i + 1][..i] == cards[..i];
      if card.name in cardCount && cardCount[card.name] > 0 {
        cardCount := cardCount[card.name := cardCount[card.name] + 1];
      } else {
        cardCount := cardCount[card.name := 1];
      }
      i := i + 1;
    }
    assert cards[..i] == cards;
    CardCountIsMultiplicity(cards);
    forall n
      ensures n in cardCount <==> n in Names(cards)
    {
      OccurrencesIsMultiplicity(cards, n);
    }
  }

  /** One `{name, quantity}` entry of the `cardQuantity` list. */
  datatype CardQuantity = CardQuantity(name: string, quantity: nat)

  /** `cardCount[name] || 0`: a missing (or zero) count reads as 0. */
  function QuantityOf(cardCount: map<string, nat>, name: string): nat
  {
    if name in cardCount then cardCount[name] else 0
  }

  /** The `cardQuantity` list: one entry per catalog card, in catalog order. */
  function CardQuantities(catalog: seq<Card>, cardCount: map<string, nat>): seq<CardQuantity>
  {
    seq(|catalog|, i requires 0 <= i < |catalog| =>
      CardQuantity(catalog[i].name, QuantityOf(cardCount, catalog[i].name)))
  }

  /** A catalog card is painted in greyscale when the user's album has no card
      of that name (`userCardMap.has` fails). */
  predicate IsGreyedOut(userCards: seq<Card>, name: string)
  {
    name !in Names(userCards)
  }

  /** The per-card computations of `renderCardsAlbum`: the `cardQuantity` list
      it pushes and returns, and for each catalog card whether the greyscale
      filter is applied. */
  method RenderCardsAlbum(catalog: seq<Card>, userCards: seq<Card>, cardCount: map<string, nat>)
    returns (cardQuantity: seq<CardQuantity>, greyedOut: seq<bool>)
    ensures cardQuantity == CardQuantities(catalog, cardCount)
    ensures |cardQuantity| == |catalog| && |greyedOut| == |catalog|
    ensures forall i :: 0 <= i < |catalog| ==>
      cardQuantity[i].name == catalog[i].name
      && cardQuantity[i].quantity == (if catalog[i].name in cardCount then cardCount[catalog[i].name] else 0)
    ensures forall i :: 0 <= i < |catalog| ==> (greyedOut[i] <==> catalog[i].name !in Names(userCards))
  {
    var userCardMap := set c | c in userCards :: c.name;
    assert forall n :: n in userCardMap <==> n in Names(userCards) by {
      forall n ensures n in userCardMap <==> n in Names(userCards) {
        if n in Names(userCards) {
          var j :| 0 <= j < |userCards| && Names(userCards)[j] == n;
          assert userCards[j] in userCards;
        }
      }
    }
    cardQuantity, greyedOut := [], [];
    var i := 0;
    while i < |catalog|
      invariant 0 <= i <= |catalog|
      invariant cardQuantity == CardQuantities(catalog[..i], cardCount)
      invariant |greyedOut| == i
      invariant forall j :: 0 <= j < i ==> (greyedOut[j] <==> catalog[j].name !in Names(userCards))
    {
      var card := catalog[i];
      var count := if card.name in cardCount && cardCount[card.name] > 0 then cardCount[card.name] else 0;
      cardQuantity := cardQuantity + [CardQuantity(card.name, count)];
      greyedOut := greyedOut + [card.name !in userCardMap];
      i := i + 1;
    }
    assert catalog[..i] == catalog;
  }

  /** The count badge and the greyscale filter agree: when the counts come
      from the same album, a catalog card shows quantity 0 exactly when it is
      greyed out, and otherwise shows the number of copies owned. */
  lemma GreyedOutIffZeroQuantity(catalog: seq<Card>, userCards: seq<Card>, i: nat)
    requires i < |catalog|
    ensures CardQuantities(catalog, CardCount(userCards))[i].quantity == Occurrences(userCards, catalog[i].name)
    ensures CardQuantities(catalog, CardCount(userCards))[i].quantity == 0 <==> IsGreyedOut(userCards, catalog[i].name)
  {
    CardCountIsMultiplicity(userCards);
    OccurrencesIsMultiplicity(userCards, catalog[i].name);
  }

  /** Counting is insensitive to the order in which the user service lists
      the album: two albums with the same names in any order give the same
      dictionary, so re-counting an unmodified album reproduces it. */
  lemma CardCountOrderInsensitive(cards: seq<Card>, other: seq<Card>)
    requires multiset(Names(cards)) == multiset(Names(other))
    ensures CardCount(cards) == CardCount(other)
  {
    CardCountIsMultiplicity(cards);
    CardCountIsMultiplicity(other);
    forall n
      ensures Occurrences(cards, n) == Occurrences(other, n)
    {
      OccurrencesIsMultiplicity(cards, n);
      OccurrencesIsMultiplicity(other, n);
    }
  }
}
