/** The deck power budget of `calculateDeckPower`: the powers of the deck
    cards plus the active card, optionally tested against a fixed budget with
    one more card. The user and card services' answers are parameters. */
module DeckBudget {
  import opened Cards

  /** The fixed budget the calculator tests against and displays as "/ 12". */
  const PowerBudget: int := 12

  /** What the calculator resolves to: a number, the sentinel "exceeded", or
      `undefined` when a fetched record was missing (no active card, no card
      found), reading its power threw and the `catch` block swallowed the
      error. */
  datatype PowerResult = Total(power: int) | Exceeded | Failed

  /** `if (newCard)`: no name at all and the empty name are both falsy, and
      both mean "no candidate". */
  predicate HasCandidate(newCard: Option<string>)
  {
    newCard.Some? && newCard.value != ""
  }

  /** The calculator's answer, given the deck and active card the user
      service returned (`None` for a missing active card, whose `.power` the
      source cannot read), the candidate name and the power the card service
      returned for it (`None` when it returned no card). */
  function DeckPower(deck: seq<Card>, activeCard: Option<Card>, newCard: Option<string>, newCardPower: Option<int>)
    : (r: PowerResult)
    ensures r.Failed? <==> activeCard.None? || (HasCandidate(newCard) && newCardPower.None?)
    ensures !HasCandidate(newCard) && activeCard.Some? ==>
      r == Total(DeckSum(deck) + activeCard.value.power)
    ensures HasCandidate(newCard) && activeCard.Some? && newCardPower.Some? ==>
      var candidateTotal := DeckSum(deck) + activeCard.value.power + newCardPower.value;
      && (r == Exceeded <==> candidateTotal > PowerBudget)
      && (r != Exceeded ==> r == Total(candidateTotal) && candidateTotal <= PowerBudget)
    ensures r == Exceeded ==> HasCandidate(newCard)
  {
    if activeCard.None? then Failed
    else
      var base := DeckSum(deck) + activeCard.value.power;
      if !HasCandidate(newCard) then Total(base)
      else if newCardPower.None? then Failed
      else if newCardPower.value + base > PowerBudget then Exceeded
      else Total(base + newCardPower.value)
  }

  /** `calculateDeckPower`: accumulates `totalPower` over the deck, adds the
      active card, then applies the budget test when a candidate is given. */
  method CalculateDeckPower(deck: seq<Card>, activeCard: Option<Card>, newCard: Option<string>, newCardPower: Option<int>)
    returns (r: PowerResult)
    ensures r == DeckPower(deck, activeCard, newCard, newCardPower)
  {
    var totalPower := 0;
    var i := 0;
    while i < |deck|
      invariant 0 <= i <= |deck|
      invariant totalPower == DeckSum(deck[..i])
    {
      assert deck[..i + 1][..i] == deck[..i];
      totalPower := totalPower + deck[i].power;
      i := i + 1;
    }
    assert deck[..i] == deck;
    if activeCard.None? {
      return Failed;
    }
    totalPower := totalPower + activeCard.value.power;
    if HasCandidate(newCard) {
      if newCardPower.None? {
        return Failed;
      }
      if newCardPower.value + totalPower > PowerBudget {
        return Exceeded;
      }
      totalPower := totalPower + newCardPower.value;
      return Total(totalPower);
    }
    return Total(totalPower);
  }

  /** The power an active-card slot contributes: its card's power, or 0 when
      the slot is empty. */
  function ActivePower(activeCard: Option<Card>): int
  {
    if activeCard.Some? then activeCard.value.power else 0
  }

  /** The budget test as it was evidently meant. An empty active slot counts
      as power 0 instead of making the calculator fail, and when the
      candidate takes the active slot (`replacesActive`), the active card it
      replaces is not part of the base it is added to. Only a missing
      candidate record (no card found) still fails. */
  function CorrectedDeckPower(deck: seq<Card>, activeCard: Option<Card>, newCard: Option<string>,
                              newCardPower: Option<int>, replacesActive: bool): (r: PowerResult)
    ensures r.Failed? <==> HasCandidate(newCard) && newCardPower.None?
    ensures !replacesActive && activeCard.Some? ==> r == DeckPower(deck, activeCard, newCard, newCardPower)
    ensures !HasCandidate(newCard) ==> r == Total(DeckSum(deck) + ActivePower(activeCard))
    ensures HasCandidate(newCard) && newCardPower.Some? ==>
      var committed := DeckSum(deck) + (if replacesActive then 0 else ActivePower(activeCard)) + newCardPower.value;
      && (r == Exceeded <==> committed > PowerBudget)
      && (r != Exceeded ==> r == Total(committed) && committed <= PowerBudget)
  {
    var base := DeckSum(deck) + (if replacesActive && HasCandidate(newCard) then 0 else ActivePower(activeCard));
    if !HasCandidate(newCard) then Total(base)
    else if newCardPower.None? then Failed
    else if newCardPower.value + base > PowerBudget then Exceeded
    else Total(base + newCardPower.value)
  }

  /** Worked values of the calculator: an empty deck with a zero-power active
      card and no candidate gives 0, but an empty deck with no active card at
      all gives `Failed`, not 0, because the missing record's power cannot be
      read; a deck of 4 and 5 with an active card of 3 gives 12; on a base of
      10, a candidate of 2 reaches the budget exactly and is accepted, one of
      3 is "exceeded". */
  lemma BudgetExamples()
    ensures DeckPower([], Some(Card("Basic mana", 0)), None, None) == Total(0)
    ensures DeckPower([], None, None, None) == Failed
    ensures DeckPower([Card("a", 4), Card("b", 5)], Some(Card("c", 3)), None, None) == Total(12)
    ensures DeckPower([Card("a", 10)], Some(Card("c", 0)), Some("d"), Some(2)) == Total(12)
    ensures DeckPower([Card("a", 10)], Some(Card("c", 0)), Some("d"), Some(3)) == Exceeded
  {
    assert [Card("a", 4), Card("b", 5)][..1] == [Card("a", 4)];
  }
}
