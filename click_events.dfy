/** The decision taken by the click handlers of `attachCardClickEvents`, and
    what a committed decision does to the user's deck. The confirmation
    dialog's answer and the calculator's response are parameters. */
module ClickEvents {
  import opened Cards
  import opened Ownership
  import opened DeckBudget

  /** Mana-ness is decided by these three literal names, not by the card's
      `type` field. */
  predicate IsMana(cardName: string)
  {
    cardName == "Basic mana" || cardName == "Super mana" || cardName == "Ultra mana"
  }

  /** The persistence call a click ends in, if any. */
  datatype Action = NoAction | AddCardToDeck(cardName: string) | SetActiveCard(cardName: string)

  /** The handler's guard: the entry at the container's index names the
      clicked card and the user owns at least one copy. An index past the
      end of the list makes the source throw, which also acts on nothing. */
  predicate ClickEnabled(cardQuantity: seq<CardQuantity>, index: nat, cardName: string)
  {
    index < |cardQuantity| && cardQuantity[index].name == cardName && cardQuantity[index].quantity > 0
  }

  /** The handler of container `index` showing `cardName`, given whether the
      dialog was confirmed and what the calculator answered for `cardName`. */
  function OnCardClick(cardQuantity: seq<CardQuantity>, index: nat, cardName: string,
                       confirmed: bool, response: PowerResult): (action: Action)
    ensures action != NoAction <==> ClickEnabled(cardQuantity, index, cardName) && confirmed && response != Exceeded
    ensures action.AddCardToDeck? <==> action != NoAction && IsMana(cardName)
    ensures action.SetActiveCard? <==> action != NoAction && !IsMana(cardName)
    ensures action != NoAction ==> action.cardName == cardName
  {
    if !ClickEnabled(cardQuantity, index, cardName) || !confirmed then NoAction
    else if response == Exceeded then NoAction
    else if IsMana(cardName) then AddCardToDeck(cardName)
    else SetActiveCard(cardName)
  }

  /** On the grid `renderCardsAlbum` builds, container `i` shows catalog card
      `i`; clicking it acts exactly when the user owns a copy of that card
      (it is not greyed out), the dialog is confirmed and the calculator did
      not say "exceeded". */
  lemma ClickActsOnlyOnOwnedCards(catalog: seq<Card>, userCards: seq<Card>, i: nat,
                                  confirmed: bool, response: PowerResult)
    requires i < |catalog|
    ensures OnCardClick(CardQuantities(catalog, CardCount(userCards)), i, catalog[i].name, confirmed, response) != NoAction
      <==> Occurrences(userCards, catalog[i].name) > 0 && confirmed && response != Exceeded
    ensures OnCardClick(CardQuantities(catalog, CardCount(userCards)), i, catalog[i].name, confirmed, response) != NoAction
      ==> !IsGreyedOut(userCards, catalog[i].name)
  {
    GreyedOutIffZeroQuantity(catalog, userCards, i);
  }

  /** The deck and active card the user service holds; the active slot may
      be empty. */
  datatype DeckState = DeckState(deck: seq<Card>, activeCard: Option<Card>)

  /** The power the budget is meant to bound: deck cards plus active card. */
  function StatePower(state: DeckState): int
  {
    DeckSum(state.deck) + ActivePower(state.activeCard)
  }

  /** The state after the persistence call, the committed card having power
      `power`: "add to deck" appends it, "set active card" replaces the
      active card. */
  function Commit(state: DeckState, action: Action, power: int): (next: DeckState)
    ensures action.AddCardToDeck? ==>
      next.deck == state.deck + [Card(action.cardName, power)] && next.activeCard == state.activeCard
    ensures action.SetActiveCard? ==>
      next.deck == state.deck && next.activeCard == Some(Card(action.cardName, power))
    ensures action.AddCardToDeck? ==> StatePower(next) == StatePower(state) + power
    ensures action.SetActiveCard? ==> StatePower(next) == DeckSum(state.deck) + power
    ensures action == NoAction ==> next == state
  {
    match action
    case NoAction => state
    case AddCardToDeck(name) =>
      DeckSumPush(state.deck, Card(name, power));
      DeckState(state.deck + [Card(name, power)], state.activeCard)
    case SetActiveCard(name) => DeckState(state.deck, Some(Card(name, power)))
  }

  /** The calculator's answer for the click on `cardName` with the state
      fetched at that moment, the card service having found the card. */
  function ResponseFor(state: DeckState, cardName: string, power: int): PowerResult
  {
    DeckPower(state.deck, state.activeCard, Some(cardName), Some(power))
  }

  /** With an active card of non-negative power, a committed click never
      takes the deck past the budget, as long as the card has a (non-empty)
      name: adding to the deck lands on the total the calculator reported,
      setting the active card on at most that. With no active card the
      calculator fails, and a confirmed click on an owned card is committed
      whatever the powers. */
  lemma CommittedClickWithinBudget(state: DeckState, cardQuantity: seq<CardQuantity>, index: nat,
                                   cardName: string, power: int, confirmed: bool)
    requires cardName != ""
    requires state.activeCard.Some? ==> state.activeCard.value.power >= 0
    ensures var action := OnCardClick(cardQuantity, index, cardName, confirmed, ResponseFor(state, cardName, power));
      action != NoAction && state.activeCard.Some? ==> StatePower(Commit(state, action, power)) <= PowerBudget
    ensures var action := OnCardClick(cardQuantity, index, cardName, confirmed, ResponseFor(state, cardName, power));
      action.AddCardToDeck? && state.activeCard.Some? ==>
        ResponseFor(state, cardName, power) == Total(StatePower(Commit(state, action, power)))
    ensures state.activeCard.None? ==>
      && ResponseFor(state, cardName, power) == Failed
      && ((OnCardClick(cardQuantity, index, cardName, confirmed, ResponseFor(state, cardName, power)) != NoAction)
          <==> ClickEnabled(cardQuantity, index, cardName) && confirmed)
  {
  }

  /** As written, the "set active card" route counts the active card that is
      about to be replaced: with a deck of power 6 and an active card of
      power 5, a candidate of power 3 is refused as "exceeded" although the
      committed state would total 9. */
  lemma SetActiveOvercount()
    ensures var state := DeckState([Card("Basic mana", 6)], Some(Card("Charmander", 5)));
      && !IsMana("Squirtle")
      && ResponseFor(state, "Squirtle", 3) == Exceeded
      && StatePower(Commit(state, SetActiveCard("Squirtle"), 3)) == 9 <= PowerBudget
  {
    assert [Card("Basic mana", 6)][..0] == [];
  }

  /** As written, a user without an active card escapes the budget: the
      calculator fails on the missing record, the handler only looks for
      "exceeded", and a deck already at 12 takes a mana card of power 20. */
  lemma MissingActiveCardBypassesBudget()
    ensures var state := DeckState([Card("Basic mana", 12)], None);
      var cardQuantity := [CardQuantity("Ultra mana", 1)];
      && ResponseFor(state, "Ultra mana", 20) == Failed
      && OnCardClick(cardQuantity, 0, "Ultra mana", true, ResponseFor(state, "Ultra mana", 20)) == AddCardToDeck("Ultra mana")
      && StatePower(Commit(state, AddCardToDeck("Ultra mana"), 20)) == 32 > PowerBudget
  {
    assert [Card("Basic mana", 12)][..0] == [];
    assert ([Card("Basic mana", 12)] + [Card("Ultra mana", 20)])[..1] == [Card("Basic mana", 12)];
  }

  /** With the corrected test, the gate is exact on both routes and whether
      or not an active card is held: a confirmed click on an owned card is
      refused exactly when the state it would commit exceeds the budget, and
      is otherwise committed within the budget. */
  lemma CorrectedGateExact(state: DeckState, cardQuantity: seq<CardQuantity>, index: nat,
                           cardName: string, power: int)
    requires cardName != ""
    requires ClickEnabled(cardQuantity, index, cardName)
    ensures var response := CorrectedDeckPower(state.deck, state.activeCard, Some(cardName), Some(power), !IsMana(cardName));
      var routed := if IsMana(cardName) then AddCardToDeck(cardName) else SetActiveCard(cardName);
      && (response == Exceeded <==> StatePower(Commit(state, routed, power)) > PowerBudget)
      && ((OnCardClick(cardQuantity, index, cardName, true, response) == NoAction)
          <==> StatePower(Commit(state, routed, power)) > PowerBudget)
      && (response != Exceeded ==> response == Total(StatePower(Commit(state, routed, power))))
  {
  }
}
