# Album controller: ownership counts, deck power budget, click gating

This project models the business logic of the card-game album page
(`frontend/src/app/controllers/album.controller.js`) in Dafny and proves what
that logic promises. The page loads the card catalog and the user's album, and
counts how many copies of each card the user owns. It overlays those counts on
the catalog grid and greys out the cards the user does not own. A click on an
owned card either adds a mana card to the deck or makes any other card the
active card, unless the deck power calculator answers `"exceeded"`.

The answers of the card and user services (catalog, album, deck, active card,
the card looked up by name) and the answer of the confirmation dialog are
parameters of the model. The effect of the two persistence calls is modelled
as their names describe it: `addCardToDeckUser` appends the card to the deck,
and `setActiveCardUser` replaces the active card.

Modules:

- `Cards` (cards.dfy): the `Card` record (name and power), `Option`, and the
  folds `Occurrences` (copies of a name) and `DeckSum` (sum of powers).
- `Ownership` (ownership.dfy): the counting loop of `loadAlbumUser` as
  `LoadCardCount`, specified by the fold `CardCount`. The per-card loop of
  `renderCardsAlbum` is `RenderCardsAlbum`, specified by `CardQuantities` and
  `IsGreyedOut`.
- `DeckBudget` (deck_power.dfy): `calculateDeckPower` as the method
  `CalculateDeckPower`, specified by `DeckPower`. Its result is a number,
  `Exceeded` (the `"exceeded"` sentinel) or `Failed`. `Failed` is the
  `undefined` the source returns when a fetched record is missing (no active
  card, or no card found for the candidate name), so reading its power throws
  and the `catch` block swallows the error.
- `ClickEvents` (click_events.dfy): the gate and routing of the click handlers
  of `attachCardClickEvents` as `OnCardClick`, and the state a committed click
  leaves (`Commit`, `StatePower`).

Behaviour the model keeps as the code has it:

- The handler compares the calculator's answer only with `"exceeded"`. A
  `Failed` answer therefore does not block the persistence call
  (`OnCardClick`'s first ensures clause). A user whose active card is missing
  is never refused, whatever the powers (see "## Findings").
- `if (newCard)` treats the empty name like no candidate at all, so no budget
  test is made for it (`HasCandidate`).
- Mana-ness is decided by the three literal names `Basic mana`, `Super mana`
  and `Ultra mana`, not by the card's `type` (`IsMana`).
- An index past the end of `cardQuantity` makes the handler throw, so nothing
  happens. The model treats it as a disabled click (`ClickEnabled`).

## Model

| member | source | states |
|---|---|---|
| Cards.OccurrencesIsMultiplicity | frontend/src/app/controllers/album.controller.js:24-30 | the number of cards with a given name equals that name's multiplicity in the multiset of album names, so it does not depend on the order; it is positive iff the name occurs |
| Ownership.CardCountIsMultiplicity | frontend/src/app/controllers/album.controller.js:22-30 | after the counting loop, a name is a key of `cardCount` iff it occurs in the album, and its value is its number of occurrences (so every stored count is at least 1) |
| Ownership.LoadCardCount | frontend/src/app/controllers/album.controller.js:22-32 | the loop's dictionary is the fold `CardCount`; its keys are exactly the album's names, each value is that name's number of copies (at least 1), and an empty album gives an empty dictionary |
| Ownership.CardCountOrderInsensitive | frontend/src/app/controllers/album.controller.js:24-30 | two albums with the same names in any order give the same dictionary, so counting the unmodified album again reproduces it |
| Ownership.RenderCardsAlbum | frontend/src/app/controllers/album.controller.js:53-102 | `cardQuantity` has one entry per catalog card in catalog order, named as that card, with quantity `cardCount[name]` if present and 0 otherwise; card i is greyed out iff its name is not among the album's names |
| Ownership.GreyedOutIffZeroQuantity | frontend/src/app/controllers/album.controller.js:58-102 | with counts taken from the same album, a catalog card's quantity is its number of copies owned, and it is 0 iff the card is greyed out |
| DeckBudget.DeckPower | frontend/src/app/controllers/album.controller.js:184-207 | without a candidate the result is the deck powers' sum plus the active card's power; with one it is `Exceeded` iff that base plus the candidate's power is above 12, and otherwise it is that sum, which is at most 12 (exactly 12 is accepted); it is `Failed` iff the active card or the candidate's record is missing |
| DeckBudget.CalculateDeckPower | frontend/src/app/controllers/album.controller.js:178-211 | the loop-accumulated `totalPower` followed by the budget test yields exactly `DeckPower` |
| DeckBudget.CorrectedDeckPower | frontend/src/app/controllers/album.controller.js:184-203 | an empty active slot counts as 0; the result is `Failed` iff a candidate's record is missing (no card found); with a candidate it is `Exceeded` iff the committed total (deck sum, plus the active card unless the candidate replaces it, plus the candidate) is above 12, and otherwise exactly that total, at most 12; with an active card and no replacement it agrees with the calculator as written |
| DeckBudget.BudgetExamples | frontend/src/app/controllers/album.controller.js:184-210 | worked values: empty deck with a zero-power active card gives 0, but empty deck with no active card gives `Failed` rather than 0; deck 4 and 5 with active 3 gives 12; base 10 with candidate 2 gives 12; base 10 with candidate 3 gives `Exceeded` |
| ClickEvents.OnCardClick | frontend/src/app/controllers/album.controller.js:118-175 | a click acts iff the indexed entry names the clicked card with quantity above 0, the dialog is confirmed and the answer is not `Exceeded`; the three mana names route only to adding to the deck and any other name only to setting the active card, both for the clicked name |
| ClickEvents.ClickActsOnlyOnOwnedCards | frontend/src/app/controllers/album.controller.js:107-125 | on the rendered grid, clicking catalog card i acts iff the user owns a copy of it, the dialog is confirmed and the answer is not `Exceeded`; a card that acts is never a greyed-out one |
| ClickEvents.Commit | frontend/src/app/controllers/album.controller.js:141-168 | adding to the deck appends the clicked card to the deck and keeps the active card, raising the power by the card's power; setting the active card keeps the deck and puts the clicked card in the active slot, leaving the deck's sum plus its power; no action leaves the state unchanged |
| ClickEvents.CommittedClickWithinBudget | frontend/src/app/controllers/album.controller.js:133-168 | with a non-empty card name and an active card of non-negative power, a click that acts on the calculator's answer never leaves the deck above 12, and for adding to the deck the answer is exactly the committed state's power; with no active card the answer is `Failed` and an enabled, confirmed click always acts |
| ClickEvents.MissingActiveCardBypassesBudget | frontend/src/app/controllers/album.controller.js:133-210 | a user with no active card and a deck already at 12 gets `Failed` from the calculator for a mana card of power 20, the click adds it, and the deck ends at 32 |
| ClickEvents.SetActiveOvercount | frontend/src/app/controllers/album.controller.js:155-168 | a deck of 6 with an active card of 5 refuses a non-mana card of power 3 as `Exceeded`, although setting it active would leave a total of 9 |
| ClickEvents.CorrectedGateExact | frontend/src/app/controllers/album.controller.js:184-203 | with the corrected test, on both routes and with or without an active card, the answer is `Exceeded` (and an enabled, confirmed click does nothing) iff the state it would commit is above 12, and otherwise it is that state's power |

## Findings

| source | as written | input that shows it | evidently intended | confidence | as-written member | corrected member |
|---|---|---|---|---|---|---|
| frontend/src/app/controllers/album.controller.js:133-210 | with no active card, reading its power at line 191 throws, the `catch` at lines 208-210 resolves the calculator to `undefined`, and the handler, which only looks for "exceeded", commits the card untested | deck of power 12, no active card, mana card of power 20: added, deck ends at 32 | count an empty active slot as 0 and keep the budget test | medium, not executed | ClickEvents.MissingActiveCardBypassesBudget | ClickEvents.CorrectedGateExact |
| frontend/src/app/controllers/album.controller.js:157-167 | the "set active card" route asks the calculator for deck sum + current active power + candidate power, though the current active card is replaced | deck of power 6, active card of power 5, non-mana candidate of power 3: refused as exceeded, though the result would total 9 | compare deck sum + candidate power with 12 when the candidate replaces the active card | medium, not executed | ClickEvents.SetActiveOvercount | ClickEvents.CorrectedGateExact |

The click handler in the model keeps the calculator as written (`DeckPower`).
`CorrectedDeckPower` is the evidently intended test: an empty active slot
counts as 0, and the replacing route leaves the replaced card out.
`CorrectedGateExact` proves that this test refuses exactly the clicks that
would go over the budget.

## Left out

- DOM construction, the `innerHTML` card template, the background colour chosen by `type`, and the `.deck-power` text readout: presentation only. The greyscale filter is kept as the `greyedOut` flags.
- The service calls (`getCardList`, `getAlbumUser`, `getDeckUser`, `getActiveCardUser`, `getOneCard`, `addCardToDeckUser`, `setActiveCardUser`) and `getCurrentUser`: network and code that is not part of this model. Their results are parameters. Their mutations are the returned `Action` and `Commit`.
- Network failures of the fetches that precede the computations, and the `console` logging in every `catch`: no result is stated for them. Only a missing record (no active card, no card found) is modelled, as `Failed`.
- The `Swal.fire` dialogs: third-party UI. Confirmation is a boolean parameter.
- `loadAlbum`, `loadRandomCard` and `onInit`: orchestration with no logic of their own.
- Overlapping asynchronous click handlers that read stale deck state: concurrency is not modelled. Each click is evaluated against the state passed in.
- JavaScript number semantics: powers are unbounded integers, so `NaN` from a missing `power` field and floating-point rounding are not modelled.
- JavaScript object keys: `cardCount` is a plain object, so a card named after an inherited property (`constructor`, `toString`) would start from a non-numeric value. The model's dictionary has no inherited keys.
- CommittedClickWithinBudget: the budget bound is stated only for a user holding an active card of non-negative power, with a non-empty card name and a card the card service finds. With no active card, or when the card service finds no card for the name, the calculator resolves to `Failed` and the source commits with no budget test (the first case is proved in the same lemma and in MissingActiveCardBypassesBudget). With an empty name the source makes no budget test at all. With a negative power the over-count of the replaced card no longer errs on the safe side.
- Card names containing markup or character references: the source writes `card.name` into `innerHTML` and reads the clicked name back through `textContent`, so such a name can come back different and the card can never be clicked. The model takes the clicked name to be the catalog card's name.
