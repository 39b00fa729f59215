# Tenzies game rules in Dafny

A model of the game-state rules of the Tenzies dice game, as implemented
in `src/App.tsx`. The game shows ten dice. A click on a die toggles whether
it is held. The roll button re-rolls every unheld die, or deals a new game
once the game is won. The game is won when every die is held and all dice
show the value of the first one.

Everything is in one module, `Tenzies` (`tenzies.dfy`):

- `Die` is the die record `{id, value, isHeld}`.
- `AllNewDice` is the deal as a value, and `GenerateAllNewDice` is the
  counted loop that builds it by pushing one die at a time.
- `GameWon` is the win predicate. `HoldDice` is the toggle. `RerollUnheld`
  and `GetNewDice` are the roll.
- `Game` is the component state: the single `dice` variable that every
  click replaces. Its constructor corresponds to the initial `useState`
  deal, `Hold` and `Roll` to the two click handlers, and `Won` to the
  derived `gameWon` flag.

Randomness and ids are inputs:

- A draw is one result of `Math.random()`, modelled as a real `r` with
  `0 <= r < 1`. Each rolling operation takes the draws it consumes, in
  order. A deal consumes exactly ten draws. A re-roll consumes exactly one
  draw per unheld die, taken from left to right.
- A deal turns a draw into `floor(6r + 1)` (`DealFace`). A re-roll turns a
  draw into `ceil(6r)` (`RerollFace`). A draw of exactly 0 makes the
  re-roll face 0, which is not a die face. The model keeps the code's
  rounding and proves this edge case (`RerollFace`, `RerollZeroDraw`).
  The game invariant that every value is a face is therefore proved only
  for re-rolls whose draws are all nonzero.
- Die ids, which the code takes from the `nanoid` library, are supplied by
  the caller. Where the rules need ids to be distinct, the contracts
  require it.

What the code's comments promise, set against what the statements do
(the model follows the statements):

- The comments at `src/App.tsx:11` and `src/App.tsx:25` promise a value
  from 1 to 6 for a dealt die, and the deal at `src/App.tsx:28` keeps that
  promise (`DealFace`). The re-roll at `src/App.tsx:77` carries no such
  comment, and it gives 0 on a zero draw (`RerollZeroDraw`).
- The comments at `src/App.tsx:56` and `src/App.tsx:61` speak of "the die"
  that matches the id. The map at `src/App.tsx:63` flips every die whose
  id matches. `HoldDice` models the map, and `HoldDiceFlipsOne` proves
  that exactly one die changes when ids are distinct.

## Model

| member | source | states |
|---|---|---|
| `Tenzies.DealFace` | src/App.tsx:28 | a deal draw in [0,1) gives a face in 1..6, namely the `k` with `k-1 <= 6r < k` |
| `Tenzies.RerollFace` | src/App.tsx:77 | a re-roll draw gives a value in 0..6 with `k-1 < 6r <= k`; the value is 0 exactly when the draw is 0, and a face otherwise |
| `Tenzies.DealAndRerollFaces` | src/App.tsx:28 | the two roundings agree exactly when 6r is not a whole number; otherwise the re-roll face is one lower |
| `Tenzies.AllNewDice` | src/App.tsx:22-36 | a deal has exactly ten dice, with the supplied ids in order, none held, each showing a face |
| `Tenzies.GenerateAllNewDice` | src/App.tsx:22-36 | the counted push loop returns exactly the deal `AllNewDice`: ten unheld dice with faces and the given ids |
| `Tenzies.AllNewDiceNotWon` | src/App.tsx:29 | a fresh deal is never won, and distinct ids give dice with distinct ids |
| `Tenzies.GameWon` | src/App.tsx:51 | won iff every die is held and any two dice show the same value (pairwise, not only against the first die) |
| `Tenzies.GameWonPermutation` | src/App.tsx:51 | reordering the dice does not change whether the game is won |
| `Tenzies.HoldDice` | src/App.tsx:60-65 | length and order are kept; no id or value changes; a die's hold flag flips iff its id is the clicked id |
| `Tenzies.HoldDiceUnknownId` | src/App.tsx:63 | an id that matches no die leaves the dice, and so the win, unchanged |
| `Tenzies.HoldDiceTwice` | src/App.tsx:63 | toggling the same id twice restores the dice |
| `Tenzies.HoldDiceFlipsOne` | src/App.tsx:63 | with distinct ids, toggling a die's id flips that die's flag and leaves every other die as it was |
| `Tenzies.HoldEachFlips` | src/App.tsx:60-65 | toggling a list of distinct ids one click at a time flips exactly the dice whose ids are listed |
| `Tenzies.HoldingEveryDieWins` | src/App.tsx:51-65 | unheld dice with distinct ids that all show one value are won once each of them has been clicked |
| `Tenzies.UnheldCount` | src/App.tsx:76-78 | the number of fresh draws a re-roll consumes is at most the number of dice |
| `Tenzies.UnheldCountBounds` | src/App.tsx:76-78 | a re-roll takes no draw iff every die is held, and one draw per die iff no die is held |
| `Tenzies.RerollUnheld` | src/App.tsx:75-79 | a re-roll keeps length, every id and every hold flag; a held die is kept whole |
| `Tenzies.RerollTakesNextDraw` | src/App.tsx:76-78 | the unheld die at index `i` takes the draw numbered by how many unheld dice come before it |
| `Tenzies.RerollKeepsFaces` | src/App.tsx:77 | with no zero draw, a re-roll keeps every value a face |
| `Tenzies.RerollZeroDraw` | src/App.tsx:77 | a zero draw gives the unheld die that takes it the value 0 |
| `Tenzies.GetNewDice` | src/App.tsx:71-80 | a won game is replaced by the deal; otherwise length, ids and hold flags are kept and held dice keep their values |
| `Tenzies.GetNewDiceAfterWin` | src/App.tsx:72-73 | rolling a won game gives ten unheld dice with the new ids, so the game is no longer won |
| `Tenzies.GetNewDiceNeverHolds` | src/App.tsx:71-80 | a roll never holds a die: any die held afterwards was held before, in the same slot |
| `Tenzies.Game.constructor` | src/App.tsx:44 | the initial state is a deal of ten dice with distinct ids and faces, and it is not won |
| `Tenzies.Game.Hold` | src/App.tsx:60-65 | a die click replaces the dice by `HoldDice` of the old dice and keeps the game invariant |
| `Tenzies.Game.Roll` | src/App.tsx:71-80 | a roll click replaces the dice by `GetNewDice` of the old dice, keeps the game invariant, and leaves a won game not won |

## Left out

- The JSX, the `diceElements` mapping, the button label, and the focus handling with `useRef` and `useEffect` are presentation, not rules.
- `src/Components/Die.tsx` is presentation only and is not part of this model.
- React's `useState` and the scheduling of `setDice` updaters are modelled as plain replacement of the `dice` field.
- The debug `console.log(generateAllNewDice())` during rendering is output whose result is discarded.
- `Math.random` is replaced by explicit draws, and floating-point rounding of `6r + 1` and `6r` is not modelled: the model uses exact reals.
- `nanoid` is a foreign library. Ids are caller-supplied strings, and their distinctness is a precondition where it is needed.
- Game.Roll: requires every re-roll draw to be nonzero, so that the invariant "every value is a face" can be kept. The code itself gives a die the value 0 on a zero draw, as `RerollZeroDraw` shows.
