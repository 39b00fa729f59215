/**
 The rules of the Tenzies dice game: ten dice are dealt, the player holds
 dice between rolls, and the game is won once every die is held and all of
 them show the same value.

 Randomness and id generation are inputs. A draw is one result of the
 browser's uniform random source, a real `r` with `0 <= r < 1`; an operation
 that rolls takes the successive draws it consumes, in the order it
 consumes them. Die ids are supplied by the caller.
 */
module Tenzies {

  /** One die slot: a stable id, the face it shows and whether it is held. */
  datatype Die = Die(id: string, value: int, isHeld: bool)

  /** The number of dice in a deal. */
  const DiceCount: nat := 10

  /** A result of the random source: a real in [0, 1). */
  predicate IsDraw(r: real) {
    0.0 <= r < 1.0
  }

  predicate AllDraws(draws: seq<real>) {
    forall k :: 0 <= k < |draws| ==> IsDraw(draws[k])
  }

  /** A draw that the random source may return other than zero. */
  predicate AllNonZero(draws: seq<real>) {
    forall k :: 0 <= k < |draws| ==> draws[k] != 0.0
  }

  /** A face of a six-sided die. */
  predicate IsFace(v: int) {
    1 <= v <= 6
  }

  predicate AllFaces(dice: seq<Die>) {
    forall k :: 0 <= k < |dice| ==> IsFace(dice[k].value)
  }

  predicate Distinct(ids: seq<string>) {
    forall i, j :: 0 <= i < j < |ids| ==> ids[i] != ids[j]
  }

  /** The ids of the dice, in order. */
  function IdsOf(dice: seq<Die>): (ids: seq<string>)
    ensures |ids| == |dice|
    ensures forall k :: 0 <= k < |dice| ==> ids[k] == dice[k].id
  {
    seq(|dice|, k requires 0 <= k < |dice| => dice[k].id)
  }

  /** No two dice share an id. */
  predicate DistinctIds(dice: seq<Die>) {
    Distinct(IdsOf(dice))
  }

  /** Flips the hold flag of one die. */
  function Flip(die: Die): Die {
    die.(isHeld := !die.isHeld)
  }

  // ---------------------------------------------------------------------------
  // Turning a draw into a face

  /** The face of a freshly dealt die: floor(6r + 1). */
  function DealFace(r: real): (v: int)
    requires IsDraw(r)
    ensures IsFace(v)
    ensures (v - 1) as real <= 6.0 * r < v as real
  {
    (r * 6.0 + 1.0).Floor
  }

  /**
   The face a re-rolled die takes: ceil(6r), written as -floor(-6r).
   A draw of exactly zero gives 0, which is not a face.
   */
  function RerollFace(r: real): (v: int)
    requires IsDraw(r)
    ensures 0 <= v <= 6
    ensures (v - 1) as real < 6.0 * r <= v as real
    ensures v == 0 <==> r == 0.0
    ensures r != 0.0 ==> IsFace(v)
  {
    -((-(r * 6.0)).Floor)
  }

  /**
   The deal and the re-roll round differently: they give the same face
   exactly when 6r is not a whole number, and otherwise the re-roll face is
   one lower.
   */
  lemma DealAndRerollFaces(r: real)
    requires IsDraw(r)
    ensures DealFace(r) == RerollFace(r) <==> (r * 6.0).Floor as real != r * 6.0
    ensures DealFace(r) != RerollFace(r) ==> RerollFace(r) == DealFace(r) - 1
  {
  }

  // ---------------------------------------------------------------------------
  // Dealing

  /** The ten dice dealt from ten draws and ten ids. */
  function AllNewDice(draws: seq<real>, ids: seq<string>): (r: seq<Die>)
    requires |draws| == DiceCount && |ids| == DiceCount && AllDraws(draws)
    ensures |r| == DiceCount
    ensures forall k :: 0 <= k < |r| ==> r[k].id == ids[k] && !r[k].isHeld && IsFace(r[k].value)
  {
    seq(DiceCount, k requires 0 <= k < DiceCount => Die(ids[k], DealFace(draws[k]), false))
  }

  /** Builds a deal die by die, pushing each onto the result. */
  method GenerateAllNewDice(draws: seq<real>, ids: seq<string>) returns (dice: seq<Die>)
    requires |draws| == DiceCount && |ids| == DiceCount && AllDraws(draws)
    ensures dice == AllNewDice(draws, ids)
  {
    dice := [];
    for i := 0 to DiceCount
      invariant |dice| == i
      invariant forall k :: 0 <= k < i ==> dice[k] == Die(ids[k], DealFace(draws[k]), false)
    {
      var die := Die(ids[i], DealFace(draws[i]), false);
      dice := dice + [die];
    }
  }

  /** A deal is never won, and with distinct ids its dice have distinct ids. */
  lemma AllNewDiceNotWon(draws: seq<real>, ids: seq<string>)
    requires |draws| == DiceCount && |ids| == DiceCount && AllDraws(draws)
    ensures !GameWon(AllNewDice(draws, ids))
    ensures Distinct(ids) ==> DistinctIds(AllNewDice(draws, ids))
  {
    var r := AllNewDice(draws, ids);
    assert !r[0].isHeld;
  }

  // ---------------------------------------------------------------------------
  // Winning

  predicate AllHeld(dice: seq<Die>) {
    forall d :: d in dice ==> d.isHeld
  }

  predicate AllSameValue(dice: seq<Die>) {
    forall d, e :: d in dice && e in dice ==> d.value == e.value
  }

  /**
   Every die matches the value of the first die and is held. On no dice at
   all this holds, as `every` does on an empty array.
   */
  predicate GameWon(dice: seq<Die>): (won: bool)
    ensures won <==> AllHeld(dice) && AllSameValue(dice)
  {
    forall k :: 0 <= k < |dice| ==> dice[k].value == dice[0].value && dice[k].isHeld
  }

  /** Whether the game is won does not depend on the order of the dice. */
  lemma GameWonPermutation(a: seq<Die>, b: seq<Die>)
    requires multiset(a) == multiset(b)
    ensures GameWon(a) == GameWon(b)
  {
    forall d | d in a ensures d in b {
      assert d in multiset(a);
    }
    forall d | d in b ensures d in a {
      assert d in multiset(b);
    }
  }

  // ---------------------------------------------------------------------------
  // Holding

  /** Toggles the hold flag of the die whose id is `id`, keeping the others. */
  function HoldDice(dice: seq<Die>, id: string): (r: seq<Die>)
    ensures |r| == |dice|
    ensures forall k :: 0 <= k < |r| ==>
      r[k].id == dice[k].id && r[k].value == dice[k].value &&
      (r[k].isHeld != dice[k].isHeld <==> dice[k].id == id)
  {
    seq(|dice|, k requires 0 <= k < |dice| => if dice[k].id == id then Flip(dice[k]) else dice[k])
  }

  /** An id that no die carries leaves the dice, and so the win, unchanged. */
  lemma HoldDiceUnknownId(dice: seq<Die>, id: string)
    requires forall k :: 0 <= k < |dice| ==> dice[k].id != id
    ensures HoldDice(dice, id) == dice
    ensures GameWon(HoldDice(dice, id)) == GameWon(dice)
  {
  }

  /** Holding the same die twice restores the dice. */
  lemma HoldDiceTwice(dice: seq<Die>, id: string)
    ensures HoldDice(HoldDice(dice, id), id) == dice
  {
  }

  /** With distinct ids, holding a die changes that die's flag and nothing else. */
  lemma HoldDiceFlipsOne(dice: seq<Die>, i: nat)
    requires DistinctIds(dice) && i < |dice|
    ensures HoldDice(dice, dice[i].id) == dice[i := Flip(dice[i])]
  {
  }

  /** Holding the dice with the given ids one after the other. */
  function HoldEach(dice: seq<Die>, ids: seq<string>): (r: seq<Die>)
    ensures |r| == |dice|
    decreases |ids|
  {
    if ids == [] then dice else HoldEach(HoldDice(dice, ids[0]), ids[1..])
  }

  /** Holding each of a list of distinct ids flips exactly the dice they name. */
  lemma {:induction false} HoldEachFlips(dice: seq<Die>, ids: seq<string>)
    requires Distinct(ids)
    ensures forall k :: 0 <= k < |dice| ==>
      HoldEach(dice, ids)[k] == if dice[k].id in ids then Flip(dice[k]) else dice[k]
    decreases |ids|
  {
    if ids != [] {
      var next := HoldDice(dice, ids[0]);
      assert Distinct(ids[1..]);
      HoldEachFlips(next, ids[1..]);
      forall k | 0 <= k < |dice|
        ensures HoldEach(dice, ids)[k] == if dice[k].id in ids then Flip(dice[k]) else dice[k]
      {
        assert dice[k].id in ids <==> dice[k].id == ids[0] || dice[k].id in ids[1..];
        if dice[k].id == ids[0] {
          assert dice[k].id !in ids[1..];
        }
      }
    }
  }

  /**
   Unheld dice that all show one value, whose ids are distinct, are won once
   each of them has been held.
   */
  lemma HoldingEveryDieWins(dice: seq<Die>)
    requires DistinctIds(dice) && AllSameValue(dice)
    requires forall k :: 0 <= k < |dice| ==> !dice[k].isHeld
    ensures GameWon(HoldEach(dice, IdsOf(dice)))
  {
    var ids := IdsOf(dice);
    HoldEachFlips(dice, ids);
    var r := HoldEach(dice, ids);
    forall k | 0 <= k < |r| ensures r[k].value == r[0].value && r[k].isHeld {
      assert dice[k].id in ids && dice[0].id in ids;
      assert dice[k] in dice && dice[0] in dice;
    }
  }

  // ---------------------------------------------------------------------------
  // Rolling

  /** The number of dice that are not held. */
  function UnheldCount(dice: seq<Die>): (n: nat)
    ensures n <= |dice|
  {
    if dice == [] then 0 else (if dice[0].isHeld then 0 else 1) + UnheldCount(dice[1..])
  }

  /** A re-roll takes no draw exactly when every die is held, and one per die exactly when none is. */
  lemma {:induction false} UnheldCountBounds(dice: seq<Die>)
    ensures UnheldCount(dice) == 0 <==> forall k :: 0 <= k < |dice| ==> dice[k].isHeld
    ensures UnheldCount(dice) == |dice| <==> forall k :: 0 <= k < |dice| ==> !dice[k].isHeld
  {
    if dice != [] {
      UnheldCountBounds(dice[1..]);
      assert forall k :: 1 <= k < |dice| ==> dice[k] == dice[1..][k - 1];
    }
  }

  /**
   Re-rolls the unheld dice from left to right: each unheld die takes the
   next draw, each held die is kept as it is.
   */
  function RerollUnheld(dice: seq<Die>, draws: seq<real>): (r: seq<Die>)
    requires |draws| == UnheldCount(dice) && AllDraws(draws)
    ensures |r| == |dice|
    ensures forall k :: 0 <= k < |r| ==> r[k].id == dice[k].id && r[k].isHeld == dice[k].isHeld
    ensures forall k :: 0 <= k < |r| && dice[k].isHeld ==> r[k] == dice[k]
  {
    if dice == [] then []
    else if dice[0].isHeld then [dice[0]] + RerollUnheld(dice[1..], draws)
    else [dice[0].(value := RerollFace(draws[0]))] + RerollUnheld(dice[1..], draws[1..])
  }

  /** The number of draws the first `i` dice take, split at the first die. */
  lemma UnheldCountStep(dice: seq<Die>, i: nat)
    requires 0 < i <= |dice|
    ensures UnheldCount(dice[..i]) == (if dice[0].isHeld then 0 else 1) + UnheldCount(dice[1..][..i - 1])
  {
    assert dice[..i][0] == dice[0];
    assert dice[..i][1..] == dice[1..][..i - 1];
  }

  /** Past the first die, a re-roll is the re-roll of the remaining dice with the remaining draws. */
  lemma RerollUnheldStep(dice: seq<Die>, draws: seq<real>, i: nat)
    requires |draws| == UnheldCount(dice) && AllDraws(draws)
    requires 0 < i < |dice|
    ensures var rest := draws[(if dice[0].isHeld then 0 else 1)..];
      AllDraws(rest) && |rest| == UnheldCount(dice[1..]) &&
      RerollUnheld(dice, draws)[i] == RerollUnheld(dice[1..], rest)[i - 1]
  {
  }

  /** The unheld die at index `i` takes the draw after the ones used by the unheld dice before it. */
  lemma {:induction false} RerollTakesNextDraw(dice: seq<Die>, draws: seq<real>, i: nat)
    requires |draws| == UnheldCount(dice) && AllDraws(draws)
    requires i < |dice| && !dice[i].isHeld
    ensures UnheldCount(dice[..i]) < |draws|
    ensures RerollUnheld(dice, draws)[i].value == RerollFace(draws[UnheldCount(dice[..i])])
  {
    if i == 0 {
      assert dice[..i] == [];
    } else {
      var used := if dice[0].isHeld then 0 else 1;
      var rest := draws[used..];
      var before := UnheldCount(dice[1..][..i - 1]);
      UnheldCountStep(dice, i);
      RerollUnheldStep(dice, draws, i);
      RerollTakesNextDraw(dice[1..], rest, i - 1);
      assert RerollUnheld(dice[1..], rest)[i - 1].value == RerollFace(rest[before]);
      assert rest[before] == draws[used + before];
    }
  }

  /** With no zero draw, re-rolling keeps every value a face. */
  lemma {:induction false} RerollKeepsFaces(dice: seq<Die>, draws: seq<real>)
    requires |draws| == UnheldCount(dice) && AllDraws(draws) && AllNonZero(draws)
    requires AllFaces(dice)
    ensures AllFaces(RerollUnheld(dice, draws))
  {
    var r := RerollUnheld(dice, draws);
    forall k | 0 <= k < |r| ensures IsFace(r[k].value) {
      if !dice[k].isHeld {
        RerollTakesNextDraw(dice, draws, k);
      }
    }
  }

  /** A zero draw gives the unheld die that takes it the value 0. */
  lemma RerollZeroDraw(dice: seq<Die>, draws: seq<real>, i: nat)
    requires |draws| == UnheldCount(dice) && AllDraws(draws)
    requires i < |dice| && !dice[i].isHeld
    requires UnheldCount(dice[..i]) < |draws| && draws[UnheldCount(dice[..i])] == 0.0
    ensures RerollUnheld(dice, draws)[i].value == 0
  {
    RerollTakesNextDraw(dice, draws, i);
  }

  /**
   The roll button: a new deal once the game is won, otherwise a re-roll of
   the unheld dice. A deal consumes ten draws, a re-roll one per unheld die.
   */
  function GetNewDice(dice: seq<Die>, draws: seq<real>, ids: seq<string>): (r: seq<Die>)
    requires AllDraws(draws)
    requires GameWon(dice) ==> |draws| == DiceCount && |ids| == DiceCount
    requires !GameWon(dice) ==> |draws| == UnheldCount(dice)
    ensures GameWon(dice) ==> r == AllNewDice(draws, ids)
    ensures !GameWon(dice) ==> |r| == |dice|
    ensures !GameWon(dice) ==> forall k :: 0 <= k < |r| ==>
      r[k].id == dice[k].id && r[k].isHeld == dice[k].isHeld && (dice[k].isHeld ==> r[k].value == dice[k].value)
  {
    if GameWon(dice) then AllNewDice(draws, ids) else RerollUnheld(dice, draws)
  }

  /** Rolling a won game deals ten unheld dice with the given ids, so it is not won. */
  lemma GetNewDiceAfterWin(dice: seq<Die>, draws: seq<real>, ids: seq<string>)
    requires AllDraws(draws) && |draws| == DiceCount && |ids| == DiceCount
    requires GameWon(dice)
    ensures |GetNewDice(dice, draws, ids)| == DiceCount
    ensures forall k :: 0 <= k < DiceCount ==>
      GetNewDice(dice, draws, ids)[k].id == ids[k] && !GetNewDice(dice, draws, ids)[k].isHeld
    ensures !GameWon(GetNewDice(dice, draws, ids))
  {
    AllNewDiceNotWon(draws, ids);
  }

  /** A roll never holds a die: a die held afterwards was held before, in the same slot. */
  lemma GetNewDiceNeverHolds(dice: seq<Die>, draws: seq<real>, ids: seq<string>)
    requires AllDraws(draws)
    requires GameWon(dice) ==> |draws| == DiceCount && |ids| == DiceCount
    requires !GameWon(dice) ==> |draws| == UnheldCount(dice)
    ensures forall k :: 0 <= k < |GetNewDice(dice, draws, ids)| && GetNewDice(dice, draws, ids)[k].isHeld ==>
      k < |dice| && dice[k].isHeld
  {
  }

  // ---------------------------------------------------------------------------
  // The game state

  /** The dice the game shows, replaced by each click. */
  class Game {
    var dice: seq<Die>

    /** Ten dice with distinct ids, each showing a face. */
    ghost predicate Valid()
      reads this
    {
      |dice| == DiceCount && DistinctIds(dice) && AllFaces(dice)
    }

    /** Starts with a fresh deal. */
    constructor (draws: seq<real>, ids: seq<string>)
      requires |draws| == DiceCount && |ids| == DiceCount && AllDraws(draws) && Distinct(ids)
      ensures Valid() && dice == AllNewDice(draws, ids) && !Won()
    {
      AllNewDiceNotWon(draws, ids);
      var dealt := GenerateAllNewDice(draws, ids);
      dice := dealt;
    }

    /** The win, recomputed from the current dice. */
    predicate Won()
      reads this
    {
      GameWon(dice)
    }

    /** A click on the die with id `id`. */
    method Hold(id: string)
      requires Valid()
      modifies this
      ensures Valid() && dice == HoldDice(old(dice), id)
    {
      dice := HoldDice(dice, id);
    }

    /** A click on the roll button. */
    method Roll(draws: seq<real>, ids: seq<string>)
      requires Valid() && AllDraws(draws)
      requires Won() ==> |draws| == DiceCount && |ids| == DiceCount && Distinct(ids)
      requires !Won() ==> |draws| == UnheldCount(dice) && AllNonZero(draws)
      modifies this
      ensures Valid() && dice == GetNewDice(old(dice), draws, ids)
      ensures old(Won()) ==> !Won()
    {
      if Won() {
        AllNewDiceNotWon(draws, ids);
      } else {
        RerollKeepsFaces(dice, draws);
      }
      dice := GetNewDice(dice, draws, ids);
    }
  }
}
