/**
 * The tier table: how many fish the player must eat at each scale before
 * growing to the next one.
 */
module Scales {

  /** Fish to eat per scale, for scales 1 to 10. */
  const FishToEatTable: map<int, int> :=
    map[1 := 10, 2 := 15, 3 := 25, 4 := 40, 5 := 65,
        6 := 105, 7 := 170, 8 := 275, 9 := 445, 10 := 720]

  /** What a scale missing from the table needs. */
  const DefaultFishToEat: int := 720

  /** The table lookup, falling back to the default for any other scale. */
  function GetFishToEat(scale: int): (toEat: int)
    ensures 10 <= toEat <= 720
    ensures scale !in FishToEatTable ==> toEat == DefaultFishToEat
  {
    if scale in FishToEatTable then FishToEatTable[scale] else DefaultFishToEat
  }

  /** Exactly the scales 1 to 10 are listed. */
  lemma TableDomain(scale: int)
    ensures scale in FishToEatTable <==> 1 <= scale <= 10
  {
  }

  /** Every scale outside 1..10, including zero and negatives, needs 720. */
  lemma OutsideTableIsDefault(scale: int)
    requires scale < 1 || scale > 10
    ensures GetFishToEat(scale) == 720
  {
  }

  /** From scale 3 to 10 each entry is the sum of the two before it. */
  lemma TableIsFibonacciLike(scale: int)
    requires 3 <= scale <= 10
    ensures GetFishToEat(scale) == GetFishToEat(scale - 1) + GetFishToEat(scale - 2)
  {
  }

  /** One step up never needs fewer fish. */
  lemma StepNonDecreasing(scale: int)
    requires scale >= 1
    ensures GetFishToEat(scale) <= GetFishToEat(scale + 1)
  {
  }

  /** The number of fish to eat never decreases as the scale grows from 1. */
  lemma {:induction false} NonDecreasing(a: int, b: int)
    requires 1 <= a <= b
    ensures GetFishToEat(a) <= GetFishToEat(b)
    decreases b - a
  {
    if a < b {
      StepNonDecreasing(a);
      NonDecreasing(a + 1, b);
    }
  }
}
