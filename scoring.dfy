/**
 * The main scene's counters as values: the score and scale progression of
 * `Player_OnFishEaten`, the bubble counter and double points timer of
 * `Bubble_OnBurst` and `UpdateBubbles`, and the spawning rule of
 * `SpawnFish`. The scene's methods are proved against these functions.
 */
module Scoring {
  import opened Scales
  import opened Text
  import opened Objects
  import Unlocks

  /** `maxFish`: no fish spawns while this many are alive. */
  const MaxFish: int := 20

  /** A big fish spawns on a draw from 0 to 99 above this. */
  const BigFishDraw: int := 95

  /** `bigFishCount` is a float that moves in steps of 1 and 0.25; it is
      kept here in quarters, and a big fish may spawn while it is below 5. */
  const BigFishLimitQuarters: int := 20

  const PointsPerFish: int := 10
  const DoublePointsBonus: int := 40

  /** Bursts that switch double points on, and for how long, in milliseconds. */
  const BurstsForDoublePoints: int := 10
  const DoublePointsMs: int := 10000
  /** What a burst adds while double points is on. */
  const DoublePointsExtensionMs: int := 500

  /** How far off screen a fish spawns. */
  const SpawnMargin: int := 300

  // ---------------------------------------------------------------------
  // Eating and growing

  /** The scale, the fish still to eat before the next scale, and the points. */
  datatype Score = Score(scale: int, toNext: int, points: int)

  /** What the scene keeps true of the score: a positive scale, and between
      one and the table's count still to eat. */
  predicate ScoreValid(s: Score)
  {
    s.scale >= 1 && 1 <= s.toNext <= GetFishToEat(s.scale) && s.points >= 0
  }

  /** The score of a new session. */
  function StartScore(): (s: Score)
    ensures ScoreValid(s) && s.scale == 1 && s.points == 0
  {
    Score(1, GetFishToEat(1), 0)
  }

  /** The points one eaten fish is worth: 50 while double points is on. */
  function FishPoints(doubled: bool): int
  {
    PointsPerFish + (if doubled then DoublePointsBonus else 0)
  }

  /** `Player_OnFishEaten`: one fish fewer to eat and its points; on the
      last one the scale goes up and the count starts again from the table. */
  function AfterEating(s: Score, doubled: bool): (r: Score)
    ensures ScoreValid(s) ==> ScoreValid(r)
    ensures r.points == s.points + FishPoints(doubled)
    ensures r.scale == s.scale + 1 <==> s.toNext <= 1
    ensures s.toNext > 1 ==> r.scale == s.scale && r.toNext == s.toNext - 1
    ensures s.toNext <= 1 ==> r.toNext == GetFishToEat(s.scale + 1)
  {
    var toNext := s.toNext - 1;
    var points := s.points + PointsPerFish + (if doubled then DoublePointsBonus else 0);
    if toNext <= 0 then Score(s.scale + 1, GetFishToEat(s.scale + 1), points)
    else Score(s.scale, toNext, points)
  }

  /** The score after `k` fish eaten one after the other with double
      points fixed. */
  function AfterEatingMany(s: Score, doubled: bool, k: nat): Score
    decreases k
  {
    if k == 0 then s else AfterEatingMany(AfterEating(s, doubled), doubled, k - 1)
  }

  /** Each fish eaten is worth the same while double points does not change. */
  lemma {:induction false} PointsAfterEatingMany(s: Score, doubled: bool, k: nat)
    ensures AfterEatingMany(s, doubled, k).points == s.points + k * FishPoints(doubled)
    decreases k
  {
    if k > 0 {
      PointsAfterEatingMany(AfterEating(s, doubled), doubled, k - 1);
    }
  }

  /** Fewer fish than still needed leave the scale alone and count down. */
  lemma {:induction false} CountDown(s: Score, doubled: bool, k: nat)
    requires ScoreValid(s) && k < s.toNext
    ensures AfterEatingMany(s, doubled, k).scale == s.scale
    ensures AfterEatingMany(s, doubled, k).toNext == s.toNext - k
    decreases k
  {
    if k > 0 {
      CountDown(AfterEating(s, doubled), doubled, k - 1);
    }
  }

  /** Eating keeps the score valid however many fish are eaten. */
  lemma {:induction false} EatingManyValid(s: Score, doubled: bool, k: nat)
    requires ScoreValid(s)
    ensures ScoreValid(AfterEatingMany(s, doubled, k))
    decreases k
  {
    if k > 0 {
      EatingManyValid(AfterEating(s, doubled), doubled, k - 1);
    }
  }

  /** The last of `k + 1` fish is eaten on the score after the first `k`. */
  lemma {:induction false} EatingLast(s: Score, doubled: bool, k: nat)
    ensures AfterEatingMany(s, doubled, k + 1) == AfterEating(AfterEatingMany(s, doubled, k), doubled)
    decreases k
  {
    if k > 0 {
      EatingLast(AfterEating(s, doubled), doubled, k - 1);
    }
  }

  /** Eating exactly the fish still needed grows the scale by one, and the
      count starts again from the table. */
  lemma ScaleUp(s: Score, doubled: bool)
    requires ScoreValid(s)
    ensures AfterEatingMany(s, doubled, s.toNext).scale == s.scale + 1
    ensures AfterEatingMany(s, doubled, s.toNext).toNext == GetFishToEat(s.scale + 1)
  {
    CountDown(s, doubled, s.toNext - 1);
    EatingLast(s, doubled, s.toNext - 1);
  }

  /** A new session grows to scale 2 after ten fish, and then needs fifteen. */
  lemma FirstScaleUp(doubled: bool)
    ensures AfterEatingMany(StartScore(), doubled, 10).scale == 2
    ensures AfterEatingMany(StartScore(), doubled, 10).toNext == 15
  {
    ScaleUp(StartScore(), doubled);
  }

  // ---------------------------------------------------------------------
  // Bubbles and double points

  /** The bubble counter and the double points timer, in milliseconds. */
  datatype Bursts = Bursts(count: int, doublePoints: int)

  /** `Bubble_OnBurst`: while double points is on, a burst extends it by
      half a second; otherwise it counts, and the tenth burst resets the
      counter and switches double points on for ten seconds. */
  function AfterBurst(b: Bursts): (r: Bursts)
    ensures 0 <= b.count < BurstsForDoublePoints ==> 0 <= r.count < BurstsForDoublePoints
    ensures b.doublePoints > 0 ==> r == Bursts(b.count, b.doublePoints + DoublePointsExtensionMs)
    ensures b.doublePoints <= 0 && b.count + 1 < BurstsForDoublePoints ==> r == Bursts(b.count + 1, b.doublePoints)
    ensures b.doublePoints <= 0 && b.count + 1 >= BurstsForDoublePoints ==> r == Bursts(0, DoublePointsMs)
  {
    var d := if b.doublePoints > 0 then b.doublePoints + DoublePointsExtensionMs else b.doublePoints;
    if d <= 0 then
      var c := b.count + 1;
      if c >= BurstsForDoublePoints then Bursts(0, DoublePointsMs) else Bursts(c, d)
    else Bursts(b.count, d)
  }

  /** The counters after `k` bursts, one after the other, in one frame. */
  function AfterBursts(b: Bursts, k: nat): Bursts
    decreases k
  {
    if k == 0 then b else AfterBursts(AfterBurst(b), k - 1)
  }

  /** With double points off, bursts short of the tenth only count. */
  lemma {:induction false} BurstsCount(b: Bursts, k: nat)
    requires b.doublePoints <= 0 && 0 <= b.count && b.count + k < BurstsForDoublePoints
    ensures AfterBursts(b, k) == Bursts(b.count + k, b.doublePoints)
    decreases k
  {
    if k > 0 {
      BurstsCount(AfterBurst(b), k - 1);
    }
  }

  /** With double points off, the bursts that complete ten switch it on. */
  lemma {:induction false} TenthBurstDoubles(b: Bursts)
    requires b.doublePoints <= 0 && 0 <= b.count < BurstsForDoublePoints
    ensures AfterBursts(b, BurstsForDoublePoints - b.count) == Bursts(0, DoublePointsMs)
    decreases BurstsForDoublePoints - b.count
  {
    if b.count + 1 < BurstsForDoublePoints {
      TenthBurstDoubles(AfterBurst(b));
    }
  }

  /** `UpdateBubbles` on the timer: it runs down while positive, and a timer
      that has run out reads 0. */
  function DoublePointsAfterFrame(doublePoints: int, elapsed: nat): (r: int)
    ensures doublePoints <= 0 ==> r == 0
    ensures doublePoints > 0 ==> r == doublePoints - elapsed
    ensures r <= doublePoints || r == 0
  {
    if doublePoints > 0 then doublePoints - elapsed else 0
  }

  // ---------------------------------------------------------------------
  // Spawning

  /** The tier of a scale: its remainder by 7, where 0 stands for 7. */
  function Tier(scale: int): (t: int)
    requires scale >= 1
    ensures 1 <= t <= 7
    ensures (scale - t) % 7 == 0
  {
    if CsRem(scale, 7) == 0 then 7 else CsRem(scale, 7)
  }

  /** `Enumerable.First` over the fish table never fails for a tier, and
      finds the tier's own entry. */
  lemma TierHasMetadata(scale: int)
    requires scale >= 1
    ensures Unlocks.FirstWithBaseScale(Unlocks.Fish, Tier(scale)) == Some(Unlocks.Fish[Tier(scale) - 1])
    ensures Unlocks.Fish[Tier(scale) - 1].baseScale == Tier(scale)
  {
    Unlocks.LookupByTier(Tier(scale));
  }

  /** A fish of the current tier spawns at the tier's size; one drawn from
      the next tier spawns one size bigger. The player is rescaled to the
      tier, so the first kind can be eaten and running into the second
      ends the game. */
  lemma SpawnedSizes(scale: int)
    requires scale >= 1
    ensures SpawnSize(Tier(scale), scale) == Tier(scale)
    ensures SpawnSize(Tier(scale + 1), scale) == Tier(scale) + 1
  {
    assert CsRem(scale + 1, 7) == (CsRem(scale, 7) + 1) % 7;
  }

  /** The scale a new fish is drawn from and the big fish count after it. */
  datatype SpawnChoice = SpawnChoice(scale: int, quarters: int)

  /** `SpawnFish`'s choice: a fish one scale up on a draw above 95 while
      fewer than 5 big fish are counted, which counts one more. */
  function SpawnPlan(currentScale: int, quarters: int, bigDraw: int): (r: SpawnChoice)
    ensures r.scale == currentScale + 1 <==> bigDraw > BigFishDraw && quarters < BigFishLimitQuarters
    ensures r.scale != currentScale + 1 ==> r == SpawnChoice(currentScale, quarters)
    ensures r.scale == currentScale + 1 ==> r.quarters == quarters + 4
    ensures 0 <= quarters < BigFishLimitQuarters + 4 ==> 0 <= r.quarters < BigFishLimitQuarters + 4
  {
    if bigDraw > BigFishDraw && quarters < BigFishLimitQuarters then SpawnChoice(currentScale + 1, quarters + 4)
    else SpawnChoice(currentScale, quarters)
  }

  /** A new fish starts off screen, left or right. */
  function SpawnX(rightSide: bool): (x: int)
    ensures x < 0 || x > BaseResolutionWidth
  {
    if rightSide then BaseResolutionWidth + SpawnMargin else -SpawnMargin
  }

  /** The big fish count after `killed` eaten fish are removed: a quarter
      less for each while it is positive. */
  function QuartersAfterKills(quarters: int, killed: nat): (r: int)
    ensures quarters >= 0 ==> r == (if quarters - killed > 0 then quarters - killed else 0)
    ensures quarters < 0 ==> r == quarters
  {
    if killed == 0 then quarters
    else
      var q := QuartersAfterKills(quarters, killed - 1);
      if q > 0 then q - 1 else q
  }

  /** Taking the first quarter off before the other kills ends the same as
      taking it off after them: the order of the kill loop does not matter. */
  lemma QuartersKillFirst(quarters: int, killed: nat)
    ensures QuartersAfterKills(if quarters > 0 then quarters - 1 else quarters, killed) ==
            QuartersAfterKills(quarters, killed + 1)
  {
    if quarters > 0 {
      assert QuartersAfterKills(quarters - 1, killed) == if quarters - 1 - killed > 0 then quarters - 1 - killed else 0;
    }
  }
}
