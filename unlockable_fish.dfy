/**
 * The selectable fish: their metadata table and the rule that unlocks them
 * at the end of a session.
 */
module Unlocks {
  import opened Text
  import opened Save

  /** One selectable fish. `baseScale` is a float in the game; every entry
      holds a whole number. `sprite` is the sprite's name. */
  datatype FishMetadata = FishMetadata(
    sprite: string,
    baseScale: int,
    unlockEatFish: int,
    unlockScale: int,
    unlockPoints: int)

  /** The table `UnlockableFish.Fish`, in selection order. */
  const Fish: seq<FishMetadata> := [
    FishMetadata("GreyFish", 1, 0, 0, 0),
    FishMetadata("OrangeFish", 2, 0, 4, 0),
    FishMetadata("RedFish", 3, 0, 0, 1000),
    FishMetadata("GreenFish", 4, 500, 0, 0),
    FishMetadata("BlueFish", 5, 0, 7, 0),
    FishMetadata("YellowFish", 6, 2500, 0, 0),
    FishMetadata("Shark", 7, 0, 0, 3000)
  ]

  /** Some positive threshold of `m` is met: the saved total of fish eaten,
      the scale reached or the points of the session. A zero threshold
      never counts. */
  predicate MeetsThreshold(m: FishMetadata, totalEaten: int, scale: int, points: int)
  {
    (m.unlockEatFish > 0 && totalEaten >= m.unlockEatFish) ||
    (m.unlockScale > 0 && scale >= m.unlockScale) ||
    (m.unlockPoints > 0 && points >= m.unlockPoints)
  }

  /** The unlock flags after `Unlock`: an entry is unlocked if it was, or if
      one of its thresholds is met. */
  function UnlockedAfter(unlocked: seq<bool>, totalEaten: int, scale: int, points: int): (r: seq<bool>)
    requires |unlocked| == |Fish|
    ensures |r| == |Fish|
  {
    seq(|Fish|, i requires 0 <= i < |Fish| => unlocked[i] || MeetsThreshold(Fish[i], totalEaten, scale, points))
  }

  /** The notification flags after `Unlock`: raised for the entries that were
      locked and are now unlocked, others unchanged. */
  function NotificationsAfter(unlocked: seq<bool>, notifications: seq<bool>, totalEaten: int, scale: int, points: int): (r: seq<bool>)
    requires |unlocked| == |Fish| && |notifications| == |Fish|
    ensures |r| == |Fish|
  {
    seq(|Fish|, i requires 0 <= i < |Fish| =>
      notifications[i] || (!unlocked[i] && MeetsThreshold(Fish[i], totalEaten, scale, points)))
  }

  /** `UnlockableFish.Unlock(scale, points)` against the saved data. */
  method Unlock(save: GameSaveData, scale: int, points: int)
    requires save.Valid()
    modifies save.unlockedFish, save.notifications
    ensures save.unlockedFish[..] == UnlockedAfter(old(save.unlockedFish[..]), save.fishEaten, scale, points)
    ensures save.notifications[..] ==
            NotificationsAfter(old(save.unlockedFish[..]), old(save.notifications[..]), save.fishEaten, scale, points)
  {
    ghost var u0 := save.unlockedFish[..];
    ghost var n0 := save.notifications[..];
    var unlocked, notifications := save.unlockedFish, save.notifications;
    for i := 0 to unlocked.Length
      invariant forall j :: 0 <= j < i ==>
        unlocked[j] == (u0[j] || MeetsThreshold(Fish[j], save.fishEaten, scale, points))
      invariant forall j :: 0 <= j < i ==>
        notifications[j] == (n0[j] || (!u0[j] && MeetsThreshold(Fish[j], save.fishEaten, scale, points)))
      invariant forall j :: i <= j < unlocked.Length ==> unlocked[j] == u0[j] && notifications[j] == n0[j]
    {
      if !unlocked[i] {
        var metadata := Fish[i];
        if metadata.unlockEatFish > 0 && save.fishEaten >= metadata.unlockEatFish {
          unlocked[i] := true;
          notifications[i] := true;
        }
        if metadata.unlockScale > 0 && scale >= metadata.unlockScale {
          unlocked[i] := true;
          notifications[i] := true;
        }
        if metadata.unlockPoints > 0 && points >= metadata.unlockPoints {
          unlocked[i] := true;
          notifications[i] := true;
        }
      }
    }
  }

  /** `Fish.First(f => f.BaseScale == baseScale)`; `None` where `First` throws. */
  function FirstWithBaseScale(table: seq<FishMetadata>, baseScale: int): (r: Option<FishMetadata>)
    ensures r.Some? ==> r.value in table && r.value.baseScale == baseScale
    ensures r.None? <==> forall m :: m in table ==> m.baseScale != baseScale
  {
    if table == [] then None
    else if table[0].baseScale == baseScale then Some(table[0])
    else FirstWithBaseScale(table[1..], baseScale)
  }

  // ---------------------------------------------------------------------
  // Properties

  /** Entry i has base scale i + 1: every tier 1..7 has exactly one entry. */
  lemma BaseScaleIsPosition()
    ensures forall i :: 0 <= i < |Fish| ==> Fish[i].baseScale == i + 1
    ensures |Fish| == UnlockableFish
  {
  }

  /** `First` returns the earliest entry with the wanted base scale. */
  lemma {:induction false} FirstFindsEarliest(table: seq<FishMetadata>, baseScale: int, i: int)
    requires 0 <= i < |table| && table[i].baseScale == baseScale
    requires forall j :: 0 <= j < i ==> table[j].baseScale != baseScale
    ensures FirstWithBaseScale(table, baseScale) == Some(table[i])
  {
    if i > 0 {
      FirstFindsEarliest(table[1..], baseScale, i - 1);
    }
  }

  /** The tier lookup finds entry `tier - 1`. */
  lemma LookupByTier(tier: int)
    requires 1 <= tier <= 7
    ensures FirstWithBaseScale(Fish, tier) == Some(Fish[tier - 1])
  {
    BaseScaleIsPosition();
    FirstFindsEarliest(Fish, tier, tier - 1);
  }

  /** Unlocking never locks an entry. */
  lemma UnlockNeverLocks(unlocked: seq<bool>, totalEaten: int, scale: int, points: int, i: int)
    requires |unlocked| == |Fish| && 0 <= i < |Fish| && unlocked[i]
    ensures UnlockedAfter(unlocked, totalEaten, scale, points)[i]
  {
  }

  /** An entry that was already unlocked keeps both of its flags; a locked
      one is unlocked exactly when one of its thresholds is met, and its
      notification is raised with it. */
  lemma UnlockFlags(unlocked: seq<bool>, notifications: seq<bool>, totalEaten: int, scale: int, points: int, i: int)
    requires |unlocked| == |Fish| && |notifications| == |Fish| && 0 <= i < |Fish|
    ensures unlocked[i] ==> UnlockedAfter(unlocked, totalEaten, scale, points)[i] &&
                            NotificationsAfter(unlocked, notifications, totalEaten, scale, points)[i] == notifications[i]
    ensures !unlocked[i] ==>
              (UnlockedAfter(unlocked, totalEaten, scale, points)[i] <==> MeetsThreshold(Fish[i], totalEaten, scale, points)) &&
              (NotificationsAfter(unlocked, notifications, totalEaten, scale, points)[i] <==>
                 notifications[i] || UnlockedAfter(unlocked, totalEaten, scale, points)[i])
  {
  }

  /** The grey fish has no threshold, so only the default record unlocks it. */
  lemma GreyFishHasNoThreshold(totalEaten: int, scale: int, points: int)
    ensures !MeetsThreshold(Fish[0], totalEaten, scale, points)
  {
  }

  /** A second `Unlock` with the same arguments changes nothing. */
  lemma UnlockIdempotent(unlocked: seq<bool>, notifications: seq<bool>, totalEaten: int, scale: int, points: int)
    requires |unlocked| == |Fish| && |notifications| == |Fish|
    ensures var u := UnlockedAfter(unlocked, totalEaten, scale, points);
            var n := NotificationsAfter(unlocked, notifications, totalEaten, scale, points);
            UnlockedAfter(u, totalEaten, scale, points) == u &&
            NotificationsAfter(u, n, totalEaten, scale, points) == n
  {
  }
}
