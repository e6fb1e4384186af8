/**
 * What one collision scan does to the play: the hits the collision
 * manager reports, replayed in order through the queued objects'
 * `Collided` handlers and `OnFishEaten`. For the player, a box whose
 * owner is no bigger is a meal and one whose owner is bigger a game
 * over; a fish marks the owner of a strictly smaller box eaten.
 */
module Hits {
  import opened Objects
  import opened Scoring

  /** What the `Collided` handlers compare and change: the score, the
      player's size, the size of each spawned fish, the fish the player
      has eaten this session, the saved total of fish eaten, the spawned
      fish marked eaten and the player's own eaten flag. The scale starts
      at 1 and only goes up, so the replays below ask for it. */
  datatype Play = Play(score: Score, playerSize: int, fishSizes: map<Fish, int>, eaten: int, saved: int,
                       marked: set<Fish>, playerMarked: bool)

  /** The object's eaten flag in the play. */
  predicate Marks(p: Play, o: Entity)
  {
    if o.FishObj? then o.fish in p.marked else p.playerMarked
  }

  /** `Fish.Eat` on the object: its eaten flag is set. */
  function Mark(p: Play, o: Entity): Play
  {
    if o.FishObj? then p.(marked := p.marked + {o.fish}) else p.(playerMarked := true)
  }

  /** The size of a box's owner. */
  function OwnerSize(p: Play, o: Entity): int
  {
    match o
    case PlayerObj(_) => p.playerSize
    case FishObj(f) => if f in p.fishSizes then p.fishSizes[f] else 0
  }

  /** The player ran into a box whose owner is no bigger. */
  predicate Meal(p: Play, h: Hit)
  {
    h.target.PlayerObj? && OwnerSize(p, h.box.parent) <= p.playerSize
  }

  /** The player ran into a box whose owner is bigger. */
  predicate Death(p: Play, h: Hit)
  {
    h.target.PlayerObj? && OwnerSize(p, h.box.parent) > p.playerSize
  }

  /** A fish ran into a box whose owner is strictly smaller, and eats it. */
  predicate FishMeal(p: Play, h: Hit)
  {
    h.target.FishObj? && OwnerSize(p, h.box.parent) < OwnerSize(p, h.target)
  }

  /** The hit marks its box's owner eaten. */
  predicate Eats(p: Play, h: Hit)
  {
    Meal(p, h) || FishMeal(p, h)
  }

  /** The sizes once the scale has gone up to `scale`: the player takes
      the scale's tier and every listed fish is rescaled; spawned fish no
      longer listed keep their size. */
  function Rescaled(p: Play, scale: int, listed: seq<Fish>): Play
    requires scale >= 1
  {
    p.(playerSize := Tier(scale), fishSizes := RescaledSizes(p.fishSizes, scale, listed))
  }

  /** Every listed fish's size at the new scale; the others keep theirs. */
  function RescaledSizes(sizes: map<Fish, int>, scale: int, listed: seq<Fish>): (r: map<Fish, int>)
    ensures r.Keys == sizes.Keys
  {
    map f | f in sizes :: if f in listed then RescaledSize(sizes[f], CsRem(scale, 7)) else sizes[f]
  }

  /** One hit: a meal counts the fish, marks it eaten and moves the score
      on one fish, rescaling everything when the scale goes up; a game
      over adds the session's fish to the saved total; a fish running
      into a smaller one marks it eaten; anything else changes nothing. */
  function AfterHit(p: Play, h: Hit, doubled: bool, listed: seq<Fish>): (r: Play)
    requires p.score.scale >= 1
    ensures r.score.scale >= p.score.scale
    ensures r.marked == if Eats(p, h) && h.box.parent.FishObj? then p.marked + {h.box.parent.fish} else p.marked
    ensures r.playerMarked <==> p.playerMarked || (Eats(p, h) && h.box.parent.PlayerObj?)
    ensures !h.target.PlayerObj? ==> r.(marked := p.marked, playerMarked := p.playerMarked) == p
    ensures Meal(p, h) ==> r.eaten == p.eaten + 1 && r.saved == p.saved && r.score == AfterEating(p.score, doubled)
    ensures Death(p, h) ==> r == p.(saved := p.saved + p.eaten)
  {
    if Meal(p, h) then
      var s := AfterEating(p.score, doubled);
      var q := Mark(p.(score := s, eaten := p.eaten + 1), h.box.parent);
      if s.scale != p.score.scale then Rescaled(q, s.scale, listed) else q
    else if Death(p, h) then p.(saved := p.saved + p.eaten)
    else if FishMeal(p, h) then Mark(p, h.box.parent)
    else p
  }

  /** The hits replayed in order. */
  function AfterHits(p: Play, hits: seq<Hit>, doubled: bool, listed: seq<Fish>): (r: Play)
    requires p.score.scale >= 1
    ensures r.score.scale >= p.score.scale
    decreases |hits|
  {
    if hits == [] then p else AfterHits(AfterHit(p, hits[0], doubled, listed), hits[1..], doubled, listed)
  }

  /** How many of the hits, replayed in order, are meals. */
  function Meals(p: Play, hits: seq<Hit>, doubled: bool, listed: seq<Fish>): (r: nat)
    requires p.score.scale >= 1
    ensures r <= |hits|
    decreases |hits|
  {
    if hits == [] then 0
    else (if Meal(p, hits[0]) then 1 else 0) + Meals(AfterHit(p, hits[0], doubled, listed), hits[1..], doubled, listed)
  }

  /** How many of the hits, replayed in order, are game overs. */
  function Deaths(p: Play, hits: seq<Hit>, doubled: bool, listed: seq<Fish>): (r: nat)
    requires p.score.scale >= 1
    ensures r <= |hits|
    decreases |hits|
  {
    if hits == [] then 0
    else (if Death(p, hits[0]) then 1 else 0) + Deaths(AfterHit(p, hits[0], doubled, listed), hits[1..], doubled, listed)
  }

  /** The hits on the player. */
  function PlayerHits(hits: seq<Hit>): (r: nat)
    ensures r <= |hits|
  {
    if hits == [] then 0 else (if hits[0].target.PlayerObj? then 1 else 0) + PlayerHits(hits[1..])
  }

  // ---------------------------------------------------------------------
  // Properties

  /** The score moves on one fish per meal, at the frame's double points,
      and the session's count of fish eaten grows by the meals. */
  lemma {:induction false} HitsScore(p: Play, hits: seq<Hit>, doubled: bool, listed: seq<Fish>)
    requires p.score.scale >= 1
    ensures AfterHits(p, hits, doubled, listed).score == AfterEatingMany(p.score, doubled, Meals(p, hits, doubled, listed))
    ensures AfterHits(p, hits, doubled, listed).eaten == p.eaten + Meals(p, hits, doubled, listed)
    decreases |hits|
  {
    if hits != [] {
      var q := AfterHit(p, hits[0], doubled, listed);
      HitsScore(q, hits[1..], doubled, listed);
    }
  }

  /** Every hit on the player is either a meal or a game over. */
  lemma {:induction false} MealsAndDeaths(p: Play, hits: seq<Hit>, doubled: bool, listed: seq<Fish>)
    requires p.score.scale >= 1
    ensures Meals(p, hits, doubled, listed) + Deaths(p, hits, doubled, listed) == PlayerHits(hits)
    decreases |hits|
  {
    if hits != [] {
      MealsAndDeaths(AfterHit(p, hits[0], doubled, listed), hits[1..], doubled, listed);
    }
  }

  /** Hits on fish only change nothing of the play but the eaten flags. */
  lemma {:induction false} FishHitsOnly(p: Play, hits: seq<Hit>, doubled: bool, listed: seq<Fish>)
    requires p.score.scale >= 1 && PlayerHits(hits) == 0
    ensures var r := AfterHits(p, hits, doubled, listed); r.(marked := p.marked, playerMarked := p.playerMarked) == p
    ensures Meals(p, hits, doubled, listed) == 0 && Deaths(p, hits, doubled, listed) == 0
    decreases |hits|
  {
    if hits != [] {
      var q := AfterHit(p, hits[0], doubled, listed);
      FishHitsOnly(q, hits[1..], doubled, listed);
    }
  }

  /** No hit clears an eaten flag. */
  lemma {:induction false} MarksKept(p: Play, hits: seq<Hit>, doubled: bool, listed: seq<Fish>, o: Entity)
    requires p.score.scale >= 1 && Marks(p, o)
    ensures Marks(AfterHits(p, hits, doubled, listed), o)
    decreases |hits|
  {
    if hits != [] {
      MarksKept(AfterHit(p, hits[0], doubled, listed), hits[1..], doubled, listed, o);
    }
  }

  /** The flag `Marks` reads for `o` is the one an eaten `e` sets: the
      same fish, or the player. */
  predicate MarksAlike(e: Entity, o: Entity)
  {
    if o.FishObj? then e == o else e.PlayerObj?
  }

  /** An object the hits mark eaten owns the box of one of them (for the
      player, whose one flag `Marks` reads, a player's box). */
  lemma {:induction false} MarkedOwnsAHit(p: Play, hits: seq<Hit>, doubled: bool, listed: seq<Fish>, o: Entity)
    requires p.score.scale >= 1 && !Marks(p, o) && Marks(AfterHits(p, hits, doubled, listed), o)
    ensures exists i :: 0 <= i < |hits| && MarksAlike(hits[i].box.parent, o)
    decreases |hits|
  {
    assert hits != [];
    var q := AfterHit(p, hits[0], doubled, listed);
    if !MarksAlike(hits[0].box.parent, o) {
      MarkedOwnsAHit(q, hits[1..], doubled, listed, o);
      var i :| 0 <= i < |hits[1..]| && MarksAlike(hits[1..][i].box.parent, o);
      assert MarksAlike(hits[i + 1].box.parent, o);
    }
  }

  /** Replaying two runs of hits one after the other is replaying them
      joined. */
  lemma {:induction false} HitsJoined(p: Play, a: seq<Hit>, b: seq<Hit>, doubled: bool, listed: seq<Fish>)
    requires p.score.scale >= 1
    ensures AfterHits(p, a + b, doubled, listed) == AfterHits(AfterHits(p, a, doubled, listed), b, doubled, listed)
    ensures Deaths(p, a + b, doubled, listed) == Deaths(p, a, doubled, listed) + Deaths(AfterHits(p, a, doubled, listed), b, doubled, listed)
    decreases |a|
  {
    if a != [] {
      assert (a + b)[0] == a[0] && (a + b)[1..] == a[1..] + b;
      HitsJoined(AfterHit(p, a[0], doubled, listed), a[1..], b, doubled, listed);
    } else {
      assert a + b == b;
    }
  }
}
