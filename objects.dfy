/**
 * The game objects and the two registries that bound them.
 *
 * Fish and the player carry a collision box, registered with the collision
 * manager; bubbles carry a trigger area, registered with the trigger-area
 * manager. An object that moves is appended to both managers' queues, and
 * each manager's `Update` scans every queued object against every
 * registered box or area, then clears its queue.
 *
 * The handlers the managers invoke are returned to the caller instead: the
 * collision manager returns the (box, object) pairs it would call `Collide`
 * on, and the trigger-area manager returns the enter and exit transitions in
 * the order it raises them. None of the handlers changes a rectangle, a
 * registry or a queue, so running them afterwards, in that order, has the
 * same effect as running them inside the scan.
 */
module Objects {
  import opened Geometry
  import opened Text
  import opened Events
  import opened Save
  import Unlocks

  const BaseResolutionWidth: int := 1920
  const BaseResolutionHeight: int := 1080

  /** The top of the play area, below the score bar. */
  const PlayAreaTop: int := 140

  /** `movementSpeed` of the player. */
  const PlayerSpeed: int := 4

  /** How far a bubble sways either side of where it was spawned. */
  const BubbleSway: int := 10

  /** The bubble timer of a fish after it has spawned one, in milliseconds. */
  const BubbleRespawnMs: int := 5000

  // ---------------------------------------------------------------------
  // C# integer arithmetic

  /** C# `a / b` for a positive divisor: the quotient truncated toward zero. */
  function CsDiv(a: int, b: int): (q: int)
    requires b > 0
    ensures a >= 0 ==> q == a / b
    ensures a < 0 ==> q == -((-a) / b) && q <= 0
  {
    if a >= 0 then a / b else -((-a) / b)
  }

  /** C# `a % b` for a positive divisor: the remainder has the sign of `a`. */
  function CsRem(a: int, b: int): (r: int)
    requires b > 0
    ensures a == b * CsDiv(a, b) + r
    ensures a >= 0 ==> 0 <= r < b && r == a % b
    ensures a < 0 ==> -b < r <= 0
  {
    a - b * CsDiv(a, b)
  }

  // ---------------------------------------------------------------------
  // Lists

  /** No element occurs twice. */
  predicate NoDuplicates<T(==)>(s: seq<T>)
  {
    forall i, j :: 0 <= i < j < |s| ==> s[i] != s[j]
  }

  lemma NoDuplicatesAt<T>(s: seq<T>, i: int, j: int)
    requires NoDuplicates(s) && 0 <= i < |s| && 0 <= j < |s|
    ensures s[i] == s[j] <==> i == j
  {
    if i < j {
      assert s[i] != s[j];
    } else if j < i {
      assert s[j] != s[i];
    }
  }

  /** `List<T>.Remove(x)`: drops the first occurrence of `x`, if any. */
  function RemoveOne<T(==)>(s: seq<T>, x: T): (r: seq<T>)
    ensures x !in s ==> r == s
    ensures |r| == if x in s then |s| - 1 else |s|
  {
    if |s| == 0 then []
    else if s[0] == x then s[1..]
    else [s[0]] + RemoveOne(s[1..], x)
  }

  /** Removing takes away exactly one occurrence of `x`, if there is one. */
  lemma {:induction false} RemoveOneCounts<T>(s: seq<T>, x: T)
    ensures multiset(RemoveOne(s, x)) == multiset(s) - multiset{x}
    decreases |s|
  {
    if |s| > 0 {
      assert s == [s[0]] + s[1..];
      if s[0] != x {
        RemoveOneCounts(s[1..], x);
      }
    }
  }

  /** Removing one element keeps every other element. */
  lemma RemoveOneKeepsOthers<T>(s: seq<T>, x: T, y: T)
    requires y != x
    ensures y in RemoveOne(s, x) <==> y in s
  {
    RemoveOneCounts(s, x);
    assert y in RemoveOne(s, x) <==> y in multiset(RemoveOne(s, x));
  }

  lemma NoDuplicatesTail<T>(s: seq<T>)
    requires NoDuplicates(s) && |s| > 0
    ensures NoDuplicates(s[1..]) && s[0] !in s[1..]
  {
    forall i, j | 0 <= i < j < |s| - 1
      ensures s[1..][i] != s[1..][j]
    {
      assert s[1..][i] == s[i + 1] && s[1..][j] == s[j + 1];
    }
    forall k | 0 <= k < |s| - 1
      ensures s[1..][k] != s[0]
    {
      assert s[1..][k] == s[k + 1];
    }
  }

  lemma NoDuplicatesCons<T>(x: T, t: seq<T>)
    requires NoDuplicates(t) && x !in t
    ensures NoDuplicates([x] + t)
  {
    forall i, j | 0 <= i < j < |t| + 1
      ensures ([x] + t)[i] != ([x] + t)[j]
    {
      assert ([x] + t)[j] == t[j - 1];
      if i > 0 {
        assert ([x] + t)[i] == t[i - 1];
      }
    }
  }

  /** In a list without duplicates, removing an element removes it
      entirely, and no duplicate appears. */
  lemma {:induction false} RemoveOneNoDuplicates<T>(s: seq<T>, x: T)
    requires NoDuplicates(s)
    ensures NoDuplicates(RemoveOne(s, x))
    ensures x !in RemoveOne(s, x)
  {
    if |s| > 0 {
      var t := s[1..];
      NoDuplicatesTail(s);
      if s[0] != x {
        RemoveOneNoDuplicates(t, x);
        var r := RemoveOne(t, x);
        RemoveOneKeepsOthers(t, x, s[0]);
        NoDuplicatesCons(s[0], r);
        assert RemoveOne(s, x) == [s[0]] + r;
      }
    }
  }

  /** Appending an element that is not there keeps the list free of duplicates. */
  lemma AppendFresh<T>(s: seq<T>, x: T)
    requires NoDuplicates(s) && x !in s
    ensures NoDuplicates(s + [x])
  {
  }

  // ---------------------------------------------------------------------
  // Objects that take part in collisions

  /** A game object that can be queued, can own a collision box and can be
      inside a trigger area: a fish or the player. Bubbles are never queued
      and own no box, so they are not among these. */
  datatype Entity = FishObj(fish: Fish) | PlayerObj(player: Player)
  {
    function Obj(): object
    {
      if FishObj? then fish else player
    }

    /** The object, as a fish or as the player. */
    function Fishes(): set<Fish>
    {
      if FishObj? then {fish} else {}
    }

    function Players(): set<Player>
    {
      if PlayerObj? then {player} else {}
    }

    /** The `CollisionBox` property: null unless the object assigned one. */
    function Box(): CollisionBox?
      reads Fishes()`collisionBox, Players()`collisionBox
    {
      if FishObj? then fish.collisionBox else player.collisionBox
    }

    /** The box, when there is one. */
    function Boxes(): set<CollisionBox>
      reads Fishes()`collisionBox, Players()`collisionBox
    {
      if Box() == null then {} else {Box()}
    }

    /** `Fish.Size`; the player inherits it. */
    function Size(): int
      reads Fishes()`size, Players()`size
    {
      if FishObj? then fish.size else player.size
    }

    /** `Fish.Eaten`; the player inherits it. */
    predicate Eaten()
      reads Fishes()`eaten, Players()`eaten
    {
      if FishObj? then fish.eaten else player.eaten
    }

    /** `GetObjectType()`. */
    function ObjectType(): string
    {
      if FishObj? then "Fish" else "Player"
    }
  }

  /** The queued fish. */
  function FishesOf(q: seq<Entity>): set<Fish>
  {
    set e | e in q && e.FishObj? :: e.fish
  }

  /** The queued player objects. */
  function PlayersOf(q: seq<Entity>): set<Player>
  {
    set e | e in q && e.PlayerObj? :: e.player
  }

  /** The boxes the queued objects own. */
  function BoxesOf(q: seq<Entity>): set<CollisionBox>
    reads FishesOf(q)`collisionBox, PlayersOf(q)`collisionBox
  {
    set e | e in q && e.Box() != null :: e.Box()
  }

  /** `Fish.Eat`: marks the object eaten and changes nothing else. */
  method EatObject(e: Entity)
    modifies e.Fishes()`eaten, e.Players()`eaten
    ensures e.Eaten()
    ensures e.FishObj? ==> e.fish.size == old(e.fish.size) && e.fish.collisionBox == old(e.fish.collisionBox)
                           && e.fish.position == old(e.fish.position) && e.fish.spawnBubble == old(e.fish.spawnBubble)
    ensures e.PlayerObj? ==> e.player.size == old(e.player.size) && e.player.fishEaten == old(e.player.fishEaten)
                             && e.player.collisionBox == old(e.player.collisionBox)
                             && e.player.position == old(e.player.position)
                             && e.player.targetPosition == old(e.player.targetPosition)
  {
    match e
    case FishObj(f) => f.eaten := true;
    case PlayerObj(p) => p.eaten := true;
  }

  // ---------------------------------------------------------------------
  // Collision boxes and their manager

  class CollisionBox {
    const parent: Entity
    var box: Rect

    /** A new box, registered with the manager. */
    constructor (parent: Entity, box: Rect, manager: CollisionManager)
      modifies manager`boxes
      ensures this.parent == parent && this.box == box
      ensures manager.boxes == old(manager.boxes) + [this]
      ensures manager.queue == old(manager.queue)
    {
      this.parent := parent;
      this.box := box;
      new;
      manager.Register(this);
    }

    /** Deregisters the box; the box itself is left as it is. */
    method Dispose(manager: CollisionManager)
      modifies manager`boxes
      ensures manager.boxes == RemoveOne(old(manager.boxes), this)
      ensures manager.queue == old(manager.queue)
    {
      manager.Deregister(this);
    }

    /** Puts the top-left corner at the truncated position; the size stays. */
    method Move(position: Vector2)
      modifies this`box
      ensures box == MovedTo(old(box), position)
    {
      box := MovedTo(box, position);
    }

    /** The object has a box, is not this box's parent, and the two
        rectangles intersect. */
    predicate CollidesWith(o: Entity)
      reads this`box, o.Fishes()`collisionBox, o.Players()`collisionBox, o.Boxes()`box
    {
      o.Box() != null && o != parent && Intersects(box, o.Box().box)
    }
  }

  /** `CollisionBox.Collide(o)` calls `o.Collided(box)`: the queued object is
      told which registered box it ran into. */
  datatype Hit = Hit(box: CollisionBox, target: Entity)

  /** The hits of one queued object, in registry order. */
  function Row(boxes: seq<CollisionBox>, o: Entity): (r: seq<Hit>)
    reads boxes`box, o.Fishes()`collisionBox, o.Players()`collisionBox, o.Boxes()`box
    ensures |r| <= |boxes|
    ensures forall h :: h in r ==> h.target == o && h.box in boxes
  {
    if |boxes| == 0 then []
    else
      var last := boxes[|boxes| - 1];
      Row(boxes[..|boxes| - 1], o) + (if last.CollidesWith(o) then [Hit(last, o)] else [])
  }

  /** The hits of a whole queue: queue order first, then registry order. */
  function Scan(queue: seq<Entity>, boxes: seq<CollisionBox>): (r: seq<Hit>)
    reads boxes`box, FishesOf(queue)`collisionBox, PlayersOf(queue)`collisionBox, BoxesOf(queue)`box
  {
    if |queue| == 0 then []
    else
      var n := |queue| - 1;
      assert FishesOf(queue[..n]) <= FishesOf(queue) && PlayersOf(queue[..n]) <= PlayersOf(queue);
      assert BoxesOf(queue[..n]) <= BoxesOf(queue);
      assert queue[n] in queue;
      Scan(queue[..n], boxes) + Row(boxes, queue[n])
  }

  class CollisionManager {
    var boxes: seq<CollisionBox>
    var queue: seq<Entity>

    constructor ()
      ensures boxes == [] && queue == []
    {
      boxes := [];
      queue := [];
    }

    /** Appends the object; an object already queued is queued again. */
    method AddObjectToQueue(o: Entity)
      modifies this`queue
      ensures queue == old(queue) + [o]
      ensures boxes == old(boxes)
    {
      queue := queue + [o];
    }

    method Register(b: CollisionBox)
      modifies this`boxes
      ensures boxes == old(boxes) + [b]
      ensures queue == old(queue)
    {
      boxes := boxes + [b];
    }

    /** Removes the first occurrence of the box. The queue is not purged. */
    method Deregister(b: CollisionBox)
      modifies this`boxes
      ensures boxes == RemoveOne(old(boxes), b)
      ensures queue == old(queue)
    {
      boxes := RemoveOne(boxes, b);
    }

    /** The nested scan: every queued object against every registered box.
        Returns the hits in the order `Collide` is called. */
    method Update() returns (hits: seq<Hit>)
      modifies this`queue
      ensures hits == old(Scan(queue, boxes))
      ensures boxes == old(boxes)
      ensures queue == []
    {
      hits := [];
      if |queue| > 0 {
        var i := 0;
        while i < |queue|
          invariant 0 <= i <= |queue|
          invariant hits == Scan(queue[..i], boxes)
        {
          var o := queue[i];
          var j := 0;
          ghost var before := hits;
          while j < |boxes|
            invariant 0 <= j <= |boxes|
            invariant hits == before + Row(boxes[..j], o)
          {
            var b := boxes[j];
            assert boxes[..j + 1][..j] == boxes[..j];
            if b.CollidesWith(o) {
              hits := hits + [Hit(b, o)];
            }
            j := j + 1;
          }
          assert boxes[..j] == boxes;
          assert queue[..i + 1][..i] == queue[..i];
          i := i + 1;
        }
        assert queue[..i] == queue;
        queue := [];
      }
    }
  }

  /** `CollisionManager.Initialise`: the static slot holding the one manager. */
  class CollisionManagerSlot {
    var instance: CollisionManager?

    constructor ()
      ensures instance == null
    {
      instance := null;
    }

    method Initialise() returns (m: CollisionManager)
      modifies this
      ensures old(instance) != null ==> m == old(instance)
      ensures old(instance) == null ==> fresh(m) && m.boxes == [] && m.queue == []
      ensures instance == m
    {
      if instance == null {
        instance := new CollisionManager();
      }
      m := instance;
    }
  }

  // ---------------------------------------------------------------------
  // Trigger areas and their manager

  class TriggerArea {
    var area: Rect
    var objectsInArea: seq<Entity>
    /** The bubble whose handler is subscribed to `OnTriggerAreaEntered`.
        Nothing subscribes to `OnTriggerAreaExited`. */
    var enteredHandler: Bubble?

    /** A new, empty area, registered with the manager. */
    constructor (area: Rect, manager: TriggerAreaManager)
      modifies manager`areas
      ensures this.area == area && objectsInArea == [] && enteredHandler == null
      ensures manager.areas == old(manager.areas) + [this]
      ensures manager.queue == old(manager.queue)
    {
      this.area := area;
      objectsInArea := [];
      enteredHandler := null;
      new;
      manager.Register(this);
    }

    method Dispose(manager: TriggerAreaManager)
      modifies manager`areas
      ensures manager.areas == RemoveOne(old(manager.areas), this)
      ensures manager.queue == old(manager.queue)
    {
      manager.Deregister(this);
    }

    /** Puts the top-left corner at the truncated position. */
    method Move(position: Vector2)
      modifies this`area
      ensures area == MovedTo(old(area), position)
      ensures objectsInArea == old(objectsInArea) && enteredHandler == old(enteredHandler)
    {
      area := MovedTo(area, position);
    }

    /** `List.Contains`: some position of the member list holds the object. */
    function IsObjectAlreadyInside(o: Entity): (r: bool)
      reads this`objectsInArea
      ensures r <==> exists i :: 0 <= i < |objectsInArea| && objectsInArea[i] == o
    {
      o in objectsInArea
    }

    /** Adds the object; the manager reports the `Entered` transition. */
    method Enter(o: Entity)
      modifies this`objectsInArea
      ensures objectsInArea == old(objectsInArea) + [o]
      ensures area == old(area) && enteredHandler == old(enteredHandler)
    {
      objectsInArea := objectsInArea + [o];
    }

    /** Removes one occurrence; the manager reports the `Exited` transition. */
    method Exit(o: Entity)
      modifies this`objectsInArea
      ensures objectsInArea == RemoveOne(old(objectsInArea), o)
      ensures area == old(area) && enteredHandler == old(enteredHandler)
    {
      objectsInArea := RemoveOne(objectsInArea, o);
    }
  }

  /** The handler calls the trigger-area manager makes, in order. */
  datatype Transition = Entered(area: TriggerArea, obj: Entity) | Exited(area: TriggerArea, obj: Entity)

  /** One area's membership after seeing one queued object. */
  function Step(members: seq<Entity>, inside: bool, o: Entity): seq<Entity>
  {
    if inside && o !in members then members + [o]
    else if !inside && o in members then RemoveOne(members, o)
    else members
  }

  /** The transition that step raises, if any. */
  function StepEvent(area: TriggerArea, members: seq<Entity>, inside: bool, o: Entity): seq<Transition>
  {
    if inside && o !in members then [Entered(area, o)]
    else if !inside && o in members then [Exited(area, o)]
    else []
  }

  /** One area's membership after the queued objects, whose boxes are at
      `rects`, have been seen in turn. */
  function Members(areaRect: Rect, start: seq<Entity>, q: seq<Entity>, rects: seq<Rect>): seq<Entity>
    requires |rects| == |q|
  {
    if |q| == 0 then start
    else
      var n := |q| - 1;
      Step(Members(areaRect, start, q[..n], rects[..n]), Intersects(areaRect, rects[n]), q[n])
  }

  /** Every area's membership after the queued objects have been seen. */
  function MembersAll(areaRects: seq<Rect>, starts: seq<seq<Entity>>, q: seq<Entity>, rects: seq<Rect>): (r: seq<seq<Entity>>)
    requires |starts| == |areaRects| && |rects| == |q|
    ensures |r| == |starts|
    ensures forall k :: 0 <= k < |starts| ==> r[k] == Members(areaRects[k], starts[k], q, rects)
  {
    seq(|starts|, k requires 0 <= k < |starts| => Members(areaRects[k], starts[k], q, rects))
  }

  /** The transitions raised for queued object `o` (box at `r`) against the
      first `k` areas, whose memberships are `current`. */
  function RowLog(areas: seq<TriggerArea>, areaRects: seq<Rect>, current: seq<seq<Entity>>,
                  o: Entity, r: Rect, k: nat): seq<Transition>
    requires |areaRects| == |areas| && |current| == |areas| && k <= |areas|
  {
    if k == 0 then []
    else RowLog(areas, areaRects, current, o, r, k - 1) + StepEvent(areas[k - 1], current[k - 1], Intersects(areaRects[k - 1], r), o)
  }

  /** All transitions of one update: queue order first, then registry order. */
  function Log(areas: seq<TriggerArea>, areaRects: seq<Rect>, starts: seq<seq<Entity>>,
               q: seq<Entity>, rects: seq<Rect>): seq<Transition>
    requires |areaRects| == |areas| && |starts| == |areas| && |rects| == |q|
  {
    if |q| == 0 then []
    else
      var n := |q| - 1;
      Log(areas, areaRects, starts, q[..n], rects[..n]) +
      RowLog(areas, areaRects, MembersAll(areaRects, starts, q[..n], rects[..n]), q[n], rects[n], |areas|)
  }

  /** Every queued object has a collision box. */
  predicate AllBoxed(q: seq<Entity>)
    reads FishesOf(q)`collisionBox, PlayersOf(q)`collisionBox
  {
    forall e :: e in q ==> e.Box() != null
  }

  lemma PrefixSnoc<T>(s: seq<T>, i: int)
    requires 0 <= i < |s|
    ensures s[..i + 1] == s[..i] + [s[i]] && s[..i + 1][..i] == s[..i]
  {
  }

  /** `Members` for one more queued object is one more step. */
  lemma MembersSnoc(areaRect: Rect, start: seq<Entity>, q: seq<Entity>, rects: seq<Rect>, o: Entity, r: Rect)
    requires |rects| == |q|
    ensures Members(areaRect, start, q + [o], rects + [r]) == Step(Members(areaRect, start, q, rects), Intersects(areaRect, r), o)
  {
    assert (q + [o])[..|q|] == q;
    assert (rects + [r])[..|q|] == rects;
  }

  /** Where the queued objects' boxes are. */
  function BoxRects(q: seq<Entity>): (r: seq<Rect>)
    requires AllBoxed(q)
    reads FishesOf(q)`collisionBox, PlayersOf(q)`collisionBox, BoxesOf(q)`box
    ensures |r| == |q|
  {
    if |q| == 0 then []
    else
      var n := |q| - 1;
      assert FishesOf(q[..n]) <= FishesOf(q) && PlayersOf(q[..n]) <= PlayersOf(q);
      assert BoxesOf(q[..n]) <= BoxesOf(q);
      assert q[n] in q;
      assert q[n].Box() in BoxesOf(q);
      BoxRects(q[..n]) + [q[n].Box().box]
  }

  lemma BoxRectsAt(q: seq<Entity>, i: int)
    requires AllBoxed(q) && 0 <= i < |q|
    ensures q[i].Box() != null && BoxRects(q)[i] == q[i].Box().box
  {
    var n := |q| - 1;
    if i < n {
      assert AllBoxed(q[..n]);
      BoxRectsAt(q[..n], i);
    }
  }

  function AreaRects(areas: seq<TriggerArea>): (r: seq<Rect>)
    reads areas`area
    ensures |r| == |areas| && forall k :: 0 <= k < |areas| ==> r[k] == areas[k].area
  {
    if |areas| == 0 then [] else [areas[0].area] + AreaRects(areas[1..])
  }

  function Memberships(areas: seq<TriggerArea>): (r: seq<seq<Entity>>)
    reads areas`objectsInArea
    ensures |r| == |areas| && forall k :: 0 <= k < |areas| ==> r[k] == areas[k].objectsInArea
  {
    if |areas| == 0 then [] else [areas[0].objectsInArea] + Memberships(areas[1..])
  }

  class TriggerAreaManager {
    var areas: seq<TriggerArea>
    var queue: seq<Entity>

    /** Areas are registered once each, and no area lists an object twice. */
    ghost predicate Valid()
      reads this`areas, areas`objectsInArea
    {
      NoDuplicates(areas) &&
      forall k :: 0 <= k < |areas| ==> NoDuplicates(areas[k].objectsInArea)
    }

    constructor ()
      ensures Valid() && areas == [] && queue == []
    {
      areas := [];
      queue := [];
    }

    /** Appends the object; an object already queued is queued again. */
    method AddObjectToQueue(o: Entity)
      modifies this`queue
      ensures queue == old(queue) + [o]
      ensures areas == old(areas)
    {
      queue := queue + [o];
    }

    method Register(a: TriggerArea)
      modifies this`areas
      ensures areas == old(areas) + [a]
      ensures queue == old(queue)
    {
      areas := areas + [a];
    }

    method Deregister(a: TriggerArea)
      modifies this`areas
      ensures areas == RemoveOne(old(areas), a)
      ensures queue == old(queue)
    {
      areas := RemoveOne(areas, a);
    }

    /** The enter/exit diff of every queued object against every area.
        Every queued object must have a collision box: there is no guard.
        The box rectangles are read once, before the loops: nothing the
        loops do moves a box. */
    method Update() returns (log: seq<Transition>)
      requires Valid()
      requires AllBoxed(queue)
      modifies this`queue, areas`objectsInArea
      ensures Valid()
      ensures queue == [] && areas == old(areas)
      ensures forall k :: 0 <= k < |areas| ==>
                areas[k].objectsInArea == Members(areas[k].area, old(areas[k].objectsInArea), old(queue), old(BoxRects(queue)))
      ensures log == Log(areas, old(AreaRects(areas)), old(Memberships(areas)), old(queue), old(BoxRects(queue)))
    {
      var rects := BoxRects(queue);
      ghost var areaRects, starts := AreaRects(areas), Memberships(areas);
      log := Sweep(queue, rects, areaRects, starts);
      forall k | 0 <= k < |areas|
        ensures areas[k].objectsInArea == Members(areas[k].area, old(areas[k].objectsInArea), queue, rects)
      {
        assert areaRects[k] == areas[k].area && starts[k] == old(areas[k].objectsInArea);
      }
      queue := [];
    }

    /** The two loops over the queued objects `q`, whose boxes are at
        `rects`, and the areas, whose rectangles and memberships are
        `areaRects` and `starts` beforehand. */
    method Sweep(q: seq<Entity>, rects: seq<Rect>, ghost areaRects: seq<Rect>, ghost starts: seq<seq<Entity>>)
      returns (log: seq<Transition>)
      requires Valid()
      requires |rects| == |q| && |areaRects| == |areas| && |starts| == |areas|
      requires forall k :: 0 <= k < |areas| ==> areas[k].area == areaRects[k] && areas[k].objectsInArea == starts[k]
      modifies areas`objectsInArea
      ensures Valid()
      ensures forall k :: 0 <= k < |areas| ==> areas[k].objectsInArea == Members(areaRects[k], starts[k], q, rects)
      ensures log == Log(areas, areaRects, starts, q, rects)
    {
      log := [];
      var i := 0;
      while i < |q|
        invariant 0 <= i <= |q|
        invariant Valid()
        invariant forall k :: 0 <= k < |areas| ==> areas[k].area == areaRects[k]
        invariant forall k :: 0 <= k < |areas| ==> areas[k].objectsInArea == Members(areaRects[k], starts[k], q[..i], rects[..i])
        invariant log == Log(areas, areaRects, starts, q[..i], rects[..i])
      {
        var row := Visit(q, rects, i, areaRects, starts);
        log := log + row;
        i := i + 1;
      }
      assert q[..i] == q;
      assert rects[..i] == rects;
    }

    /** The outer loop's body: the queued object `q[i]`, whose box is at
        `rects[i]`, seen after the ones before it. */
    method Visit(q: seq<Entity>, rects: seq<Rect>, i: nat, ghost areaRects: seq<Rect>, ghost starts: seq<seq<Entity>>)
      returns (row: seq<Transition>)
      requires Valid()
      requires i < |q| == |rects| && |areaRects| == |areas| && |starts| == |areas|
      requires forall k :: 0 <= k < |areas| ==>
                 areas[k].area == areaRects[k] && areas[k].objectsInArea == Members(areaRects[k], starts[k], q[..i], rects[..i])
      modifies areas`objectsInArea
      ensures Valid()
      ensures forall k :: 0 <= k < |areas| ==>
                areas[k].objectsInArea == Members(areaRects[k], starts[k], q[..i + 1], rects[..i + 1])
      ensures Log(areas, areaRects, starts, q[..i + 1], rects[..i + 1]) == Log(areas, areaRects, starts, q[..i], rects[..i]) + row
    {
      PrefixSnoc(q, i);
      PrefixSnoc(rects, i);
      ghost var current := MembersAll(areaRects, starts, q[..i], rects[..i]);
      row := DiffRow(q[i], rects[i], areaRects, current);
      forall k | 0 <= k < |areas|
        ensures areas[k].objectsInArea == Members(areaRects[k], starts[k], q[..i + 1], rects[..i + 1])
      {
        MembersSnoc(areaRects[k], starts[k], q[..i], rects[..i], q[i], rects[i]);
      }
    }

    /** One area against one queued object whose box is at `r`: the object
        enters when it overlaps and is not yet listed, and exits when it no
        longer overlaps but is still listed. */
    method DiffArea(a: TriggerArea, o: Entity, r: Rect) returns (event: seq<Transition>)
      requires NoDuplicates(a.objectsInArea)
      modifies a`objectsInArea
      ensures NoDuplicates(a.objectsInArea)
      ensures a.objectsInArea == Step(old(a.objectsInArea), Intersects(a.area, r), o)
      ensures event == StepEvent(a, old(a.objectsInArea), Intersects(a.area, r), o)
      ensures a.area == old(a.area) && a.enteredHandler == old(a.enteredHandler)
    {
      var inside := Intersects(a.area, r);
      event := [];
      if inside && !a.IsObjectAlreadyInside(o) {
        AppendFresh(a.objectsInArea, o);
        a.Enter(o);
        event := [Entered(a, o)];
      } else if !inside && a.IsObjectAlreadyInside(o) {
        RemoveOneNoDuplicates(a.objectsInArea, o);
        a.Exit(o);
        event := [Exited(a, o)];
      }
    }

    /** The inner loop: one queued object, whose box is at `r`, against
        every area; `current` holds the memberships beforehand. */
    method DiffRow(o: Entity, r: Rect, ghost areaRects: seq<Rect>, ghost current: seq<seq<Entity>>)
      returns (row: seq<Transition>)
      requires Valid()
      requires |areaRects| == |areas| && |current| == |areas|
      requires forall k :: 0 <= k < |areas| ==> areas[k].area == areaRects[k] && areas[k].objectsInArea == current[k]
      modifies areas`objectsInArea
      ensures Valid()
      ensures forall k :: 0 <= k < |areas| ==>
                areas[k].area == old(areas[k].area) && areas[k].enteredHandler == old(areas[k].enteredHandler)
      ensures forall k :: 0 <= k < |areas| ==>
                areas[k].objectsInArea == Step(current[k], Intersects(areaRects[k], r), o)
      ensures row == RowLog(areas, areaRects, current, o, r, |areas|)
    {
      row := [];
      var j := 0;
      while j < |areas|
        invariant 0 <= j <= |areas|
        invariant NoDuplicates(areas)
        invariant forall k :: 0 <= k < |areas| ==>
                    areas[k].area == areaRects[k] && areas[k].enteredHandler == old(areas[k].enteredHandler) &&
                    NoDuplicates(areas[k].objectsInArea) &&
                    areas[k].objectsInArea == (if k < j then Step(current[k], Intersects(areaRects[k], r), o) else current[k])
        invariant row == RowLog(areas, areaRects, current, o, r, j)
      {
        var a := areas[j];
        assert forall k :: 0 <= k < |areas| && k != j ==> areas[k] != a;
        var event := DiffArea(a, o, r);
        assert event == StepEvent(areas[j], current[j], Intersects(areaRects[j], r), o);
        row := row + event;
        assert row == RowLog(areas, areaRects, current, o, r, j + 1);
        j := j + 1;
      }
    }
  }

  /** `TriggerAreaManager.Initialise`: the static slot holding the one manager. */
  class TriggerAreaManagerSlot {
    var instance: TriggerAreaManager?

    constructor ()
      ensures instance == null
    {
      instance := null;
    }

    method Initialise() returns (m: TriggerAreaManager)
      modifies this
      ensures old(instance) != null ==> m == old(instance)
      ensures old(instance) == null ==> fresh(m) && m.Valid() && m.areas == [] && m.queue == []
      ensures instance == m
    {
      if instance == null {
        instance := new TriggerAreaManager();
      }
      m := instance;
    }
  }

  // ---------------------------------------------------------------------
  // Fish

  /** The size of a fish built from metadata of tier `baseScale` while the
      player is at `scale`: the tier of `scale` (a remainder of 0 counts as
      7), one more when the metadata is a tier above it. */
  function SpawnSize(baseScale: int, scale: int): (size: int)
  {
    var s := if CsRem(scale, 7) == 0 then 7 else CsRem(scale, 7);
    if baseScale > s || baseScale <= s - 6 then s + 1 else s
  }

  /** A fish's size after `Rescale(newScale)`. */
  function RescaledSize(size: int, newScale: int): (r: int)
    ensures r == size - 1 || r == 1
    ensures var n := if newScale == 0 then 7 else newScale;
            n >= 1 ==> r <= n
  {
    var n := if newScale == 0 then 7 else newScale;
    if size - 1 > n then 1 else size - 1
  }

  /** Where a box sits for an object at `position` with the given offset. */
  function BoxAt(position: Vector2, offset: Vector2, width: int, height: int): Rect
  {
    Rect(Truncate(position.x + offset.x), Truncate(position.y + offset.y), width, height)
  }

  /** The offset that centres a sprite of that size on its position. */
  function CentreOffset(width: int, height: int): Vector2
  {
    Vector2(CsDiv(-width, 2) as real, CsDiv(-height, 2) as real)
  }

  class Fish {
    const baseScale: int
    var size: int
    var eaten: bool
    var position: Vector2
    const collisionBoxOffset: Vector2
    var collisionBox: CollisionBox?
    /** The bubble timer, in milliseconds. */
    var spawnBubble: int

    /** A fish of the given metadata at `position`. The sprite's size and
        the first bubble delay (a draw from 6000 to 9999 ms) are given. */
    constructor (meta: Unlocks.FishMetadata, position: Vector2, scale: int,
                 spriteWidth: int, spriteHeight: int, bubbleDelay: int, manager: CollisionManager)
      modifies manager`boxes
      ensures baseScale == meta.baseScale && size == SpawnSize(meta.baseScale, scale)
      ensures !eaten && this.position == position && spawnBubble == bubbleDelay
      ensures collisionBoxOffset == CentreOffset(spriteWidth, spriteHeight)
      ensures collisionBox != null && fresh(collisionBox) && collisionBox.parent == FishObj(this)
      ensures collisionBox.box == BoxAt(position, collisionBoxOffset, spriteWidth, spriteHeight)
      ensures manager.boxes == old(manager.boxes) + [collisionBox]
      ensures manager.queue == old(manager.queue)
    {
      baseScale := meta.baseScale;
      size := SpawnSize(meta.baseScale, scale);
      eaten := false;
      this.position := position;
      spawnBubble := bubbleDelay;
      collisionBoxOffset := CentreOffset(spriteWidth, spriteHeight);
      collisionBox := null;
      new;
      collisionBox := new CollisionBox(FishObj(this), BoxAt(position, collisionBoxOffset, spriteWidth, spriteHeight), manager);
    }

    /** Deregisters the box, if there is one. */
    method Dispose(manager: CollisionManager)
      modifies manager`boxes
      ensures collisionBox != null ==> manager.boxes == RemoveOne<CollisionBox>(old(manager.boxes), collisionBox)
      ensures collisionBox == null ==> manager.boxes == old(manager.boxes)
      ensures manager.queue == old(manager.queue)
    {
      if collisionBox != null {
        collisionBox.Dispose(manager);
      }
    }

    /** Eats the parent of the box only when it is strictly smaller. */
    method Collided(box: CollisionBox)
      modifies box.parent.Fishes()`eaten, box.parent.Players()`eaten
      ensures old(box.parent.Size()) < old(size) ==> box.parent.Eaten()
      ensures old(box.parent.Size()) >= old(size) ==> box.parent.Eaten() == old(box.parent.Eaten())
    {
      if box.parent.Size() < size {
        EatObject(box.parent);
      }
    }

    method Eat()
      modifies this`eaten
      ensures eaten
    {
      eaten := true;
    }

    /** `Rescale(newScale)`: the size drops by one, or to 1 when that is
        still above the new scale. */
    method Rescale(newScale: int)
      modifies this`size
      ensures size == RescaledSize(old(size), newScale)
    {
      var n := if newScale == 0 then 7 else newScale;
      size := size - 1;
      if size > n {
        size := 1;
      }
    }

    /** One frame: runs the bubble timer and moves to `newPosition`. The
        bubble draw (0 to 9) only counts when the timer has run out; a
        bubble is requested, at the position before the move, on a draw
        above 8. Moving raises `OnMoved`, which the caller handles. */
    method Update(elapsed: nat, draw: int, newPosition: Vector2) returns (bubbleAt: Option<Vector2>)
      requires collisionBox != null
      modifies this`spawnBubble, this`position, collisionBox`box
      ensures bubbleAt.Some? <==> old(spawnBubble) - elapsed <= 0 && draw > 8
      ensures bubbleAt.Some? ==> bubbleAt.value == old(position) && spawnBubble == BubbleRespawnMs
      ensures bubbleAt.None? ==> spawnBubble == old(spawnBubble) - elapsed
      ensures position == newPosition
      ensures collisionBox.box == MovedTo(old(collisionBox.box), newPosition.Plus(collisionBoxOffset))
    {
      bubbleAt := None;
      spawnBubble := spawnBubble - elapsed;
      if spawnBubble <= 0 {
        if draw > 8 {
          bubbleAt := Some(position);
          spawnBubble := BubbleRespawnMs;
        }
      }
      position := newPosition;
      Move();
    }

    /** Moves the box to the position plus the offset. */
    method Move()
      requires collisionBox != null
      modifies collisionBox`box
      ensures collisionBox.box == MovedTo(old(collisionBox.box), position.Plus(collisionBoxOffset))
    {
      collisionBox.Move(position.Plus(collisionBoxOffset));
    }
  }

  // ---------------------------------------------------------------------
  // The player

  /** The movement inputs of one frame, already read from the input
      manager: the four direction bindings held, and the mouse or touch
      position when the left button or a touch is held. */
  datatype Steering = Steering(up: bool, down: bool, left: bool, right: bool, pointer: Option<Point>)

  /** One axis of the pointer rule: a step toward the pointer, none when level. */
  function Toward(target: real, pointer: int, position: real): real
  {
    if pointer as real > position then target + PlayerSpeed as real
    else if (pointer as real) < position then target - PlayerSpeed as real
    else target
  }

  /** The target after the direction bindings and the pointer, before clamping. */
  function Steer(target: Vector2, position: Vector2, s: Steering): Vector2
  {
    var y1 := if s.up then target.y - PlayerSpeed as real else target.y;
    var y2 := if s.down then y1 + PlayerSpeed as real else y1;
    var x1 := if s.left then target.x - PlayerSpeed as real else target.x;
    var x2 := if s.right then x1 + PlayerSpeed as real else x1;
    match s.pointer
    case None => Vector2(x2, y2)
    case Some(p) => Vector2(Toward(x2, p.x, position.x), Toward(y2, p.y, position.y))
  }

  /** The target pulled back onto the play area. */
  function ClampToScreen(v: Vector2): (r: Vector2)
    ensures 0.0 <= r.x <= BaseResolutionWidth as real
    ensures PlayAreaTop as real <= r.y <= BaseResolutionHeight as real
    ensures 0.0 <= v.x <= BaseResolutionWidth as real ==> r.x == v.x
    ensures PlayAreaTop as real <= v.y <= BaseResolutionHeight as real ==> r.y == v.y
  {
    var x := if v.x < 0.0 then 0.0 else v.x;
    var x' := if x > BaseResolutionWidth as real then BaseResolutionWidth as real else x;
    var y := if v.y < PlayAreaTop as real then PlayAreaTop as real else v.y;
    var y' := if y > BaseResolutionHeight as real then BaseResolutionHeight as real else y;
    Vector2(x', y')
  }

  class Player {
    var size: int
    var eaten: bool
    var fishEaten: int
    var position: Vector2
    var targetPosition: Vector2
    const initialPosition: Vector2
    var collisionBoxOffset: Vector2
    var collisionBox: CollisionBox?

    /** The player in the middle of the screen, reset for the selected fish.
        The sprite's size for that fish is given. */
    constructor (save: GameSaveData, spriteWidth: int, spriteHeight: int, manager: CollisionManager)
      requires 0 <= save.currentFish < |Unlocks.Fish|
      modifies manager`boxes
      ensures initialPosition == Vector2((BaseResolutionWidth / 2) as real, (BaseResolutionHeight / 2) as real)
      ensures size == 1 && fishEaten == 0 && !eaten
      ensures position == initialPosition && targetPosition == initialPosition
      ensures collisionBox != null && fresh(collisionBox) && collisionBox.parent == PlayerObj(this)
      ensures manager.boxes == old(manager.boxes) + [collisionBox]
      ensures manager.queue == old(manager.queue)
    {
      initialPosition := Vector2((BaseResolutionWidth / 2) as real, (BaseResolutionHeight / 2) as real);
      position := initialPosition;
      targetPosition := initialPosition;
      eaten := false;
      collisionBox := null;
      new;
      Reset(save, spriteWidth, spriteHeight, manager);
    }

    /** Back to size 1 at the centre, with a new box registered. The old box
        is not deregistered. */
    method Reset(save: GameSaveData, spriteWidth: int, spriteHeight: int, manager: CollisionManager)
      requires 0 <= save.currentFish < |Unlocks.Fish|
      modifies this`size, this`position, this`targetPosition, this`fishEaten,
               this`collisionBoxOffset, this`collisionBox, manager`boxes
      ensures size == 1 && fishEaten == 0
      ensures position == initialPosition && targetPosition == initialPosition
      ensures collisionBoxOffset == CentreOffset(spriteWidth, spriteHeight)
      ensures collisionBox != null && fresh(collisionBox) && collisionBox.parent == PlayerObj(this)
      ensures collisionBox.box == BoxAt(initialPosition, collisionBoxOffset, spriteWidth, spriteHeight)
      ensures manager.boxes == old(manager.boxes) + [collisionBox]
      ensures manager.queue == old(manager.queue)
    {
      size := 1;
      position := initialPosition;
      targetPosition := position;
      fishEaten := 0;
      collisionBoxOffset := CentreOffset(spriteWidth, spriteHeight);
      collisionBox := new CollisionBox(PlayerObj(this), BoxAt(position, collisionBoxOffset, spriteWidth, spriteHeight), manager);
    }

    /** The size for a tier: 0 stands for 7. */
    method ShowScaleVfx(currentSize: int)
      modifies this`size
      ensures size == (if currentSize == 0 then 7 else currentSize)
    {
      size := if currentSize == 0 then 7 else currentSize;
    }

    /** Eats a fish no bigger than the player and reports `OnFishEaten`;
        runs into a bigger one and ends the game: the session's count is
        added to the saved total and `GameOver` is fired at `now`. */
    method Collided(box: CollisionBox, save: GameSaveData, bus: EventManager, now: int) returns (ateFish: bool)
      requires box.parent.Obj() != save && box.parent.Obj() != bus
      modifies this`fishEaten, box.parent.Fishes()`eaten, box.parent.Players()`eaten, save`fishEaten, bus
      ensures ateFish <==> old(box.parent.Size()) <= old(size)
      ensures ateFish ==> fishEaten == old(fishEaten) + 1 && box.parent.Eaten()
                          && unchanged(save, bus)
      ensures !ateFish ==> fishEaten == old(fishEaten) && box.parent.Eaten() == old(box.parent.Eaten())
                           && save.fishEaten == old(save.fishEaten) + old(fishEaten)
                           && |bus.events| == |old(bus.events)| + 1
                           && bus.events[..|old(bus.events)|] == old(bus.events)
                           && bus.events[|bus.events| - 1].name == GameOver
                           && bus.events[|bus.events| - 1].timeTriggered == now
    {
      var other := box.parent;
      if other.Size() <= size {
        fishEaten := fishEaten + 1;
        EatObject(other);
        ateFish := true;
      } else {
        save.fishEaten := save.fishEaten + fishEaten;
        bus.FireEvent(GameOver, now);
        ateFish := false;
      }
    }

    /** Applies the movement inputs to the target and clamps it. */
    method HandleInput(s: Steering)
      modifies this`targetPosition
      ensures targetPosition == ClampToScreen(Steer(old(targetPosition), position, s))
    {
      targetPosition := ClampToScreen(Steer(targetPosition, position, s));
    }

    /** One frame: steering, then the move to `newPosition`. Moving raises
        `OnMoved`, which the caller handles. */
    method Update(s: Steering, newPosition: Vector2)
      requires collisionBox != null
      modifies this`targetPosition, this`position, collisionBox`box
      ensures targetPosition == ClampToScreen(Steer(old(targetPosition), old(position), s))
      ensures position == newPosition
      ensures collisionBox.box == MovedTo(old(collisionBox.box), newPosition.Plus(collisionBoxOffset))
    {
      HandleInput(s);
      position := newPosition;
      collisionBox.Move(position.Plus(collisionBoxOffset));
    }
  }

  // ---------------------------------------------------------------------
  // Bubbles

  /** The horizontal direction after a step to `x`: right at or past the
      left bound, left at or past the right bound. */
  function Turn(x: real, direction: int, minX: int, maxX: int): int
  {
    if x >= maxX as real then -1
    else if x <= minX as real then 1
    else direction
  }

  /** The sway invariant: strictly less than one step outside the bounds,
      and heading back in from either bound. */
  predicate Swaying(x: real, direction: int, minX: int, maxX: int)
  {
    (direction == 1 || direction == -1) &&
    minX as real - 1.0 < x < maxX as real + 1.0 &&
    (x <= minX as real ==> direction == 1) &&
    (x >= maxX as real ==> direction == -1)
  }

  class Bubble {
    var position: Vector2
    const speed: int
    const minX: int
    const maxX: int
    var direction: int
    var burst: bool
    const triggerArea: TriggerArea
    /** Whether the scene's handler is still subscribed to `OnBurst`. */
    var burstSubscribed: bool

    ghost predicate Valid()
      reads this`position, this`direction
    {
      maxX == minX + 2 * BubbleSway && Swaying(position.x, direction, minX, maxX)
    }

    /** A bubble at `position`; `directionDraw` is the draw from 0 to 1 that
        picks the first direction, and the square area's side is the
        sprite's width. */
    constructor (position: Vector2, speed: int, directionDraw: int, spriteWidth: int, manager: TriggerAreaManager)
      requires directionDraw == 0 || directionDraw == 1
      modifies manager`areas
      ensures Valid()
      ensures this.position == position && this.speed == speed && !burst && !burstSubscribed
      ensures minX == Truncate(position.x) - BubbleSway && maxX == Truncate(position.x) + BubbleSway
      ensures direction == (if directionDraw == 0 then -1 else 1)
      ensures fresh(triggerArea) && triggerArea.enteredHandler == this && triggerArea.objectsInArea == []
      ensures triggerArea.area == Rect(Truncate(position.x), Truncate(position.y), spriteWidth, spriteWidth)
      ensures manager.areas == old(manager.areas) + [triggerArea]
      ensures manager.queue == old(manager.queue)
    {
      this.position := position;
      this.speed := speed;
      minX := Truncate(position.x) - BubbleSway;
      maxX := Truncate(position.x) + BubbleSway;
      direction := if directionDraw == 0 then -1 else 1;
      burst := false;
      burstSubscribed := false;
      triggerArea := new TriggerArea(Rect(Truncate(position.x), Truncate(position.y), spriteWidth, spriteWidth), manager);
      new;
      triggerArea.enteredHandler := this;
    }

    /** Unsubscribes from the area and deregisters it. */
    method Dispose(manager: TriggerAreaManager)
      modifies triggerArea`enteredHandler, manager`areas
      ensures triggerArea.enteredHandler == null
      ensures manager.areas == RemoveOne(old(manager.areas), triggerArea)
      ensures manager.queue == old(manager.queue)
    {
      triggerArea.enteredHandler := null;
      triggerArea.Dispose(manager);
    }

    /** Rises by `speed`, sways by one, turns at the bounds and takes the
        area along. */
    method Update()
      requires Valid()
      modifies this`position, this`direction, triggerArea`area
      ensures Valid()
      ensures position == Vector2(old(position.x) + old(direction) as real, old(position.y) - speed as real)
      ensures direction == Turn(position.x, old(direction), minX, maxX)
      ensures triggerArea.area == MovedTo(old(triggerArea.area), position)
    {
      position := Vector2(position.x + direction as real, position.y - speed as real);
      SwayStep(old(position.x), direction, minX, maxX);
      if position.x <= minX as real {
        direction := 1;
      }
      if position.x >= maxX as real {
        direction := -1;
      }
      triggerArea.Move(position);
    }

    /** The entered handler: only the player bursts the bubble, and then
        `OnBurst` is raised if the scene is still subscribed. */
    method TriggerAreaEntered(o: Entity) returns (raised: bool)
      modifies this`burst
      ensures o.PlayerObj? ==> burst && raised == burstSubscribed
      ensures !o.PlayerObj? ==> burst == old(burst) && !raised
    {
      raised := false;
      if o.PlayerObj? {
        burst := true;
        raised := burstSubscribed;
      }
    }
  }

  // ---------------------------------------------------------------------
  // Properties

  /** One sway step keeps the invariant. */
  lemma SwayStep(x: real, direction: int, minX: int, maxX: int)
    requires maxX == minX + 2 * BubbleSway
    requires Swaying(x, direction, minX, maxX)
    ensures Swaying(x + direction as real, Turn(x + direction as real, direction, minX, maxX), minX, maxX)
  {
  }
}
