/**
 * What the two managers' scans promise, stated over the specification
 * functions their `Update` methods are proved against: which collision
 * callbacks happen, and how area memberships and the enter/exit events
 * evolve over a queue.
 */
module BoundsProperties {
  import opened Geometry
  import opened Text
  import opened Objects

  // ---------------------------------------------------------------------
  // Collisions

  /** `GetObjectType()`: two objects have the same type name exactly when
      both are fish or both are the player. */
  lemma ObjectTypeNamesKind(e: Entity, other: Entity)
    ensures e.ObjectType() == other.ObjectType() <==> e.FishObj? == other.FishObj?
  {
    assert "Fish"[0] != "Player"[0];
  }

  /** A box never collides with its own parent or with an object that has
      no box, and a collision is an overlap seen from the object's side
      too. */
  lemma CollisionRules(b: CollisionBox, o: Entity)
    ensures o == b.parent ==> !b.CollidesWith(o)
    ensures o.Box() == null ==> !b.CollidesWith(o)
    ensures b.CollidesWith(o) ==> Intersects(o.Box().box, b.box)
  {
    if b.CollidesWith(o) {
      IntersectsSymmetric(b.box, o.Box().box);
    }
  }

  /** A queued object is hit by exactly the registered boxes that collide with it. */
  lemma {:induction false} RowMembership(boxes: seq<CollisionBox>, o: Entity, h: Hit)
    ensures h in Row(boxes, o) <==> h.target == o && h.box in boxes && h.box.CollidesWith(o)
  {
    if |boxes| > 0 {
      var n := |boxes| - 1;
      RowMembership(boxes[..n], o, h);
      assert boxes == boxes[..n] + [boxes[n]];
    }
  }

  /** `Collide` is called for a (box, object) pair exactly when the object
      was queued, the box is registered and the box collides with it. */
  lemma {:induction false} ScanMembership(queue: seq<Entity>, boxes: seq<CollisionBox>, h: Hit)
    ensures h in Scan(queue, boxes) <==> h.target in queue && h.box in boxes && h.box.CollidesWith(h.target)
  {
    if |queue| > 0 {
      var n := |queue| - 1;
      ScanMembership(queue[..n], boxes, h);
      RowMembership(boxes, queue[n], h);
      assert queue == queue[..n] + [queue[n]];
    }
  }

  /** No box is reported against its own parent, and every reported object
      has a box that overlaps the registered one. */
  lemma HitsAreGenuine(queue: seq<Entity>, boxes: seq<CollisionBox>)
    ensures forall h :: h in Scan(queue, boxes) ==>
              h.box.parent != h.target && h.target.Box() != null &&
              Intersects(h.box.box, h.target.Box().box) && Intersects(h.target.Box().box, h.box.box)
  {
    forall h | h in Scan(queue, boxes)
      ensures h.box.parent != h.target && h.target.Box() != null
      ensures Intersects(h.box.box, h.target.Box().box) && Intersects(h.target.Box().box, h.box.box)
    {
      ScanMembership(queue, boxes, h);
      IntersectsSymmetric(h.box.box, h.target.Box().box);
    }
  }

  /** An object that was never queued receives no `Collided` call. */
  lemma NeverQueuedNeverHit(queue: seq<Entity>, boxes: seq<CollisionBox>, e: Entity)
    requires e !in queue
    ensures forall h :: h in Scan(queue, boxes) ==> h.target != e
  {
    forall h | h in Scan(queue, boxes)
      ensures h.target != e
    {
      ScanMembership(queue, boxes, h);
    }
  }

  /** A box that is not registered (disposed, say) is never reported. */
  lemma UnregisteredBoxNeverHits(queue: seq<Entity>, boxes: seq<CollisionBox>, b: CollisionBox)
    requires b !in boxes
    ensures forall h :: h in Scan(queue, boxes) ==> h.box != b
  {
    forall h | h in Scan(queue, boxes)
      ensures h.box != b
    {
      ScanMembership(queue, boxes, h);
    }
  }

  // ---------------------------------------------------------------------
  // Trigger-area membership

  /** After one step the object is listed exactly when it overlaps the
      area, every other object keeps its place, and nothing is listed twice. */
  lemma StepSettles(members: seq<Entity>, inside: bool, o: Entity)
    requires NoDuplicates(members)
    ensures NoDuplicates(Step(members, inside, o))
    ensures o in Step(members, inside, o) <==> inside
    ensures forall y :: y != o ==> (y in Step(members, inside, o) <==> y in members)
  {
    if inside && o !in members {
      AppendFresh(members, o);
    } else if !inside && o in members {
      RemoveOneNoDuplicates(members, o);
      forall y | y != o
        ensures y in RemoveOne(members, o) <==> y in members
      {
        RemoveOneKeepsOthers(members, o, y);
      }
    }
  }

  /** Driven by the scan, a membership list never holds an object twice. */
  lemma {:induction false} MembersNoDuplicates(areaRect: Rect, start: seq<Entity>, q: seq<Entity>, rects: seq<Rect>)
    requires |rects| == |q| && NoDuplicates(start)
    ensures NoDuplicates(Members(areaRect, start, q, rects))
  {
    if |q| > 0 {
      var n := |q| - 1;
      MembersNoDuplicates(areaRect, start, q[..n], rects[..n]);
      StepSettles(Members(areaRect, start, q[..n], rects[..n]), Intersects(areaRect, rects[n]), q[n]);
    }
  }

  /** An object that was not queued keeps its membership through a scan. */
  lemma {:induction false} MembersUnqueued(areaRect: Rect, start: seq<Entity>, q: seq<Entity>,
                                           rects: seq<Rect>, o: Entity)
    requires |rects| == |q| && NoDuplicates(start) && o !in q
    ensures o in Members(areaRect, start, q, rects) <==> o in start
  {
    if |q| > 0 {
      var n := |q| - 1;
      var before := Members(areaRect, start, q[..n], rects[..n]);
      assert q[n] in q;
      MembersUnqueued(areaRect, start, q[..n], rects[..n], o);
      MembersNoDuplicates(areaRect, start, q[..n], rects[..n]);
      StepSettles(before, Intersects(areaRect, rects[n]), q[n]);
    }
  }

  /** An object queued last at place `i` is listed after the scan exactly
      when its box there overlapped the area. */
  lemma {:induction false} MembersLastAt(areaRect: Rect, start: seq<Entity>, q: seq<Entity>,
                                         rects: seq<Rect>, i: nat)
    requires |rects| == |q| && NoDuplicates(start)
    requires i < |q| && q[i] !in q[i + 1..]
    ensures q[i] in Members(areaRect, start, q, rects) <==> Intersects(areaRect, rects[i])
  {
    var n := |q| - 1;
    var before := Members(areaRect, start, q[..n], rects[..n]);
    MembersNoDuplicates(areaRect, start, q[..n], rects[..n]);
    StepSettles(before, Intersects(areaRect, rects[n]), q[n]);
    if i < n {
      assert q[n] in q[i + 1..];
      assert q[..n][i + 1..] == q[i + 1..n];
      MembersLastAt(areaRect, start, q[..n], rects[..n], i);
    }
  }

  /** After a scan, an object is listed in an area exactly when the box it
      had at its last place in the queue overlapped the area; an object
      that was not queued keeps its old membership. */
  lemma MembersLastSighting(areaRect: Rect, start: seq<Entity>, q: seq<Entity>, rects: seq<Rect>, o: Entity)
    requires |rects| == |q| && NoDuplicates(start)
    ensures o !in q ==> (o in Members(areaRect, start, q, rects) <==> o in start)
    ensures forall i :: 0 <= i < |q| && q[i] == o && o !in q[i + 1..] ==>
              (o in Members(areaRect, start, q, rects) <==> Intersects(areaRect, rects[i]))
  {
    if o !in q {
      MembersUnqueued(areaRect, start, q, rects, o);
    }
    forall i | 0 <= i < |q| && q[i] == o && o !in q[i + 1..]
      ensures o in Members(areaRect, start, q, rects) <==> Intersects(areaRect, rects[i])
    {
      MembersLastAt(areaRect, start, q, rects, i);
    }
  }

  // ---------------------------------------------------------------------
  // Enter and exit events alternate

  /** One transition played against the membership flag of the pair
      (`a`, `o`): transitions of other pairs pass; an `Entered` needs the
      object outside and an `Exited` needs it inside. `None` once some
      transition has not fitted. */
  function Advance(state: Option<bool>, t: Transition, a: TriggerArea, o: Entity): Option<bool>
  {
    match state
    case None => None
    case Some(inside) =>
      if t.area != a || t.obj != o then state
      else if t.Entered? == !inside then Some(!inside)
      else None
  }

  /** A whole log played against the pair's flag, in order. */
  function Replay(ts: seq<Transition>, a: TriggerArea, o: Entity, start: Option<bool>): Option<bool>
  {
    if |ts| == 0 then start
    else Advance(Replay(ts[..|ts| - 1], a, o, start), ts[|ts| - 1], a, o)
  }

  lemma {:induction false} ReplayAppend(ts: seq<Transition>, us: seq<Transition>, a: TriggerArea, o: Entity,
                                        start: Option<bool>)
    ensures Replay(ts + us, a, o, start) == Replay(us, a, o, Replay(ts, a, o, start))
  {
    if |us| == 0 {
      assert ts + us == ts;
    } else {
      var n := |us| - 1;
      ReplayAppend(ts, us[..n], a, o, start);
      assert (ts + us)[..|ts| + n] == ts + us[..n];
      assert (ts + us)[|ts| + n] == us[n];
    }
  }

  /** One step of one area, played against the pair's flag: a step of
      another area leaves the flag alone; a step of the pair's own area,
      from the old membership, fits and leaves the flag at the new
      membership (unchanged when the step is about another object). */
  lemma ReplayStepEvent(area: TriggerArea, members: seq<Entity>, inside: bool, obj: Entity,
                        a: TriggerArea, o: Entity, start: Option<bool>)
    requires area == a ==> NoDuplicates(members) && start == Some(o in members)
    ensures Replay(StepEvent(area, members, inside, obj), a, o, start) ==
            if area == a then Some(o in Step(members, inside, obj)) else start
  {
    if area == a {
      StepSettles(members, inside, obj);
    }
    var e := StepEvent(area, members, inside, obj);
    if |e| == 1 {
      assert e[..0] == [];
    }
  }

  /** A log followed by one more step of one area, played against the
      pair's flag. */
  lemma ReplayThenStep(prev: seq<Transition>, area: TriggerArea, members: seq<Entity>, inside: bool, obj: Entity,
                       a: TriggerArea, o: Entity, start: Option<bool>)
    requires area == a ==> NoDuplicates(members) && Replay(prev, a, o, start) == Some(o in members)
    ensures Replay(prev + StepEvent(area, members, inside, obj), a, o, start) ==
            if area == a then Some(o in Step(members, inside, obj)) else Replay(prev, a, o, start)
  {
    var event := StepEvent(area, members, inside, obj);
    ReplayAppend(prev, event, a, o, start);
    ReplayStepEvent(area, members, inside, obj, a, o, Replay(prev, a, o, start));
  }

  /** A row of the log played against the flag of area `k` and object `o`:
      only area `k`'s own step can change it, and areas are distinct. */
  lemma {:induction false} ReplayRowLog(areas: seq<TriggerArea>, areaRects: seq<Rect>, current: seq<seq<Entity>>,
                                        obj: Entity, r: Rect, j: nat, k: nat, o: Entity)
    requires |areaRects| == |areas| && |current| == |areas|
    requires NoDuplicates(areas) && j <= |areas| && k < |areas| && NoDuplicates(current[k])
    ensures k < j ==> Replay(RowLog(areas, areaRects, current, obj, r, j), areas[k], o, Some(o in current[k])) ==
                      Some(o in Step(current[k], Intersects(areaRects[k], r), obj))
    ensures j <= k ==> Replay(RowLog(areas, areaRects, current, obj, r, j), areas[k], o, Some(o in current[k])) ==
                       Some(o in current[k])
  {
    if j > 0 {
      ReplayRowLog(areas, areaRects, current, obj, r, j - 1, k, o);
      NoDuplicatesAt(areas, j - 1, k);
      ReplayThenStep(RowLog(areas, areaRects, current, obj, r, j - 1), areas[j - 1], current[j - 1],
                     Intersects(areaRects[j - 1], r), obj, areas[k], o, Some(o in current[k]));
    }
  }

  /** Enter and exit strictly alternate for every (area, object) pair over
      a whole scan: played against the object's old membership, the log
      never has two entries or two exits of the pair in a row, and it ends
      at the object's new membership. */
  lemma {:induction false} LogAlternates(areas: seq<TriggerArea>, areaRects: seq<Rect>, starts: seq<seq<Entity>>,
                                         q: seq<Entity>, rects: seq<Rect>, k: nat, o: Entity)
    requires |areaRects| == |areas| && |starts| == |areas| && |rects| == |q|
    requires NoDuplicates(areas) && k < |areas| && NoDuplicates(starts[k])
    ensures Replay(Log(areas, areaRects, starts, q, rects), areas[k], o, Some(o in starts[k])) ==
            Some(o in Members(areaRects[k], starts[k], q, rects))
  {
    if |q| > 0 {
      var n := |q| - 1;
      var earlier := Log(areas, areaRects, starts, q[..n], rects[..n]);
      var current := MembersAll(areaRects, starts, q[..n], rects[..n]);
      var row := RowLog(areas, areaRects, current, q[n], rects[n], |areas|);
      assert Log(areas, areaRects, starts, q, rects) == earlier + row;
      LogAlternates(areas, areaRects, starts, q[..n], rects[..n], k, o);
      ReplayAppend(earlier, row, areas[k], o, Some(o in starts[k]));
      assert current[k] == Members(areaRects[k], starts[k], q[..n], rects[..n]);
      MembersNoDuplicates(areaRects[k], starts[k], q[..n], rects[..n]);
      ReplayRowLog(areas, areaRects, current, q[n], rects[n], |areas|, k, o);
      assert Members(areaRects[k], starts[k], q, rects) == Step(current[k], Intersects(areaRects[k], rects[n]), q[n]);
    } else {
      assert Log(areas, areaRects, starts, q, rects) == [];
    }
  }

  /** Each transition of one object's row names one of the areas and that object. */
  lemma {:induction false} RowLogNamesAreas(areas: seq<TriggerArea>, areaRects: seq<Rect>, current: seq<seq<Entity>>,
                                            o: Entity, r: Rect, k: nat)
    requires |areaRects| == |areas| && |current| == |areas| && k <= |areas|
    ensures forall t :: t in RowLog(areas, areaRects, current, o, r, k) ==> t.area in areas && t.obj == o
  {
    if k > 0 {
      RowLogNamesAreas(areas, areaRects, current, o, r, k - 1);
    }
  }

  /** Every transition of a scan names a registered area and a queued object:
      nothing else is told that an object entered or left it. */
  lemma {:induction false} LogNamesAreas(areas: seq<TriggerArea>, areaRects: seq<Rect>, starts: seq<seq<Entity>>,
                                         q: seq<Entity>, rects: seq<Rect>)
    requires |areaRects| == |areas| && |starts| == |areas| && |rects| == |q|
    ensures forall t :: t in Log(areas, areaRects, starts, q, rects) ==> t.area in areas && t.obj in q
  {
    if |q| > 0 {
      var n := |q| - 1;
      var earlier := Log(areas, areaRects, starts, q[..n], rects[..n]);
      var row := RowLog(areas, areaRects, MembersAll(areaRects, starts, q[..n], rects[..n]), q[n], rects[n], |areas|);
      assert Log(areas, areaRects, starts, q, rects) == earlier + row;
      LogNamesAreas(areas, areaRects, starts, q[..n], rects[..n]);
      RowLogNamesAreas(areas, areaRects, MembersAll(areaRects, starts, q[..n], rects[..n]), q[n], rects[n], |areas|);
      forall t: Transition | t in earlier + row
        ensures t.area in areas && t.obj in q
      {
        if t in earlier {
          assert t.obj in q[..n];
        }
      }
    }
  }
}
