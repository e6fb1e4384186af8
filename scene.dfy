/**
 * The main scene: the state machine between the title, fish select,
 * playing, paused and end states, and the playing frame that spawns fish,
 * runs both managers, dispatches their callbacks, moves everything and
 * removes what was eaten, burst or has risen off screen.
 *
 * Randomness, frame time and the positions the float movement produces
 * are inputs of a frame. The scene's handlers for `OnMoved`,
 * `OnFishEaten`, `OnBubbleSpawned` and `OnBurst` are methods of the scene;
 * whether a bubble's `OnBurst` still reaches the scene is recorded in the
 * bubble (`burstSubscribed`), and the fish and the player are subscribed
 * for as long as they are in the scene.
 */
module Scenes {
  import opened Geometry
  import opened Text
  import opened Scales
  import opened Events
  import opened Save
  import opened Objects
  import opened Scoring
  import opened BoundsProperties
  import opened Hits
  import Unlocks
  import Menus
  import Localisation

  datatype SceneState = Title | FishSelect | Playing | Paused | End

  /** The moves of the state machine: the title opens the fish select or
      starts playing, the fish select returns to the screen that opened it,
      playing pauses or ends, the pause menu resumes or restarts, and the
      end screen opens the fish select or restarts. */
  predicate Move(from: SceneState, to: SceneState, lastState: SceneState)
  {
    from == to ||
    match from
    case Title => to == FishSelect || to == Playing
    case FishSelect => to == lastState
    case Playing => to == Paused || to == End
    case Paused => to == Playing
    case End => to == FishSelect || to == Playing
  }

  /** One fish's draws and movement for a frame: the bubble draw (0 to 9),
      where the move takes it, and the new bubble's speed (2 to 5) and
      first direction, should it spawn one. */
  datatype FishStep = FishStep(bubbleDraw: int, newPosition: Vector2, bubbleSpeed: int, bubbleRightward: bool)

  /** `SpawnFish`'s draws: the big fish draw (0 to 99), the side, the height
      (0 to 1079), the first bubble delay, and the size of the chosen
      fish's sprite. */
  datatype SpawnDraws = SpawnDraws(bigDraw: int, rightSide: bool, y: int, bubbleDelay: int,
                                   spriteWidth: int, spriteHeight: int)

  /** Everything a frame reads from outside the scene. `pause` is the pause
      binding or the pause button; `menu` is the input the open screen
      reads; `screenEvents` are the events the title screen or the pause
      menu fires while it runs, in order (those two screens only turn
      input into events and are not part of this model); `fishSteps(i)` is for the fish at position `i` of the list;
      `playerWidth` and `playerHeight` are the sprite size of the selected
      fish. */
  datatype FrameInput = FrameInput(
    now: int, elapsed: nat,
    spawn: SpawnDraws, fishSteps: nat -> FishStep, bubbleWidth: int,
    steering: Steering, playerPosition: Vector2, pause: bool,
    menu: Menus.MenuInput, resolutions: seq<string>, screenEvents: seq<string>,
    playerWidth: int, playerHeight: int)

  /** The fish as queued objects. */
  function FishEntities(s: seq<Fish>): (r: seq<Entity>)
    ensures |r| == |s| && forall i :: 0 <= i < |s| ==> r[i] == FishObj(s[i])
  {
    seq(|s|, i requires 0 <= i < |s| => FishObj(s[i]))
  }

  /** Each name fired on the bus at `now`, in order. */
  method FireEach(bus: EventManager, names: seq<string>, now: int)
    modifies bus
    ensures Appended(old(bus.events), bus.events, names, now)
    decreases |names|
  {
    if |names| == 0 {
      assert bus.events[..|bus.events|] == bus.events;
    } else {
      ghost var before := bus.events;
      bus.FireEvent(names[0], now);
      ghost var mid := bus.events;
      FireEach(bus, names[1..], now);
      AppendedThen(before, mid, bus.events, [names[0]], names[1..], now);
      assert [names[0]] + names[1..] == names;
    }
  }

  /** Two polls of the bus, `HasEventFiredThenKill(first)` then
      `HasEventFiredThenKill(second)`: each says whether an event of its
      name was waiting, and neither name is left on the bus. */
  method PollTwo(bus: EventManager, first: string, second: string) returns (a: bool, b: bool)
    requires first != second
    modifies bus
    ensures a <==> Pending(old(bus.events), first)
    ensures b <==> Pending(old(bus.events), second)
    ensures !Pending(bus.events, first) && !Pending(bus.events, second)
  {
    ghost var before := bus.events;
    a := bus.HasEventFiredThenKill(first);
    PendingAfterKill(before, first, second);
    b := bus.HasEventFiredThenKill(second);
  }

  /** A screen that fires `names` in turn, then the two polls. */
  method FireAndPollTwo(bus: EventManager, names: seq<string>, now: int, first: string, second: string)
    returns (a: bool, b: bool)
    requires first != second
    modifies bus
    ensures a <==> Raised(old(bus.events), names, first)
    ensures b <==> Raised(old(bus.events), names, second)
    ensures !Pending(bus.events, first) && !Pending(bus.events, second)
  {
    FireEach(bus, names, now);
    PendingAppended(old(bus.events), bus.events, names, now, first);
    PendingAppended(old(bus.events), bus.events, names, now, second);
    a, b := PollTwo(bus, first, second);
  }

  /** `fishSelect.Update()`, then the poll for `CloseFishSelect`. */
  method SelectAndPoll(fs: Menus.FishSelect, menu: Menus.MenuInput, now: int) returns (closed: bool)
    requires fs.Valid()
    modifies fs`currentFish, fs.save.notifications, fs.save`currentFish, fs.bus
    ensures fs.Valid()
    ensures fs.save.currentFish == old(fs.save.currentFish) || fs.save.currentFish == fs.currentFish
    ensures closed <==> Pending(old(fs.bus.events), CloseFishSelect) || Menus.ClosesFishSelect(menu)
    ensures !Pending(fs.bus.events, CloseFishSelect)
  {
    fs.Update(menu, now);
    PendingAppended(old(fs.bus.events), fs.bus.events, if Menus.ClosesFishSelect(menu) then [CloseFishSelect] else [],
                    now, CloseFishSelect);
    closed := fs.bus.HasEventFiredThenKill(CloseFishSelect);
  }

  /** `endScreen.Update()`, then the polls for `OpenFishSelect` and
      `Restart`. */
  method EndScreenAndPoll(es: Menus.EndScreen, menu: Menus.MenuInput, resolutions: seq<string>, now: int)
    returns (selected: seq<Menus.ButtonKind>, selecting: bool, restarting: bool)
    requires es.Valid() && |resolutions| > 0
    modifies es, es.optionsMenu, es.save`musicVolume, es.save`soundVolume,
             es.optionsMenu.graphics`resolution, es.optionsMenu.graphics`screenSize, es.bus
    ensures es.Valid()
    ensures !old(es.showingOptions) ==>
              (selecting <==> Raised(old(es.bus.events), Menus.EventsOf(selected), OpenFishSelect)) &&
              (restarting <==> Raised(old(es.bus.events), Menus.EventsOf(selected), Events.Restart))
    ensures !Pending(es.bus.events, OpenFishSelect) && !Pending(es.bus.events, Events.Restart)
  {
    selected := es.Update(menu, resolutions, now);
    if !old(es.showingOptions) {
      PendingAppended(old(es.bus.events), es.bus.events, Menus.EventsOf(selected), now, OpenFishSelect);
      PendingAppended(old(es.bus.events), es.bus.events, Menus.EventsOf(selected), now, Events.Restart);
    }
    selecting, restarting := PollTwo(es.bus, OpenFishSelect, Events.Restart);
  }

  /** The names of `k` game overs. */
  function GameOvers(k: nat): (r: seq<string>)
    ensures |r| == k && forall i :: 0 <= i < k ==> r[i] == GameOver
  {
    seq(k, _ => GameOver)
  }

  /** Some game over is fired exactly when there is at least one. */
  lemma GameOversFired(k: nat)
    ensures GameOver in GameOvers(k) <==> k > 0
  {
    if k > 0 {
      assert GameOvers(k)[0] == GameOver;
    }
  }

  lemma GameOversCons(k: nat)
    ensures [GameOver] + GameOvers(k) == GameOvers(k + 1)
  {
    assert forall i :: 0 <= i < k + 1 ==> ([GameOver] + GameOvers(k))[i] == GameOver;
  }

  /** A hit's `GameOver`, if any, then those of the hits after it. */
  lemma AppendedGameOvers(a: seq<GameEvent>, b: seq<GameEvent>, c: seq<GameEvent>, over: bool, k: nat, now: int)
    requires Appended(a, b, if over then [GameOver] else [], now) && Appended(b, c, GameOvers(k), now)
    ensures Appended(a, c, GameOvers(k + if over then 1 else 0), now)
  {
    AppendedThen(a, b, c, if over then [GameOver] else [], GameOvers(k), now);
    if over {
      GameOversCons(k);
    } else {
      assert [] + GameOvers(k) == GameOvers(k);
    }
  }

  /** An event of that name is waiting on the bus. */
  ghost predicate Pending(events: seq<GameEvent>, name: string)
  {
    exists e :: e in events && e.name == name
  }


  /** An event of that name is waiting on the bus once `names` are fired. */
  ghost predicate Raised(events: seq<GameEvent>, names: seq<string>, name: string)
  {
    Pending(events, name) || name in names
  }

  /** Polling one name leaves the events of every other name pending. */
  lemma PendingAfterKill(s: seq<GameEvent>, killed: string, name: string)
    requires killed != name
    ensures Pending(Reject(s, NameIs(killed)), name) <==> Pending(s, name)
  {
    if Pending(s, name) {
      var e :| e in s && e.name == name;
      RejectMembership(s, NameIs(killed), e);
    }
  }

  /** After events are appended, a name is pending when it was before or
      is among the new ones. */
  lemma PendingAppended(before: seq<GameEvent>, after: seq<GameEvent>, names: seq<string>, now: int, name: string)
    requires Appended(before, after, names, now)
    ensures Pending(after, name) <==> Pending(before, name) || name in names
  {
    if Pending(after, name) {
      var e :| e in after && e.name == name;
      var i :| 0 <= i < |after| && after[i] == e;
      if i < |before| {
        assert after[..|before|][i] == e;
      } else {
        assert names[i - |before|] == name;
      }
    }
    if Pending(before, name) {
      var e :| e in before && e.name == name;
      assert e in after[..|before|];
    }
    if name in names {
      var i :| 0 <= i < |names| && names[i] == name;
      assert after[|before| + i] in after;
    }
  }

  // ---------------------------------------------------------------------
  // Area events that burst a bubble

  /** The player entering an area whose bubble is still attached and
      subscribed to `OnBurst`: `OnTriggerAreaEntered` raises the burst. */
  ghost predicate Bursting(t: Transition)
    reads t.area`enteredHandler, (if t.area.enteredHandler == null then {} else {t.area.enteredHandler})`burstSubscribed
  {
    t.Entered? && t.obj.PlayerObj? && t.area.enteredHandler != null && t.area.enteredHandler.burstSubscribed
  }

  /** The areas a log names, and the bubbles attached to them. */
  function LogAreas(log: seq<Transition>): set<TriggerArea>
  {
    set t | t in log :: t.area
  }

  ghost function LogHandlers(log: seq<Transition>): set<Bubble>
    reads LogAreas(log)`enteredHandler
  {
    set t | t in log && t.area.enteredHandler != null :: t.area.enteredHandler
  }

  /** How many events of a log burst a bubble. */
  ghost function BurstCount(log: seq<Transition>): (r: nat)
    reads LogAreas(log)`enteredHandler, LogHandlers(log)`burstSubscribed
    ensures r <= |log|
    decreases |log|
  {
    if log == [] then 0
    else
      assert log[0] in log && forall t :: t in log[1..] ==> t in log;
      (if Bursting(log[0]) then 1 else 0) + BurstCount(log[1..])
  }

  /** How many events of a log are the player entering an area. */
  function PlayerEntries(log: seq<Transition>): (r: nat)
    ensures r <= |log|
  {
    if log == [] then 0
    else (if log[0].Entered? && log[0].obj.PlayerObj? then 1 else 0) + PlayerEntries(log[1..])
  }

  /** Only the player's entries burst a bubble: a log without one bursts
      none. */
  lemma {:induction false} FishEntriesBurstNothing(log: seq<Transition>)
    requires PlayerEntries(log) == 0
    ensures BurstCount(log) == 0
    decreases |log|
  {
    if log != [] {
      FishEntriesBurstNothing(log[1..]);
    }
  }

  /** Every entry of the player into an area whose bubble is attached and
      subscribed bursts it, and nothing else does. */
  lemma {:induction false} BurstsArePlayerEntries(log: seq<Transition>)
    requires forall t :: t in log ==> t.area.enteredHandler != null && t.area.enteredHandler.burstSubscribed
    ensures BurstCount(log) == PlayerEntries(log)
    decreases |log|
  {
    if log != [] {
      BurstsArePlayerEntries(log[1..]);
    }
  }

  // ---------------------------------------------------------------------
  // Removing from a list

  /** `List<T>.Remove` once for each element of `d`, in order. */
  function RemoveAll<T(==)>(s: seq<T>, d: seq<T>): seq<T>
    decreases |d|
  {
    if |d| == 0 then s else RemoveAll(RemoveOne(s, d[0]), d[1..])
  }

  /** The first `n` elements of `d` removed from `s` one at a time from
      the front, as a loop over `d` removes them. */
  function RemovePrefix<T(==)>(s: seq<T>, d: seq<T>, n: nat): seq<T>
    requires n <= |d|
    decreases n
  {
    if n == 0 then s else RemoveOne(RemovePrefix(s, d, n - 1), d[n - 1])
  }

  /** Removing the first `n` elements one at a time starts by removing the
      first one. */
  lemma {:induction false} RemovePrefixShift<T>(s: seq<T>, d: seq<T>, n: nat)
    requires 1 <= n <= |d|
    ensures RemovePrefix(s, d, n) == RemovePrefix(RemoveOne(s, d[0]), d[1..], n - 1)
    decreases n
  {
    if n > 1 {
      RemovePrefixShift(s, d, n - 1);
      assert d[1..][n - 2] == d[n - 1];
    }
  }

  /** Removing every element of `d` one at a time is removing all of `d`. */
  lemma {:induction false} RemovePrefixAll<T>(s: seq<T>, d: seq<T>)
    ensures RemovePrefix(s, d, |d|) == RemoveAll(s, d)
    decreases |d|
  {
    if |d| > 0 {
      var rest := RemoveOne(s, d[0]);
      RemovePrefixShift(s, d, |d|);
      RemovePrefixAll(rest, d[1..]);
      assert RemovePrefix(s, d, |d|) == RemovePrefix(rest, d[1..], |d[1..]|);
    }
  }

  /** Each removal takes away one occurrence: what is left is the list
      less the removal list, counting repeats. */
  lemma {:induction false} RemoveAllCounts<T>(s: seq<T>, d: seq<T>)
    ensures multiset(RemoveAll(s, d)) == multiset(s) - multiset(d)
    decreases |d|
  {
    if |d| > 0 {
      var x, t := d[0], d[1..];
      RemoveAllCounts(RemoveOne(s, x), t);
      RemoveOneCounts(s, x);
      assert multiset(d) == multiset{x} + multiset(t) by {
        assert d == [x] + t;
      }
      MinusTwice(multiset(s), multiset{x}, multiset(t));
    }
  }

  lemma MinusTwice<T>(a: multiset<T>, b: multiset<T>, c: multiset<T>)
    ensures a - b - c == a - (b + c)
  {
    assert forall y :: (a - b - c)[y] == (a - (b + c))[y];
  }

  /** In a list without duplicates, removing each element of `d` leaves
      exactly the elements not in `d`, still without duplicates. */
  lemma {:induction false} RemoveAllKeepsOthers<T>(s: seq<T>, d: seq<T>)
    requires NoDuplicates(s)
    ensures NoDuplicates(RemoveAll(s, d))
    ensures forall x :: x in RemoveAll(s, d) <==> x in s && x !in d
    decreases |d|
  {
    if |d| > 0 {
      var y, t := d[0], d[1..];
      var r := RemoveOne(s, y);
      RemoveOneNoDuplicates(s, y);
      RemoveAllKeepsOthers(r, t);
      assert RemoveAll(s, d) == RemoveAll(r, t);
      forall x
        ensures x in RemoveAll(r, t) <==> x in s && x !in d
      {
        assert x in d <==> x == y || x in t by {
          assert d == [y] + t;
        }
        if x != y {
          RemoveOneKeepsOthers(s, y, x);
        }
      }
    }
  }

  /** Removing from a list without duplicates leaves a shorter list of
      its own elements, still without duplicates. */
  lemma RemoveAllShrinks<T>(s: seq<T>, d: seq<T>)
    requires NoDuplicates(s)
    ensures NoDuplicates(RemoveAll(s, d)) && |RemoveAll(s, d)| <= |s|
    ensures forall x :: x in RemoveAll(s, d) ==> x in s
  {
    RemoveAllLength(s, d);
    RemoveAllKeepsOthers(s, d);
    forall x | x in RemoveAll(s, d)
      ensures x in s
    {
      RemoveAllKept(s, d, x);
    }
  }

  lemma RemoveAllKept<T>(s: seq<T>, d: seq<T>, x: T)
    requires NoDuplicates(s) && x in RemoveAll(s, d)
    ensures x in s
  {
    RemoveAllKeepsOthers(s, d);
  }

  lemma {:induction false} RemoveAllLength<T>(s: seq<T>, d: seq<T>)
    ensures |RemoveAll(s, d)| <= |s|
    decreases |d|
  {
    if |d| > 0 {
      RemoveAllLength(RemoveOne(s, d[0]), d[1..]);
    }
  }

  /** The boxes of the fish, in order. */
  function FishBoxes(s: seq<Fish>): (r: seq<CollisionBox>)
    requires forall i :: 0 <= i < |s| ==> s[i].collisionBox != null
    reads s`collisionBox
    ensures |r| == |s| && forall i :: 0 <= i < |s| ==> r[i] == s[i].collisionBox
  {
    if |s| == 0 then [] else [s[0].collisionBox] + FishBoxes(s[1..])
  }

  /** The eaten fish of a list, in order: the kill list of `UpdateFish`. */
  function EatenAmong(s: seq<Fish>): (r: seq<Fish>)
    reads s`eaten
    ensures |r| <= |s|
    ensures forall i :: 0 <= i < |r| ==> r[i] in s && r[i].eaten
    ensures forall i :: 0 <= i < |s| && s[i].eaten ==> s[i] in r
  {
    if |s| == 0 then []
    else
      assert s == [s[0]] + s[1..];
      (if s[0].eaten then [s[0]] else []) + EatenAmong(s[1..])
  }

  /** The kill list only depends on the eaten flags. */
  twostate lemma {:induction false} EatenKept(s: seq<Fish>)
    requires forall j :: 0 <= j < |s| ==> s[j].eaten == old(s[j].eaten)
    ensures EatenAmong(s) == old(EatenAmong(s))
    decreases |s|
  {
    if |s| > 0 {
      EatenKept(s[1..]);
    }
  }

  lemma RemoveAllMember<T>(s: seq<T>, d: seq<T>, x: T)
    requires NoDuplicates(s)
    ensures x in RemoveAll(s, d) <==> x in s && x !in d
  {
    RemoveAllKeepsOthers(s, d);
  }

  /** Removing the kill list leaves exactly the fish that were not eaten. */
  lemma Survivors(s: seq<Fish>, eaten: seq<Fish>)
    requires NoDuplicates(s) && eaten == EatenAmong(s)
    ensures forall f :: f in RemoveAll(s, eaten) <==> f in s && !f.eaten
  {
    forall f
      ensures f in RemoveAll(s, eaten) <==> f in s && !f.eaten
    {
      RemoveAllMember(s, eaten, f);
      if f in s && f.eaten {
        var j :| 0 <= j < |s| && s[j] == f;
        assert f in eaten;
      }
    }
  }

  /** The eaten fish from `i` on are fish `i` if eaten, then the rest. */
  lemma EatenFrom(s: seq<Fish>, i: nat)
    requires i < |s|
    ensures EatenAmong(s[i..]) == (if s[i].eaten then [s[i]] else []) + EatenAmong(s[i + 1..])
  {
    assert s[i..][1..] == s[i + 1..];
  }

  /** Queueing the fish from `i` on is queueing fish `i`, then the rest. */
  lemma QueuedOneMore(q: seq<Entity>, s: seq<Fish>, i: nat)
    requires i < |s|
    ensures q + FishEntities(s[i..]) == (q + [FishObj(s[i])]) + FishEntities(s[i + 1..])
  {
    var a, b := q + FishEntities(s[i..]), (q + [FishObj(s[i])]) + FishEntities(s[i + 1..]);
    forall k | 0 <= k < |a|
      ensures a[k] == b[k]
    {
      if k > |q| {
        assert s[i..][k - |q|] == s[i + 1..][k - |q| - 1];
      }
    }
  }

  /** The removal test of `UpdateBubbles`, read before the bubble rises:
      once it has risen by its speed it is at or above the top, or it has
      been burst. */
  predicate LeavesAfterRise(b: Bubble)
    reads b`position, b`burst
  {
    b.position.y - b.speed as real <= 0.0 || b.burst
  }

  /** The bubbles that leave this frame, in order: the removal list of
      `UpdateBubbles`. */
  function Leaving(s: seq<Bubble>): (r: seq<Bubble>)
    reads s`position, s`burst
    ensures |r| <= |s|
    ensures forall i :: 0 <= i < |r| ==> r[i] in s && LeavesAfterRise(r[i])
    ensures forall i :: 0 <= i < |s| && LeavesAfterRise(s[i]) ==> s[i] in r
  {
    if |s| == 0 then []
    else
      assert s == [s[0]] + s[1..];
      (if LeavesAfterRise(s[0]) then [s[0]] else []) + Leaving(s[1..])
  }

  /** The removal list only depends on the bubbles' positions and burst flags. */
  twostate lemma {:induction false} LeavingKept(s: seq<Bubble>)
    requires forall j :: 0 <= j < |s| ==> s[j].position == old(s[j].position) && s[j].burst == old(s[j].burst)
    ensures Leaving(s) == old(Leaving(s))
    decreases |s|
  {
    if |s| > 0 {
      LeavingKept(s[1..]);
    }
  }

  /** An element of a list without duplicates is not among those after it. */
  lemma NotLater<T>(s: seq<T>, i: nat)
    requires NoDuplicates(s) && i < |s|
    ensures s[i] !in s[i + 1..]
  {
    forall j | i + 1 <= j < |s|
      ensures s[j] != s[i]
    {
      NoDuplicatesAt(s, i, j);
    }
  }

  /** The bubbles' areas, in order. */
  function BubbleAreas(s: seq<Bubble>): (r: seq<TriggerArea>)
    ensures |r| == |s| && forall i :: 0 <= i < |s| ==> r[i] == s[i].triggerArea
  {
    seq(|s|, i requires 0 <= i < |s| => s[i].triggerArea)
  }

  class MainScene {
    var state: SceneState
    var lastState: SceneState
    var currentScale: int
    var bubblesBurst: int
    /** The double points timer, in milliseconds. */
    var doublePoints: int
    var points: int
    var fishToNextScale: int
    /** `bigFishCount`, in quarters. */
    var bigFishQuarters: int
    var fish: seq<Fish>
    var bubbles: seq<Bubble>
    /** The platform's `ShowAd` calls. */
    var adsShown: nat
    const player: Player
    const collisions: CollisionManager
    const areas: TriggerAreaManager
    const bus: EventManager
    const save: GameSaveData
    const fishSelect: Menus.FishSelect
    const endScreen: Menus.EndScreen
    /** Every bubble the scene has made: an area that is still registered
        may still call one that has left the list. */
    ghost var Made: set<Bubble>
    /** Every fish the scene has spawned: a box that is still registered
        may belong to one that has left the list. */
    ghost var Spawned: set<Fish>

    function CurrentScore(): Score
      reads this`currentScale, this`fishToNextScale, this`points
    {
      Score(currentScale, fishToNextScale, points)
    }

    function CurrentBursts(): Bursts
      reads this`bubblesBurst, this`doublePoints
    {
      Bursts(bubblesBurst, doublePoints)
    }

    /** The play as the player's collision handler sees it. */
    ghost function PlayNow(): Play
      reads this`currentScale, this`fishToNextScale, this`points, player`size, player`fishEaten,
            this`Spawned, Spawned`size, save`fishEaten, Spawned`eaten, player`eaten
    {
      Play(CurrentScore(), player.size, SizesNow(), player.fishEaten, save.fishEaten, EatenNow(), player.eaten)
    }

    /** The spawned fish whose eaten flag is set. */
    ghost function EatenNow(): set<Fish>
      reads this`Spawned, Spawned`eaten
    {
      set f | f in Spawned && f.eaten
    }

    /** The size of every spawned fish. */
    ghost function SizesNow(): map<Fish, int>
      reads this`Spawned, Spawned`size
    {
      map f | f in Spawned :: f.size
    }

    // -------------------------------------------------------------------
    // The invariant, in parts that each read only what they need

    /** The screens share the save data and the bus, and are valid; the
        fish select returns to the title or the end screen. */
    ghost predicate ScreensKept()
      reads this`lastState, fishSelect`currentFish, fishSelect`unlockConditions,
            endScreen`currentOption, endScreen.optionsMenu`currentOption, save`currentFish
    {
      fishSelect.save == save && fishSelect.bus == bus && endScreen.save == save && endScreen.bus == bus &&
      save.Valid() && fishSelect.Valid() && endScreen.Valid() &&
      0 <= save.currentFish < UnlockableFish && (lastState == Title || lastState == End)
    }

    /** The object is the scene's player or a fish the scene spawned. */
    ghost predicate Ours(e: Entity)
      reads this`Spawned
    {
      e.Fishes() <= Spawned && e.Players() <= {player}
    }

    /** Every registered box is registered once and belongs to the player
        or to a fish the scene spawned; the player has a box. */
    ghost predicate BoxesKept()
      reads this`Spawned, collisions`boxes, player`collisionBox
    {
      NoDuplicates(collisions.boxes) &&
      (forall b :: b in collisions.boxes ==> Ours(b.parent)) &&
      player.collisionBox != null
    }

    /** Every fish the scene spawned owns a box for good. */
    ghost predicate SpawnedKept()
      reads this`Spawned, Spawned`collisionBox
    {
      forall f :: f in Spawned ==> f.collisionBox != null
    }

    /** The live fish are listed once each, and were spawned by the scene. */
    ghost predicate FishKept()
      reads this`Spawned, this`fish
    {
      NoDuplicates(fish) && forall f :: f in fish ==> f in Spawned
    }

    /** Only the scene's objects are queued. */
    ghost predicate QueuesKept()
      reads this`Spawned, collisions`queue, areas`queue
    {
      (forall e :: e in collisions.queue ==> Ours(e)) &&
      (forall e :: e in areas.queue ==> Ours(e))
    }

    /** The area manager is valid, and every handler it can call is a
        bubble of the scene. */
    ghost predicate AreasKept()
      reads this`Made, areas`areas, areas.areas`objectsInArea, areas.areas`enteredHandler
    {
      areas.Valid() &&
      forall a :: a in areas.areas && a.enteredHandler != null ==> a.enteredHandler in Made
    }

    /** Every live bubble is subscribed to its own registered area and to `OnBurst`. */
    ghost predicate BubblesKept()
      reads this`Made, this`bubbles, bubbles`position, bubbles`direction, bubbles`burstSubscribed,
            areas`areas, areas.areas`enteredHandler
    {
      NoDuplicates(bubbles) &&
      (forall b :: b in bubbles ==>
         b in Made && b.Valid() && b.burstSubscribed &&
         b.triggerArea in areas.areas && b.triggerArea.enteredHandler == b)
    }

    /** The counters stay in range: a valid score, fewer than ten bursts
        counted, fewer than six big fish counted, at most `maxFish` fish. */
    ghost predicate CountersKept()
      reads this`currentScale, this`fishToNextScale, this`points, this`bubblesBurst,
            this`bigFishQuarters, this`fish
    {
      ScoreValid(CurrentScore()) && 0 <= bubblesBurst < BurstsForDoublePoints &&
      0 <= bigFishQuarters < BigFishLimitQuarters + 4 && |fish| <= MaxFish
    }

    /** What bursting needs: the count in range, and every attached
        bubble one the scene made. */
    ghost predicate BurstReady()
      reads this`bubblesBurst, this`Made, areas`areas, areas.areas`enteredHandler
    {
      0 <= bubblesBurst < BurstsForDoublePoints &&
      forall a :: a in areas.areas && a.enteredHandler != null ==> a.enteredHandler in Made
    }

    /** What eating needs: a valid score and fish listed once each. */
    ghost predicate EatingReady()
      reads this`currentScale, this`fishToNextScale, this`points, this`fish, this`Spawned
    {
      ScoreValid(CurrentScore()) && FishKept()
    }

    /** What adding and moving bubbles needs. */
    ghost predicate BubblesReady()
      reads this`Made, this`bubbles, bubbles`position, bubbles`direction, bubbles`burstSubscribed,
            areas`areas, areas.areas`objectsInArea, areas.areas`enteredHandler
    {
      AreasKept() && BubblesKept()
    }

    /** Every live fish has its box. */
    ghost predicate FishBoxed()
      reads this`fish, fish`collisionBox
    {
      forall j :: 0 <= j < |fish| ==> fish[j].collisionBox != null
    }

    ghost predicate Valid()
      reads this`Made, this`Spawned, this`fish, this`bubbles, this`lastState,
            this`currentScale, this`fishToNextScale, this`points, this`bubblesBurst, this`bigFishQuarters,
            fishSelect`currentFish, fishSelect`unlockConditions,
            endScreen`currentOption, endScreen.optionsMenu`currentOption, save`currentFish,
            collisions`boxes, collisions`queue, player`collisionBox, Spawned`collisionBox,
            areas`queue, areas`areas, areas.areas`objectsInArea, areas.areas`enteredHandler,
            bubbles`position, bubbles`direction, bubbles`burstSubscribed
    {
      ScreensKept() && BoxesKept() && SpawnedKept() && FishKept() && QueuesKept() &&
      AreasKept() && BubblesKept() && CountersKept()
    }

    // -------------------------------------------------------------------
    // Construction

    /** The scene on the title screen, at scale 1, with the player's box
        registered. The save data, the bus, the strings and the graphics
        settings belong to the game and are shared. */
    constructor (isPC: bool, save: GameSaveData, bus: EventManager, library: Localisation.StringLibrary,
                 graphics: GraphicsSettings, playerWidth: int, playerHeight: int)
      requires save.Valid() && 0 <= save.currentFish < UnlockableFish
      ensures Valid()
      ensures state == Title && lastState == Title
      ensures CurrentScore() == StartScore() && CurrentBursts() == Bursts(0, 0) && bigFishQuarters == 0
      ensures fish == [] && bubbles == [] && adsShown == 0
      ensures this.save == save && this.bus == bus
      ensures fresh(player) && fresh(collisions) && fresh(areas) && fresh(fishSelect) && fresh(endScreen)
      ensures collisions.boxes == [player.collisionBox] && collisions.queue == []
      ensures areas.areas == [] && areas.queue == []
    {
      var c := new CollisionManager();
      var t := new TriggerAreaManager();
      var fs := new Menus.FishSelect(save, library, bus);
      var es := new Menus.EndScreen(isPC, save, graphics, library, bus);
      var p := new Player(save, playerWidth, playerHeight, c);
      collisions := c;
      areas := t;
      fishSelect := fs;
      endScreen := es;
      player := p;
      this.save := save;
      this.bus := bus;
      state := Title;
      lastState := Title;
      bubbles := [];
      currentScale := 1;
      fishToNextScale := GetFishToEat(1);
      fish := [];
      bubblesBurst := 0;
      doublePoints := 0;
      points := 0;
      bigFishQuarters := 0;
      adsShown := 0;
      Made := {};
      Spawned := {};
      new;
      InitiallyValid();
    }

    /** The invariant holds of a scene that has just been made. */
    lemma InitiallyValid()
      requires fish == [] && bubbles == [] && Made == {} && Spawned == {} && lastState == Title
      requires collisions.boxes == [player.collisionBox] && collisions.queue == []
      requires areas.areas == [] && areas.queue == []
      requires player.collisionBox != null && player.collisionBox.parent == PlayerObj(player)
      requires fishSelect.save == save && fishSelect.bus == bus && endScreen.save == save && endScreen.bus == bus
      requires save.Valid() && fishSelect.Valid() && endScreen.Valid() && 0 <= save.currentFish < UnlockableFish
      requires currentScale == 1 && fishToNextScale == GetFishToEat(1) && points == 0
      requires bubblesBurst == 0 && bigFishQuarters == 0
      ensures Valid()
    {
    }

    // -------------------------------------------------------------------
    // Handlers

    /** `Fish_OnMoved`: the object joins both queues. */
    method FishOnMoved(e: Entity)
      modifies collisions`queue, areas`queue
      ensures collisions.queue == old(collisions.queue) + [e] && areas.queue == old(areas.queue) + [e]
    {
      collisions.AddObjectToQueue(e);
      areas.AddObjectToQueue(e);
    }

    /** `Bubble_OnBurst`. */
    method BubbleOnBurst()
      requires 0 <= bubblesBurst < BurstsForDoublePoints
      modifies this`bubblesBurst, this`doublePoints
      ensures 0 <= bubblesBurst < BurstsForDoublePoints
      ensures CurrentBursts() == AfterBurst(old(CurrentBursts()))
    {
      var count, timer := bubblesBurst, doublePoints;
      if timer > 0 {
        timer := timer + DoublePointsExtensionMs;
      }
      if timer <= 0 {
        count := count + 1;
        if count >= BurstsForDoublePoints {
          count := 0;
          timer := DoublePointsMs;
        }
      }
      bubblesBurst, doublePoints := count, timer;
    }

    /** `Rescale`: the player shows the new tier and every fish shrinks. */
    method Rescale()
      requires EatingReady()
      modifies player`size, Spawned`size
      ensures player.size == Tier(currentScale)
      ensures SizesNow() == RescaledSizes(old(SizesNow()), currentScale, fish)
    {
      player.ShowScaleVfx(CsRem(currentScale, 7));
      for i := 0 to |fish|
        invariant player.size == Tier(currentScale)
        invariant forall j :: 0 <= j < i ==> fish[j].size == RescaledSize(old(fish[j].size), CsRem(currentScale, 7))
        invariant forall j :: i <= j < |fish| ==> fish[j].size == old(fish[j].size)
        invariant forall f :: f in Spawned && f !in fish ==> f.size == old(f.size)
      {
        fish[i].Rescale(CsRem(currentScale, 7));
        forall j | 0 <= j < |fish| && j != i
          ensures fish[j] != fish[i]
        {
          NoDuplicatesAt(fish, i, j);
        }
      }
      forall f | f in Spawned && f in fish
        ensures f.size == RescaledSize(old(f.size), CsRem(currentScale, 7))
      {
        var i :| 0 <= i < |fish| && fish[i] == f;
      }
    }

    /** The scale goes up one: everything is rescaled and the count of fish
        to the next scale starts again, with `scored` points. */
    method ScaleUp(scored: int)
      requires EatingReady() && scored >= points
      modifies this`fishToNextScale, this`points, this`currentScale, player`size, Spawned`size
      ensures EatingReady()
      ensures CurrentScore() == Score(old(currentScale) + 1, GetFishToEat(old(currentScale) + 1), scored)
      ensures player.size == Tier(currentScale)
      ensures SizesNow() == RescaledSizes(old(SizesNow()), currentScale, fish)
    {
      currentScale, fishToNextScale, points := currentScale + 1, 1, scored;
      Rescale();
      fishToNextScale := GetFishToEat(currentScale);
    }

    /** `Player_OnFishEaten`: the score moves on by one fish; when the scale
        goes up, everything is rescaled and the count starts again. */
    method PlayerOnFishEaten()
      requires EatingReady()
      modifies this`fishToNextScale, this`points, this`currentScale, player`size, Spawned`size
      ensures EatingReady()
      ensures CurrentScore() == AfterEating(old(CurrentScore()), doublePoints > 0)
      ensures player.size == if currentScale != old(currentScale) then Tier(currentScale) else old(player.size)
      ensures SizesNow() == if currentScale != old(currentScale) then RescaledSizes(old(SizesNow()), currentScale, fish)
                            else old(SizesNow())
    {
      var toNext := fishToNextScale - 1;
      var scored := points + PointsPerFish;
      if doublePoints > 0 {
        scored := scored + DoublePointsBonus;
      }
      if toNext <= 0 {
        ScaleUp(scored);
      } else {
        fishToNextScale, points := toNext, scored;
      }
    }

    /** `Fish_OnBubbleSpawned`: a new bubble at `position`, subscribed to
        `OnBurst`, joins the list. `directionDraw` is the bubble's own draw
        of its first direction. */
    method FishOnBubbleSpawned(position: Vector2, speed: int, directionDraw: int, spriteWidth: int)
      requires BubblesReady() && (directionDraw == 0 || directionDraw == 1)
      modifies this`bubbles, this`Made, areas`areas
      ensures BubblesReady()
      ensures |bubbles| == |old(bubbles)| + 1 && bubbles[..|old(bubbles)|] == old(bubbles)
      ensures fresh(bubbles[|old(bubbles)|]) && fresh(bubbles[|old(bubbles)|].triggerArea)
      ensures bubbles[|old(bubbles)|].position == position && bubbles[|old(bubbles)|].speed == speed
      ensures bubbles[|old(bubbles)|].burstSubscribed
    {
      var b := new Bubble(position, speed, directionDraw, spriteWidth, areas);
      b.burstSubscribed := true;
      bubbles := bubbles + [b];
      Made := Made + {b};
      AppendFresh(old(areas.areas), b.triggerArea);
      AppendFresh(old(bubbles), b);
    }

    // -------------------------------------------------------------------
    // The managers and their callbacks

    /** `o` is the player or one of the fish in `spawned`. */
    ghost predicate Owned(o: Entity, spawned: set<Fish>)
    {
      o.Fishes() <= spawned && o.Players() <= {player}
    }

    /** What a hit may touch: a box of the registry `boxes` and an object,
        both owned by the player or one of the fish in `spawned`. */
    ghost predicate HitWired(h: Hit, boxes: seq<CollisionBox>, spawned: set<Fish>)
    {
      h.box in boxes && Owned(h.target, spawned) && Owned(h.box.parent, spawned)
    }

    /** The player's `Collided` handler, then `OnFishEaten` when it ate:
        the play moves on by the hit, and `over` when the box's owner was
        strictly bigger and the game ended. */
    method PlayerHit(box: CollisionBox, now: int) returns (ghost over: bool)
      requires EatingReady() && Owned(box.parent, Spawned)
      modifies player`fishEaten, player`eaten, Spawned`eaten, save`fishEaten, bus,
               this`fishToNextScale, this`points, this`currentScale, player`size, Spawned`size
      ensures EatingReady()
      ensures over <==> Death(old(PlayNow()), Hit(box, PlayerObj(player)))
      ensures PlayNow() == AfterHit(old(PlayNow()), Hit(box, PlayerObj(player)), doublePoints > 0, fish)
      ensures !over ==> box.parent.Eaten() && bus.events == old(bus.events)
      ensures over ==> Appended(old(bus.events), bus.events, [GameOver], now)
    {
      var ate := PlayerCollided(box, now);
      if ate {
        PlayerOnFishEaten();
      }
      over := !ate;
    }

    /** The player's `Collided` handler alone: a meal counts the fish and
        marks the box's owner eaten, a game over adds the session's count
        to the saved total and fires `GameOver`. */
    method PlayerCollided(box: CollisionBox, now: int) returns (ate: bool)
      requires EatingReady() && Owned(box.parent, Spawned)
      modifies player`fishEaten, player`eaten, Spawned`eaten, save`fishEaten, bus
      ensures ate <==> Meal(old(PlayNow()), Hit(box, PlayerObj(player)))
      ensures ate ==> PlayNow() == Mark(old(PlayNow()).(eaten := old(player.fishEaten) + 1), box.parent)
                      && bus.events == old(bus.events)
      ensures !ate ==> PlayNow() == old(PlayNow()).(saved := old(save.fishEaten) + old(player.fishEaten))
                       && Appended(old(bus.events), bus.events, [GameOver], now)
    {
      assert box.parent.Size() == OwnerSize(PlayNow(), box.parent);
      ghost var eaten0 := EatenNow();
      ate := player.Collided(box, save, bus, now);
      if ate && box.parent.FishObj? {
        assert EatenNow() == eaten0 + {box.parent.fish};
      }
    }

    /** A spawned fish's `Collided` handler: the box's owner is marked
        eaten exactly when it is strictly smaller than the fish. */
    method FishCollided(f: Fish, box: CollisionBox)
      requires f in Spawned && Owned(box.parent, Spawned)
      modifies Spawned`eaten, player`eaten
      ensures var p := old(PlayNow()); PlayNow() == if FishMeal(p, Hit(box, FishObj(f))) then Mark(p, box.parent) else p
    {
      assert box.parent.Size() == OwnerSize(PlayNow(), box.parent);
      ghost var eaten0 := EatenNow();
      f.Collided(box);
      if old(box.parent.Size()) < f.size && box.parent.FishObj? {
        assert EatenNow() == eaten0 + {box.parent.fish};
      }
    }

    /** One hit: the queued object's `Collided` handler with the box. Only
        the player eats (`ate`) or runs into a bigger fish (`over`). */
    method DispatchHit(h: Hit, now: int) returns (ghost ate: bool, ghost over: bool)
      requires EatingReady() && HitWired(h, collisions.boxes, Spawned)
      modifies player`fishEaten, player`eaten, Spawned`eaten, save`fishEaten, bus,
               this`fishToNextScale, this`points, this`currentScale, player`size, Spawned`size
      ensures EatingReady()
      ensures ate == Meal(old(PlayNow()), h) && over == Death(old(PlayNow()), h)
      ensures PlayNow() == AfterHit(old(PlayNow()), h, doublePoints > 0, fish)
      ensures Appended(old(bus.events), bus.events, if over then [GameOver] else [], now)
    {
      match h.target
      case FishObj(f) =>
        FishCollided(f, h.box);
        ate, over := false, false;
      case PlayerObj(_) =>
        over := PlayerHit(h.box, now);
        ate := !over;
    }

    /** Runs the `Collided` handlers of a collision scan in order, with
        `OnFishEaten` after each fish the player eats: the play `p` moves
        on by the hits replayed in order, and each game over among them
        fires `GameOver`. */
    method DispatchHits(hits: seq<Hit>, now: int, ghost boxes: seq<CollisionBox>, ghost spawned: set<Fish>, ghost p: Play)
      requires EatingReady() && boxes == collisions.boxes && spawned == Spawned && p == PlayNow()
      requires forall h :: h in hits ==> HitWired(h, boxes, spawned)
      modifies player`fishEaten, player`eaten, Spawned`eaten, save`fishEaten, bus,
               this`fishToNextScale, this`points, this`currentScale, player`size, Spawned`size
      ensures EatingReady()
      ensures PlayNow() == AfterHits(p, hits, doublePoints > 0, fish)
      ensures Appended(old(bus.events), bus.events, GameOvers(Deaths(p, hits, doublePoints > 0, fish)), now)
      decreases |hits|
    {
      if |hits| == 0 {
        assert GameOvers(0) == [];
        return;
      }
      var ate, over := DispatchHit(hits[0], now);
      ghost var mid, q := bus.events, PlayNow();
      DispatchHits(hits[1..], now, boxes, spawned, q);
      ghost var k := Deaths(q, hits[1..], doublePoints > 0, fish);
      assert Deaths(p, hits, doublePoints > 0, fish) == k + if over then 1 else 0;
      AppendedGameOvers(old(bus.events), mid, bus.events, over, k, now);
    }

    /** `CollisionManager.Update` with the scene's handlers: the play moves
        on by the manager's scan, replayed in order. */
    method RunCollisions(now: int) returns (ghost hits: seq<Hit>, ghost eats: nat, ghost overs: nat)
      requires Valid()
      modifies player`fishEaten, player`eaten, Spawned`eaten, save`fishEaten, bus, collisions`queue,
               this`fishToNextScale, this`points, this`currentScale, player`size, Spawned`size
      ensures Valid()
      ensures collisions.queue == []
      ensures hits == old(Scan(collisions.queue, collisions.boxes))
      ensures PlayNow() == AfterHits(old(PlayNow()), hits, doublePoints > 0, fish)
      ensures eats == Meals(old(PlayNow()), hits, doublePoints > 0, fish)
      ensures overs == Deaths(old(PlayNow()), hits, doublePoints > 0, fish)
      ensures Appended(old(bus.events), bus.events, GameOvers(overs), now)
    {
      var found := ScanCollisions();
      hits := found;
      eats, overs := HandleHits(found, now, collisions.boxes);
    }

    /** The collision manager's scan: every hit it reports is on a
        registered box, between objects of the scene. */
    method ScanCollisions() returns (found: seq<Hit>)
      requires Valid()
      modifies collisions`queue
      ensures Valid()
      ensures collisions.queue == []
      ensures found == old(Scan(collisions.queue, collisions.boxes))
      ensures forall h :: h in found ==> HitWired(h, collisions.boxes, Spawned)
      ensures PlayNow() == old(PlayNow())
    {
      forall h | h in Scan(collisions.queue, collisions.boxes)
        ensures HitWired(h, collisions.boxes, Spawned)
      {
        ScanMembership(collisions.queue, collisions.boxes, h);
      }
      found := collisions.Update();
    }

    method HandleHits(hits: seq<Hit>, now: int, ghost boxes: seq<CollisionBox>)
      returns (ghost eats: nat, ghost overs: nat)
      requires Valid() && boxes == collisions.boxes
      requires forall h :: h in hits ==> HitWired(h, boxes, Spawned)
      modifies player`fishEaten, player`eaten, Spawned`eaten, save`fishEaten, bus,
               this`fishToNextScale, this`points, this`currentScale, player`size, Spawned`size
      ensures Valid()
      ensures PlayNow() == AfterHits(old(PlayNow()), hits, doublePoints > 0, fish)
      ensures eats == Meals(old(PlayNow()), hits, doublePoints > 0, fish)
      ensures overs == Deaths(old(PlayNow()), hits, doublePoints > 0, fish)
      ensures Appended(old(bus.events), bus.events, GameOvers(overs), now)
    {
      ghost var valid := Valid();
      ghost var p := PlayNow();
      eats, overs := Meals(p, hits, doublePoints > 0, fish), Deaths(p, hits, doublePoints > 0, fish);
      DispatchHits(hits, now, boxes, Spawned, p);
      ValidAcrossHits(valid);
    }

    twostate lemma ValidAcrossHits(valid: bool)
      requires valid == old(Valid()) && valid && EatingReady()
      requires unchanged(this`Made, this`Spawned, this`fish, this`bubbles, this`lastState,
                         this`bubblesBurst, this`bigFishQuarters, save`currentFish, player`collisionBox)
      requires unchanged(fishSelect, endScreen, endScreen.optionsMenu, collisions, areas)
      requires unchanged(old(Spawned)`collisionBox, old(areas.areas)`objectsInArea, old(areas.areas)`enteredHandler,
                         old(bubbles)`position, old(bubbles)`direction, old(bubbles)`burstSubscribed)
      ensures Valid()
    {
    }

    /** One area event: an entered area whose bubble is still attached
        tells it, and a burst it reports runs `OnBurst`. Nothing listens to
        exits. */
    method DispatchTransition(t: Transition) returns (burst: bool)
      requires BurstReady() && t.area in areas.areas
      modifies Made`burst, this`bubblesBurst, this`doublePoints
      ensures BurstReady()
      ensures burst == Bursting(t)
      ensures CurrentBursts() == if burst then AfterBurst(old(CurrentBursts())) else old(CurrentBursts())
    {
      burst := false;
      if t.Entered? && t.area.enteredHandler != null {
        burst := t.area.enteredHandler.TriggerAreaEntered(t.obj);
        if burst {
          BubbleOnBurst();
        }
      }
    }

    /** Runs the area events of a scan in order; `bursts` counts the
        bubbles that burst. */
    method DispatchTransitions(log: seq<Transition>) returns (bursts: nat)
      requires BurstReady()
      requires forall t :: t in log ==> t.area in areas.areas
      modifies Made`burst, this`bubblesBurst, this`doublePoints
      ensures BurstReady()
      ensures bursts == BurstCount(log)
      ensures CurrentBursts() == AfterBursts(old(CurrentBursts()), bursts)
      decreases |log|
    {
      if |log| == 0 {
        return 0;
      }
      var burst := DispatchTransition(log[0]);
      var rest := DispatchTransitions(log[1..]);
      bursts := rest + if burst then 1 else 0;
    }

    /** Runs the area events of a scan with the scene valid throughout. */
    method DispatchAll(log: seq<Transition>) returns (bursts: nat)
      requires Valid()
      requires forall t :: t in log ==> t.area in areas.areas
      modifies Made`burst, this`bubblesBurst, this`doublePoints
      ensures Valid()
      ensures bursts == BurstCount(log)
      ensures CurrentBursts() == AfterBursts(old(CurrentBursts()), bursts)
    {
      ghost var valid := Valid();
      bursts := DispatchTransitions(log);
      BurstsCounted(valid);
    }

    /** Bursts that keep the count in range and change nothing else the
        scene's invariant reads keep the scene valid. */
    twostate lemma BurstsCounted(valid: bool)
      requires valid == old(Valid()) && valid && 0 <= bubblesBurst < BurstsForDoublePoints
      requires unchanged(this`Made, this`Spawned, this`fish, this`bubbles, this`lastState, this`currentScale,
                         this`fishToNextScale, this`points, this`bigFishQuarters)
      requires unchanged(fishSelect`currentFish, fishSelect`unlockConditions, endScreen`currentOption,
                         endScreen.optionsMenu`currentOption, save`currentFish,
                         collisions`boxes, collisions`queue, player`collisionBox, areas`queue, areas`areas)
      requires unchanged(old(Spawned)`collisionBox, old(areas.areas)`objectsInArea, old(areas.areas)`enteredHandler,
                         old(bubbles)`position, old(bubbles)`direction, old(bubbles)`burstSubscribed)
      ensures Valid()
    {
    }

    /** `TriggerAreaManager.Update` with the scene's handlers. */
    method RunAreas() returns (bursts: nat, log: seq<Transition>)
      requires Valid()
      modifies Made`burst, areas`queue, areas.areas`objectsInArea, this`bubblesBurst, this`doublePoints
      ensures Valid()
      ensures areas.queue == []
      ensures log == old(AreaScan())
      ensures bursts == BurstCount(log)
      ensures CurrentBursts() == AfterBursts(old(CurrentBursts()), bursts)
      ensures CurrentScore() == old(CurrentScore()) && player.size == old(player.size)
      ensures player.fishEaten == old(player.fishEaten) && save.fishEaten == old(save.fishEaten)
      ensures bus.events == old(bus.events)
    {
      log := SweepAreas();
      bursts := DispatchAll(log);
    }

    /** The events the area manager's sweep would log from its areas and
        its queue as they are now. */
    ghost function AreaScan(): seq<Transition>
      requires AllBoxed(areas.queue)
      reads areas`areas, areas`queue, areas.areas`area, areas.areas`objectsInArea,
            FishesOf(areas.queue)`collisionBox, PlayersOf(areas.queue)`collisionBox, BoxesOf(areas.queue)`box
    {
      Log(areas.areas, AreaRects(areas.areas), Memberships(areas.areas), areas.queue, BoxRects(areas.queue))
    }

    /** Every object queued for the area manager has its box. */
    lemma AreaQueueBoxed()
      requires Valid()
      ensures AllBoxed(areas.queue)
    {
      forall e | e in areas.queue
        ensures e.Box() != null
      {
        assert Ours(e);
      }
    }

    /** The sweep of the area manager; every event it logs names one of
        the scene's areas. */
    method SweepAreas() returns (log: seq<Transition>)
      requires Valid()
      modifies areas`queue, areas.areas`objectsInArea
      ensures Valid()
      ensures areas.queue == [] && areas.areas == old(areas.areas)
      ensures log == old(AreaScan())
      ensures forall t :: t in log ==> t.area in areas.areas
    {
      ghost var valid := Valid();
      AreaQueueBoxed();
      ghost var before := areas.areas;
      ghost var areaRects, starts := AreaRects(areas.areas), Memberships(areas.areas);
      ghost var queue, rects := areas.queue, BoxRects(areas.queue);
      log := areas.Update();
      LogNamesAreas(before, areaRects, starts, queue, rects);
      AreasSwept(valid);
    }

    /** A sweep of the area manager that keeps it valid, empties its queue
        and changes nothing else keeps the scene valid. */
    twostate lemma AreasSwept(valid: bool)
      requires valid == old(Valid()) && valid && areas.Valid() && areas.queue == [] && areas.areas == old(areas.areas)
      requires unchanged(this`Made, this`Spawned, this`fish, this`bubbles, this`lastState, this`currentScale,
                         this`fishToNextScale, this`points, this`bubblesBurst, this`bigFishQuarters)
      requires unchanged(fishSelect`currentFish, fishSelect`unlockConditions, endScreen`currentOption,
                         endScreen.optionsMenu`currentOption, save`currentFish,
                         collisions`boxes, collisions`queue, player`collisionBox)
      requires unchanged(old(Spawned)`collisionBox, old(areas.areas)`enteredHandler,
                         old(bubbles)`position, old(bubbles)`direction, old(bubbles)`burstSubscribed)
      ensures Valid()
    {
    }

    // -------------------------------------------------------------------
    // Spawning and removing fish

    /** `SpawnFish`: below the cap of `MaxFish`, one new fish off screen,
        drawn from the next scale up on a big fish draw while fewer than
        five big fish are counted; its size is worked out at the current
        scale whichever table entry it comes from. At the cap nothing
        happens. */
    method SpawnFish(d: SpawnDraws)
      requires Valid()
      modifies this`fish, this`Spawned, this`bigFishQuarters, collisions`boxes
      ensures Valid()
      ensures fresh(Spawned - old(Spawned))
      ensures |old(fish)| >= MaxFish ==> fish == old(fish) && bigFishQuarters == old(bigFishQuarters)
      ensures |old(fish)| < MaxFish ==>
                var plan := SpawnPlan(currentScale, old(bigFishQuarters), d.bigDraw);
                |fish| == |old(fish)| + 1 && fish[..|old(fish)|] == old(fish) && fresh(fish[|old(fish)|]) &&
                fresh(fish[|old(fish)|].collisionBox) &&
                bigFishQuarters == plan.quarters &&
                fish[|old(fish)|].baseScale == Tier(plan.scale) &&
                fish[|old(fish)|].size == SpawnSize(Tier(plan.scale), currentScale) &&
                fish[|old(fish)|].position == Vector2(SpawnX(d.rightSide) as real, d.y as real)
    {
      ghost var valid := Valid();
      if |fish| < MaxFish {
        var plan := SpawnPlan(currentScale, bigFishQuarters, d.bigDraw);
        TierHasMetadata(plan.scale);
        var meta := Unlocks.FirstWithBaseScale(Unlocks.Fish, Tier(plan.scale)).value;
        var f := new Fish(meta, Vector2(SpawnX(d.rightSide) as real, d.y as real), currentScale,
                          d.spriteWidth, d.spriteHeight, d.bubbleDelay, collisions);
        Enlist(f, plan.quarters);
        FishJoins(valid, f);
      }
    }

    /** The new fish joins the list and the spawned set, and the big fish
        count moves on. */
    method Enlist(f: Fish, quarters: int)
      modifies this`fish, this`Spawned, this`bigFishQuarters
      ensures fish == old(fish) + [f] && Spawned == old(Spawned) + {f} && bigFishQuarters == quarters
    {
      bigFishQuarters := quarters;
      fish := fish + [f];
      Spawned := Spawned + {f};
    }

    /** A new fish, listed last with its box registered last, keeps the
        scene valid while the list stays within the cap. */
    twostate lemma FishJoins(valid: bool, new f: Fish)
      requires valid == old(Valid()) && valid && f !in old(Spawned) && f.collisionBox != null && f.collisionBox.parent == FishObj(f)
      requires f.collisionBox !in old(collisions.boxes)
      requires fish == old(fish) + [f] && Spawned == old(Spawned) + {f} && |fish| <= MaxFish
      requires collisions.boxes == old(collisions.boxes) + [f.collisionBox]
      requires 0 <= bigFishQuarters < BigFishLimitQuarters + 4
      requires unchanged(this`Made, this`bubbles, this`lastState, this`currentScale, this`fishToNextScale,
                         this`points, this`bubblesBurst)
      requires unchanged(fishSelect`currentFish, fishSelect`unlockConditions, endScreen`currentOption,
                         endScreen.optionsMenu`currentOption, save`currentFish,
                         collisions`queue, player`collisionBox, areas`queue, areas`areas)
      requires unchanged(old(Spawned)`collisionBox, old(areas.areas)`objectsInArea, old(areas.areas)`enteredHandler,
                         old(bubbles)`position, old(bubbles)`direction, old(bubbles)`burstSubscribed)
      ensures Valid()
    {
      AppendFresh(old(collisions.boxes), f.collisionBox);
      AppendFresh(old(fish), f);
    }

    /** `Fish_OnMoved` as the fish's `Move` raises it. */
    method UpdateOneFish(f: Fish, step: FishStep, elapsed: nat, bubbleWidth: int)
      requires BubblesReady() && f.collisionBox != null
      modifies f`spawnBubble, f`position, f.collisionBox`box, this`bubbles, this`Made, areas`areas,
               collisions`queue, areas`queue
      ensures BubblesReady()
      ensures f.position == step.newPosition
      ensures collisions.queue == old(collisions.queue) + [FishObj(f)] && areas.queue == old(areas.queue) + [FishObj(f)]
      ensures |bubbles| == |old(bubbles)| + (if old(f.spawnBubble) - elapsed <= 0 && step.bubbleDraw > 8 then 1 else 0)
      ensures bubbles[..|old(bubbles)|] == old(bubbles)
      ensures forall k :: |old(bubbles)| <= k < |bubbles| ==> fresh(bubbles[k]) && fresh(bubbles[k].triggerArea)
    {
      var at := f.Update(elapsed, step.bubbleDraw, step.newPosition);
      if at.Some? {
        FishOnBubbleSpawned(at.value, step.bubbleSpeed, if step.bubbleRightward then 1 else 0, bubbleWidth);
      }
      FishOnMoved(FishObj(f));
    }

    /** The loop of `UpdateFish` from position `i` on: every fish updates
        and joins both queues in order, bubbles they ask for are added
        after the old ones, and `eaten` lists the eaten ones in order. */
    method UpdateFishFrom(i: nat, input: FrameInput) returns (eaten: seq<Fish>)
      requires BubblesReady() && FishBoxed() && i <= |fish|
      modifies fish`spawnBubble, fish`position, FishBoxes(fish)`box, this`bubbles, this`Made, areas`areas,
               collisions`queue, areas`queue
      ensures BubblesReady()
      ensures eaten == EatenAmong(fish[i..])
      ensures collisions.queue == old(collisions.queue) + FishEntities(fish[i..])
      ensures areas.queue == old(areas.queue) + FishEntities(fish[i..])
      ensures |bubbles| >= |old(bubbles)| && bubbles[..|old(bubbles)|] == old(bubbles)
      ensures forall k :: |old(bubbles)| <= k < |bubbles| ==> fresh(bubbles[k]) && fresh(bubbles[k].triggerArea)
      decreases |fish| - i
    {
      if i == |fish| {
        return [];
      }
      var f := fish[i];
      UpdateOneFish(f, input.fishSteps(i), input.elapsed, input.bubbleWidth);
      assert fish == old(fish) && FishBoxed();
      ghost var mid := bubbles;
      var rest := UpdateFishFrom(i + 1, input);
      eaten := (if f.eaten then [f] else []) + rest;
      forall k | |old(bubbles)| <= k < |bubbles|
        ensures fresh(bubbles[k]) && fresh(bubbles[k].triggerArea)
      {
        if k < |mid| {
          assert bubbles[k] == mid[k];
        }
      }
      EatenFrom(fish, i);
      QueuedOneMore(old(collisions.queue), fish, i);
      QueuedOneMore(old(areas.queue), fish, i);
    }

    /** Moving the fish changes only their timers, positions and boxes,
        the bubbles and both queues, which gain the live fish: the scene
        stays valid. */
    twostate lemma FishMoved(valid: bool)
      requires valid == old(Valid()) && valid && BubblesReady()
      requires collisions.queue == old(collisions.queue) + FishEntities(fish)
      requires areas.queue == old(areas.queue) + FishEntities(fish)
      requires unchanged(this`Spawned, this`fish, this`lastState, this`currentScale, this`fishToNextScale,
                         this`points, this`bubblesBurst, this`bigFishQuarters)
      requires unchanged(fishSelect`currentFish, fishSelect`unlockConditions, endScreen`currentOption,
                         endScreen.optionsMenu`currentOption, save`currentFish, player`collisionBox, collisions`boxes)
      requires unchanged(Spawned`collisionBox)
      ensures Valid()
    {
      forall e | e in FishEntities(fish)
        ensures Ours(e)
      {
        var i :| 0 <= i < |fish| && FishEntities(fish)[i] == e;
        assert fish[i] in fish;
      }
    }

    /** One turn of the kill loop: the big fish count drops a quarter while
        it is positive, the fish's box leaves the registry and the fish
        leaves the list. */
    method Kill(f: Fish, ghost box: CollisionBox)
      requires f.collisionBox == box
      modifies this`fish, this`bigFishQuarters, collisions`boxes
      ensures fish == RemoveOne(old(fish), f)
      ensures bigFishQuarters == if old(bigFishQuarters) > 0 then old(bigFishQuarters) - 1 else old(bigFishQuarters)
      ensures collisions.boxes == RemoveOne(old(collisions.boxes), box)
    {
      CountKill();
      f.Dispose(collisions);
      fish := RemoveOne(fish, f);
    }

    /** The big fish count drops a quarter while it is positive. */
    method CountKill()
      modifies this`bigFishQuarters
      ensures bigFishQuarters == if old(bigFishQuarters) > 0 then old(bigFishQuarters) - 1 else old(bigFishQuarters)
    {
      if bigFishQuarters > 0 {
        bigFishQuarters := bigFishQuarters - 1;
      }
    }

    /** The kill loop of `UpdateFish`: each fish of `d` in turn. */
    method KillAll(d: seq<Fish>, ghost boxes: seq<CollisionBox>)
      requires |boxes| == |d| && forall i :: 0 <= i < |d| ==> d[i].collisionBox == boxes[i]
      modifies this`fish, this`bigFishQuarters, collisions`boxes
      ensures fish == RemoveAll(old(fish), d)
      ensures collisions.boxes == RemoveAll(old(collisions.boxes), boxes)
      ensures bigFishQuarters == QuartersAfterKills(old(bigFishQuarters), |d|)
    {
      ghost var live, registered := fish, collisions.boxes;
      for i := 0 to |d|
        invariant fish == RemovePrefix(live, d, i)
        invariant collisions.boxes == RemovePrefix(registered, boxes, i)
        invariant bigFishQuarters == QuartersAfterKills(old(bigFishQuarters), i)
      {
        Kill(d[i], boxes[i]);
      }
      RemovePrefixAll(live, d);
      RemovePrefixAll(registered, boxes);
    }

    /** Fish leaving the list, with boxes leaving the registry, keep the
        scene valid while the big fish count only drops. */
    twostate lemma FishRemoved(valid: bool)
      requires valid == old(Valid()) && valid
      requires NoDuplicates(fish) && |fish| <= |old(fish)| && forall f :: f in fish ==> f in old(fish)
      requires NoDuplicates(collisions.boxes) && forall b :: b in collisions.boxes ==> b in old(collisions.boxes)
      requires 0 <= bigFishQuarters <= old(bigFishQuarters)
      requires unchanged(this`Made, this`Spawned, this`bubbles, this`lastState, this`currentScale,
                         this`fishToNextScale, this`points, this`bubblesBurst)
      requires unchanged(fishSelect`currentFish, fishSelect`unlockConditions, endScreen`currentOption,
                         endScreen.optionsMenu`currentOption, save`currentFish,
                         collisions`queue, player`collisionBox, areas`queue, areas`areas)
      requires unchanged(old(Spawned)`collisionBox, old(areas.areas)`objectsInArea, old(areas.areas)`enteredHandler,
                         old(bubbles)`position, old(bubbles)`direction, old(bubbles)`burstSubscribed)
      ensures Valid()
    {
    }

    /** The first loop of `UpdateFish`: every fish moves, joins both
        queues and may ask for a bubble; `eaten` is the kill list. */
    method MoveFish(input: FrameInput) returns (eaten: seq<Fish>)
      requires Valid()
      modifies fish`spawnBubble, fish`position, FishBoxes(fish)`box, this`bubbles, this`Made, areas`areas,
               collisions`queue, areas`queue
      ensures Valid()
      ensures eaten == old(EatenAmong(fish))
      ensures collisions.queue == old(collisions.queue) + FishEntities(fish)
      ensures areas.queue == old(areas.queue) + FishEntities(fish)
      ensures |bubbles| >= |old(bubbles)| && bubbles[..|old(bubbles)|] == old(bubbles)
      ensures forall k :: |old(bubbles)| <= k < |bubbles| ==> fresh(bubbles[k]) && fresh(bubbles[k].triggerArea)
    {
      ghost var valid := Valid();
      eaten := UpdateFishFrom(0, input);
      assert fish[0..] == fish;
      EatenKept(fish);
      FishMoved(valid);
    }

    /** The kill loop of `UpdateFish` over the live fish `d`. */
    method RemoveEaten(d: seq<Fish>)
      requires Valid() && forall i :: 0 <= i < |d| ==> d[i] in fish
      modifies this`fish, this`bigFishQuarters, collisions`boxes
      ensures Valid()
      ensures fish == RemoveAll(old(fish), d)
      ensures bigFishQuarters == QuartersAfterKills(old(bigFishQuarters), |d|)
    {
      ghost var valid := Valid();
      ghost var boxes := FishBoxes(d);
      KillAll(d, boxes);
      RemoveAllShrinks(old(fish), d);
      RemoveAllShrinks(old(collisions.boxes), boxes);
      FishRemoved(valid);
    }

    /** `UpdateFish`: the fish move (`MoveFish`), then every fish that was
        eaten (`eaten`, in list order) is removed with its box, and the big
        fish count drops a quarter for each while it is positive.
        `Survivors` says which fish remain. */
    method UpdateFish(input: FrameInput) returns (eaten: seq<Fish>)
      requires Valid()
      modifies fish`spawnBubble, fish`position, FishBoxes(fish)`box, this`bubbles, this`Made, areas`areas,
               collisions`queue, areas`queue, this`fish, this`bigFishQuarters, collisions`boxes
      ensures Valid()
      ensures eaten == old(EatenAmong(fish))
      ensures fish == RemoveAll(old(fish), eaten)
      ensures bigFishQuarters == QuartersAfterKills(old(bigFishQuarters), |eaten|)
      ensures |bubbles| >= |old(bubbles)| && bubbles[..|old(bubbles)|] == old(bubbles)
      ensures forall k :: |old(bubbles)| <= k < |bubbles| ==> fresh(bubbles[k]) && fresh(bubbles[k].triggerArea)
      ensures forall k :: 0 <= k < |bubbles| ==> bubbles[k] in old(bubbles) || fresh(bubbles[k])
      ensures forall k :: 0 <= k < |bubbles| ==> BubbleAreas(bubbles)[k] in BubbleAreas(old(bubbles)) || fresh(BubbleAreas(bubbles)[k])
    {
      eaten := MoveFish(input);
      RemoveEaten(eaten);
      forall k | 0 <= k < |bubbles|
        ensures bubbles[k] in old(bubbles) || fresh(bubbles[k])
        ensures BubbleAreas(bubbles)[k] in BubbleAreas(old(bubbles)) || fresh(BubbleAreas(bubbles)[k])
      {
        if k < |old(bubbles)| {
          assert bubbles[k] == old(bubbles)[k];
          assert BubbleAreas(old(bubbles))[k] == bubbles[k].triggerArea;
        }
      }
    }

    // -------------------------------------------------------------------
    // Moving and removing bubbles

    /** One turn of the first loop of `UpdateBubbles`: the bubble rises
        and sways, and `leaves` says whether it is then at or above the top
        or burst. */
    method UpdateOneBubble(b: Bubble) returns (leaves: bool)
      requires BubblesReady() && b in bubbles
      modifies b`position, b`direction, b.triggerArea`area
      ensures BubblesReady()
      ensures leaves == old(LeavesAfterRise(b))
    {
      b.Update();
      leaves := b.position.y <= 0.0 || b.burst;
    }

    /** The first loop of `UpdateBubbles` from position `i` on: every
        bubble rises and sways, and `gone` lists, in order, those that are
        then at or above the top or burst. */
    method UpdateBubblesFrom(i: nat) returns (gone: seq<Bubble>)
      requires BubblesReady() && i <= |bubbles|
      modifies bubbles`position, bubbles`direction, BubbleAreas(bubbles)`area
      ensures BubblesReady()
      ensures gone == old(Leaving(bubbles[i..]))
      decreases |bubbles| - i
    {
      if i == |bubbles| {
        return [];
      }
      var b := bubbles[i];
      ghost var first, later := LeavesAfterRise(b), Leaving(bubbles[i + 1..]);
      assert bubbles[i..] == [b] + bubbles[i + 1..];
      assert Leaving(bubbles[i..]) == (if first then [b] else []) + later;
      NotLater(bubbles, i);
      var leaves := UpdateOneBubble(b);
      assert Leaving(bubbles[i + 1..]) == later;
      var rest := UpdateBubblesFrom(i + 1);
      gone := (if leaves then [b] else []) + rest;
    }

    /** The second loop of `UpdateBubbles`: each bubble of `d` in turn is
        unsubscribed from `OnBurst` and leaves the list. Its area stays
        registered. */
    method DropBubbles(d: seq<Bubble>)
      modifies this`bubbles, d`burstSubscribed
      ensures bubbles == RemoveAll(old(bubbles), d)
      ensures forall b :: b in d ==> !b.burstSubscribed
      decreases |d|
    {
      if |d| > 0 {
        d[0].burstSubscribed := false;
        bubbles := RemoveOne(bubbles, d[0]);
        DropBubbles(d[1..]);
      }
    }

    /** The first loop of `UpdateBubbles` over the whole list. */
    method MoveBubbles() returns (gone: seq<Bubble>)
      requires Valid()
      modifies bubbles`position, bubbles`direction, BubbleAreas(bubbles)`area
      ensures Valid() && doublePoints == old(doublePoints)
      ensures gone == old(Leaving(bubbles))
    {
      ghost var valid := Valid();
      gone := UpdateBubblesFrom(0);
      assert bubbles[0..] == bubbles;
      BubblesMoved(valid);
    }

    /** Moving the bubbles keeps the scene valid. */
    twostate lemma BubblesMoved(valid: bool)
      requires valid == old(Valid()) && valid && BubblesReady()
      requires unchanged(this, fishSelect, endScreen, endScreen.optionsMenu, save, collisions, player, areas)
      requires unchanged(old(Spawned), old(areas.areas)`objectsInArea, old(areas.areas)`enteredHandler)
      ensures Valid()
    {
    }

    /** The second loop of `UpdateBubbles` over the live bubbles `d`. */
    method RemoveGone(d: seq<Bubble>)
      requires Valid() && forall i :: 0 <= i < |d| ==> d[i] in bubbles
      modifies this`bubbles, d`burstSubscribed
      ensures Valid() && doublePoints == old(doublePoints)
      ensures bubbles == RemoveAll(old(bubbles), d)
      ensures forall b :: b in d ==> !b.burstSubscribed
    {
      ghost var valid := Valid();
      DropBubbles(d);
      RemoveAllShrinks(old(bubbles), d);
      forall b | b in bubbles
        ensures b !in d
      {
        RemoveAllMember(old(bubbles), d, b);
      }
      BubblesDropped(valid);
    }

    /** Bubbles leaving the list keep the scene valid while those that stay
        keep their subscription. */
    twostate lemma BubblesDropped(valid: bool)
      requires valid == old(Valid()) && valid
      requires NoDuplicates(bubbles)
      requires forall b :: b in bubbles ==> b in old(bubbles) && b.burstSubscribed == old(b.burstSubscribed)
      requires unchanged(this`Made, this`Spawned, this`fish, this`lastState, this`currentScale, this`fishToNextScale,
                         this`points, this`bubblesBurst, this`bigFishQuarters)
      requires unchanged(fishSelect, endScreen, endScreen.optionsMenu, save, collisions, player, areas)
      requires unchanged(old(Spawned), old(areas.areas), old(bubbles)`position, old(bubbles)`direction)
      ensures Valid()
    {
    }

    /** The double points timer runs down while it is positive; once it
        has run out it reads 0. */
    method RunDownDoublePoints(elapsed: nat)
      requires Valid()
      modifies this`doublePoints
      ensures Valid()
      ensures doublePoints == DoublePointsAfterFrame(old(doublePoints), elapsed)
    {
      if doublePoints > 0 {
        doublePoints := doublePoints - elapsed;
      } else {
        doublePoints := 0;
      }
    }

    /** `UpdateBubbles`: the double points timer runs down, or reads 0 once
        it has run out; every bubble rises and sways; then those at or
        above the top or burst (`gone`, in list order) are unsubscribed
        from `OnBurst` and leave the list. They are not disposed: their
        areas stay registered, and stay attached to them. */
    method UpdateBubbles(elapsed: nat) returns (gone: seq<Bubble>)
      requires Valid()
      modifies this`doublePoints, bubbles`position, bubbles`direction, BubbleAreas(bubbles)`area,
               bubbles`burstSubscribed, this`bubbles
      ensures Valid()
      ensures doublePoints == DoublePointsAfterFrame(old(doublePoints), elapsed)
      ensures gone == old(Leaving(bubbles))
      ensures bubbles == RemoveAll(old(bubbles), gone)
      ensures forall b :: b in gone ==> !b.burstSubscribed
    {
      RunDownDoublePoints(elapsed);
      LeavingKept(bubbles);
      gone := MoveBubbles();
      RemoveGone(gone);
    }

    // -------------------------------------------------------------------
    // Restarting

    /** The disposal loop of `Restart`: each fish of `d` in turn
        deregisters its box. */
    method DisposeFish(d: seq<Fish>, ghost boxes: seq<CollisionBox>)
      requires |boxes| == |d| && forall i :: 0 <= i < |d| ==> d[i].collisionBox == boxes[i]
      modifies collisions`boxes
      ensures collisions.boxes == RemoveAll(old(collisions.boxes), boxes)
      decreases |d|
    {
      if |d| > 0 {
        ghost var registered := collisions.boxes;
        d[0].Dispose(collisions);
        DisposeFish(d[1..], boxes[1..]);
        assert RemoveAll(registered, boxes) == RemoveAll(RemoveOne(registered, boxes[0]), boxes[1..]);
      }
    }

    /** Every fish gives up its box and the list is emptied. Handlers on
        fish that have left the list are never called again, so the
        unsubscribing has nothing to show. */
    method ClearFish()
      requires Valid()
      modifies this`fish, collisions`boxes
      ensures Valid()
      ensures fish == []
      ensures collisions.boxes == RemoveAll(old(collisions.boxes), old(FishBoxes(fish)))
    {
      var d := fish;
      EmptyFish();
      DetachFish(d, FishBoxes(d));
    }

    /** `fish.Clear()`: a scene with no live fish is still valid. */
    method EmptyFish()
      requires Valid()
      modifies this`fish
      ensures Valid()
      ensures fish == []
    {
      fish := [];
    }

    /** The dispose loop of `Restart` over fish that have already left the
        list; `boxes` are their boxes. */
    method DetachFish(d: seq<Fish>, ghost boxes: seq<CollisionBox>)
      requires |boxes| == |d| && forall i :: 0 <= i < |d| ==> d[i].collisionBox == boxes[i]
      requires Valid() && fish == []
      modifies collisions`boxes
      ensures Valid()
      ensures collisions.boxes == RemoveAll(old(collisions.boxes), boxes)
    {
      DisposeFish(d, boxes);
      FishCleared(boxes);
    }

    /** With the fish list empty, boxes leaving the registry keep the
        scene valid. */
    twostate lemma FishCleared(boxes: seq<CollisionBox>)
      requires old(Valid()) && fish == []
      requires collisions.boxes == RemoveAll(old(collisions.boxes), boxes)
      requires unchanged(this`Made, this`Spawned, this`fish, this`bubbles, this`lastState, this`currentScale,
                         this`fishToNextScale, this`points, this`bubblesBurst, this`bigFishQuarters)
      requires unchanged(fishSelect`currentFish, fishSelect`unlockConditions, endScreen`currentOption,
                         endScreen.optionsMenu`currentOption, save`currentFish,
                         collisions`queue, player`collisionBox, areas`queue, areas`areas)
      requires unchanged(old(Spawned)`collisionBox, old(areas.areas)`objectsInArea, old(areas.areas)`enteredHandler,
                         old(bubbles)`position, old(bubbles)`direction, old(bubbles)`burstSubscribed)
      ensures Valid()
    {
      RemoveAllShrinks(old(collisions.boxes), boxes);
    }

    /** One turn of the bubble loops of `Restart`: the bubble is disposed
        (its area loses its handler and leaves the manager) and is
        unsubscribed from `OnBurst`. */
    method DisposeBubble(b: Bubble)
      requires AreasKept()
      modifies b.triggerArea`enteredHandler, areas`areas, b`burstSubscribed
      ensures AreasKept()
      ensures areas.areas == RemoveOne(old(areas.areas), b.triggerArea)
      ensures b.triggerArea.enteredHandler == null && !b.burstSubscribed
    {
      b.Dispose(areas);
      b.burstSubscribed := false;
      AreaDropped(b.triggerArea);
    }

    /** An area leaving the manager with its handler set to null keeps the
        manager valid and every remaining handler a bubble of the scene. */
    twostate lemma AreaDropped(t: TriggerArea)
      requires old(AreasKept())
      requires areas.areas == RemoveOne(old(areas.areas), t) && t.enteredHandler == null
      requires unchanged(this`Made)
      requires forall a :: a in old(areas.areas) && a != t ==> unchanged(a)
      ensures AreasKept()
    {
      RemoveOneNoDuplicates(old(areas.areas), t);
      forall k | 0 <= k < |areas.areas|
        ensures NoDuplicates(areas.areas[k].objectsInArea)
        ensures areas.areas[k].enteredHandler != null ==> areas.areas[k].enteredHandler in Made
      {
        var a := areas.areas[k];
        assert a in areas.areas;
        RemoveOneKeepsOthers(old(areas.areas), t, a);
        var j :| 0 <= j < |old(areas.areas)| && old(areas.areas)[j] == a;
      }
    }

    /** The bubble loops of `Restart` over `d`, one bubble at a time;
        `ts` are the bubbles' areas. */
    method DisposeBubbles(d: seq<Bubble>, ghost ts: seq<TriggerArea>)
      requires |ts| == |d| && forall i :: 0 <= i < |d| ==> d[i].triggerArea == ts[i]
      requires AreasKept()
      modifies ts`enteredHandler, areas`areas, d`burstSubscribed
      ensures AreasKept()
      ensures areas.areas == RemoveAll(old(areas.areas), ts)
      ensures forall i :: 0 <= i < |d| ==> !d[i].burstSubscribed
      decreases |d|
    {
      if |d| > 0 {
        ghost var attached := areas.areas;
        DisposeBubble(d[0]);
        DisposeBubbles(d[1..], ts[1..]);
        assert RemoveAll(attached, ts) == RemoveAll(RemoveOne(attached, ts[0]), ts[1..]);
      }
    }

    /** Every bubble is disposed and unsubscribed and the list is emptied. */
    method ClearBubbles()
      requires Valid()
      modifies this`bubbles, BubbleAreas(bubbles)`enteredHandler, areas`areas, bubbles`burstSubscribed
      ensures Valid()
      ensures bubbles == []
      ensures areas.areas == RemoveAll(old(areas.areas), BubbleAreas(old(bubbles)))
      ensures forall b :: b in old(bubbles) ==> !b.burstSubscribed
    {
      var d := bubbles;
      EmptyBubbles();
      DetachBubbles(d, BubbleAreas(d));
    }

    /** `bubbles.Clear()`: with no live bubble left to check, the scene
        stays valid while the areas are still attached. */
    method EmptyBubbles()
      requires Valid()
      modifies this`bubbles
      ensures Valid()
      ensures bubbles == []
    {
      bubbles := [];
    }

    /** The bubble loops of `Restart` over bubbles that have already left
        the list; `ts` are the bubbles' areas. */
    method DetachBubbles(d: seq<Bubble>, ghost ts: seq<TriggerArea>)
      requires |ts| == |d| && forall i :: 0 <= i < |d| ==> d[i].triggerArea == ts[i]
      requires Valid() && bubbles == []
      modifies ts`enteredHandler, areas`areas, d`burstSubscribed
      ensures Valid()
      ensures areas.areas == RemoveAll(old(areas.areas), ts)
      ensures forall i :: 0 <= i < |d| ==> !d[i].burstSubscribed
    {
      ghost var valid := Valid();
      DisposeBubbles(d, ts);
      BubblesCleared(valid);
    }

    /** With the bubble list empty, areas leaving the manager keep the
        scene valid while the manager stays valid with handlers that are
        bubbles of the scene. */
    twostate lemma BubblesCleared(valid: bool)
      requires valid == old(Valid()) && valid
      requires bubbles == []
      requires AreasKept()
      requires unchanged(this`Made, this`Spawned, this`fish, this`lastState, this`currentScale, this`fishToNextScale,
                         this`points, this`bubblesBurst, this`bigFishQuarters)
      requires unchanged(fishSelect`currentFish, fishSelect`unlockConditions, endScreen`currentOption,
                         endScreen.optionsMenu`currentOption, save`currentFish,
                         collisions`boxes, collisions`queue, player`collisionBox, areas`queue)
      requires unchanged(old(Spawned)`collisionBox)
      ensures Valid()
    {
    }

    /** `player.Reset()`: the player's new box joins the registry, and the
        old one stays registered. */
    method ResetPlayer(spriteWidth: int, spriteHeight: int)
      requires Valid()
      modifies player`size, player`position, player`targetPosition, player`fishEaten,
               player`collisionBoxOffset, player`collisionBox, collisions`boxes
      ensures Valid()
      ensures player.size == 1 && player.fishEaten == 0
      ensures player.position == player.initialPosition && player.targetPosition == player.initialPosition
      ensures collisions.boxes == old(collisions.boxes) + [player.collisionBox]
    {
      ghost var valid := Valid();
      Unlocks.BaseScaleIsPosition();
      player.Reset(save, spriteWidth, spriteHeight, collisions);
      AppendFresh(old(collisions.boxes), player.collisionBox);
      PlayerReset(valid);
    }

    /** A new box of the player joining the registry keeps the scene valid. */
    twostate lemma PlayerReset(valid: bool)
      requires valid == old(Valid()) && valid
      requires player.collisionBox != null && player.collisionBox.parent == PlayerObj(player)
      requires collisions.boxes == old(collisions.boxes) + [player.collisionBox] && NoDuplicates(collisions.boxes)
      requires unchanged(this, fishSelect, endScreen, endScreen.optionsMenu, save, areas, collisions`queue)
      requires unchanged(old(Spawned), old(areas.areas), old(bubbles))
      ensures Valid()
    {
    }

    /** The counters of a new session: no bursts, no double points, no
        points, scale 1. The big fish count is left as it is. */
    method ResetCounters()
      requires Valid()
      modifies this`bubblesBurst, this`doublePoints, this`points, this`currentScale, this`fishToNextScale
      ensures Valid()
      ensures CurrentScore() == StartScore() && CurrentBursts() == Bursts(0, 0)
    {
      ghost var valid := Valid();
      SetCounters(StartScore(), Bursts(0, 0));
      CountersSet(valid);
    }

    /** The score and the burst counters take the given values. */
    method SetCounters(s: Score, b: Bursts)
      modifies this`bubblesBurst, this`doublePoints, this`points, this`currentScale, this`fishToNextScale
      ensures CurrentScore() == s && CurrentBursts() == b
    {
      currentScale, fishToNextScale, points := s.scale, s.toNext, s.points;
      bubblesBurst, doublePoints := b.count, b.doublePoints;
    }

    /** Setting the score and the burst counters to values in range keeps
        the scene valid. */
    twostate lemma CountersSet(valid: bool)
      requires valid == old(Valid()) && valid
      requires ScoreValid(CurrentScore()) && 0 <= bubblesBurst < BurstsForDoublePoints
      requires unchanged(this`Made, this`Spawned, this`fish, this`bubbles, this`lastState, this`bigFishQuarters)
      requires unchanged(fishSelect, endScreen, endScreen.optionsMenu, save, collisions, player, areas)
      requires unchanged(old(Spawned)`collisionBox, old(areas.areas)`objectsInArea, old(areas.areas)`enteredHandler,
                         old(bubbles)`position, old(bubbles)`direction, old(bubbles)`burstSubscribed)
      ensures Valid()
    {
    }

    /** The first half of `Restart`: every fish is disposed and leaves the
        list, every bubble is disposed, unsubscribed and leaves the list. */
    method ClearObjects()
      requires Valid()
      modifies this`fish, collisions`boxes, this`bubbles, BubbleAreas(bubbles)`enteredHandler, areas`areas,
               bubbles`burstSubscribed
      ensures Valid()
      ensures fish == [] && bubbles == []
      ensures collisions.boxes == RemoveAll(old(collisions.boxes), old(FishBoxes(fish)))
      ensures areas.areas == RemoveAll(old(areas.areas), BubbleAreas(old(bubbles)))
      ensures forall b :: b in old(bubbles) ==> !b.burstSubscribed
    {
      ClearFish();
      ClearBubbles();
    }

    /** The second half of `Restart`: the scene plays, the player is reset
        with a new box, and the counters start again. */
    method StartSession(spriteWidth: int, spriteHeight: int)
      requires Valid()
      modifies this`state, player`size, player`position, player`targetPosition, player`fishEaten,
               player`collisionBoxOffset, player`collisionBox, collisions`boxes,
               this`bubblesBurst, this`doublePoints, this`points, this`currentScale, this`fishToNextScale
      ensures Valid()
      ensures state == Playing
      ensures CurrentScore() == StartScore() && CurrentBursts() == Bursts(0, 0)
      ensures collisions.boxes == old(collisions.boxes) + [player.collisionBox]
      ensures player.size == 1 && player.fishEaten == 0 && player.position == player.initialPosition
    {
      SetState(Playing);
      ResetPlayer(spriteWidth, spriteHeight);
      ResetCounters();
    }

    /** `currentState = s`. */
    method SetState(s: SceneState)
      modifies this`state
      ensures state == s
    {
      state := s;
    }

    /** `Restart`: every fish is disposed and leaves the list, every bubble
        is disposed, unsubscribed and leaves the list, the scene plays, the
        player is reset with a new box, and the counters start again. The
        big fish count is not reset. */
    method Restart(spriteWidth: int, spriteHeight: int)
      requires Valid()
      modifies this`fish, collisions`boxes, this`bubbles, BubbleAreas(bubbles)`enteredHandler, areas`areas,
               bubbles`burstSubscribed, this`state,
               player`size, player`position, player`targetPosition, player`fishEaten,
               player`collisionBoxOffset, player`collisionBox,
               this`bubblesBurst, this`doublePoints, this`points, this`currentScale, this`fishToNextScale
      ensures Valid()
      ensures state == Playing && fish == [] && bubbles == []
      ensures CurrentScore() == StartScore() && CurrentBursts() == Bursts(0, 0)
      ensures bigFishQuarters == old(bigFishQuarters) && lastState == old(lastState)
      ensures collisions.boxes == RemoveAll(old(collisions.boxes), old(FishBoxes(fish))) + [player.collisionBox]
      ensures areas.areas == RemoveAll(old(areas.areas), BubbleAreas(old(bubbles)))
      ensures forall b :: b in old(bubbles) ==> !b.burstSubscribed
      ensures player.size == 1 && player.fishEaten == 0 && player.position == player.initialPosition
    {
      ClearObjects();
      StartSession(spriteWidth, spriteHeight);
    }

    // -------------------------------------------------------------------
    // The screens

    /** The game over branch of `UpdatePlaying`: new unlocks are worked
        out from the session's scale and points, the end screen records the
        bests, the fish select rebuilds its conditions, an advert is shown,
        and the scene ends. */
    method EndSession()
      requires ScreensKept()
      modifies save.unlockedFish, save.notifications, save`bestScale, save`bestPoints,
               endScreen`showNotification, fishSelect`unlockConditions, this`adsShown, this`state
      ensures ScreensKept()
      ensures state == End && adsShown == old(adsShown) + 1
      ensures save.unlockedFish[..] == Unlocks.UnlockedAfter(old(save.unlockedFish[..]), save.fishEaten, currentScale, points)
      ensures save.bestScale == Menus.Max(old(save.bestScale), currentScale)
      ensures save.bestPoints == Menus.Max(old(save.bestPoints), points)
      ensures save.notifications[..] ==
              Unlocks.NotificationsAfter(old(save.unlockedFish[..]), old(save.notifications[..]), save.fishEaten, currentScale, points)
      ensures endScreen.showNotification <==> true in save.notifications[..]
      ensures fishSelect.unlockConditions == Menus.Conditions(fishSelect.library, save.unlockedFish[..])
    {
      Unlocks.Unlock(save, currentScale, points);
      endScreen.Prepare(currentScale, player.fishEaten, points);
      fishSelect.Reset();
      ShowAd();
      SetState(End);
    }

    /** Changes to the screens, the save data and the bus alone keep the
        scene valid while the screens stay valid. */
    twostate lemma ScreensMoved(valid: bool)
      requires valid == old(Valid()) && valid && ScreensKept()
      requires unchanged(this`Made, this`Spawned, this`fish, this`bubbles, this`currentScale, this`fishToNextScale,
                         this`points, this`bubblesBurst, this`bigFishQuarters)
      requires unchanged(collisions, player`collisionBox, areas`queue, areas`areas)
      requires unchanged(old(Spawned)`collisionBox, old(areas.areas)`objectsInArea, old(areas.areas)`enteredHandler,
                         old(bubbles)`position, old(bubbles)`direction, old(bubbles)`burstSubscribed)
      ensures Valid()
    {
    }

    /** `PlatformManager.Platform.ShowAd()`, counted. */
    method ShowAd()
      modifies this`adsShown
      ensures adsShown == old(adsShown) + 1
    {
      adsShown := adsShown + 1;
    }

    /** `player.Update`: the player steers and moves, and its `OnMoved`
        puts it on both queues. */
    method MovePlayer(s: Steering, newPosition: Vector2)
      requires Valid()
      modifies player`targetPosition, player`position, player.collisionBox`box, collisions`queue, areas`queue
      ensures Valid()
      ensures player.targetPosition == ClampToScreen(Steer(old(player.targetPosition), old(player.position), s))
      ensures player.position == newPosition
      ensures collisions.queue == old(collisions.queue) + [PlayerObj(player)]
      ensures areas.queue == old(areas.queue) + [PlayerObj(player)]
    {
      player.Update(s, newPosition);
      FishOnMoved(PlayerObj(player));
    }

    /** Opening the fish select: the screen it was opened from is kept. */
    method OpenFishSelectFrom()
      requires Valid() && (state == Title || state == End)
      modifies this`lastState, this`state
      ensures Valid()
      ensures lastState == old(state) && state == FishSelect
    {
      lastState := state;
      state := FishSelect;
    }

    /** `Update`: one frame of the screen the scene is on. Every frame
        keeps the scene valid and moves it along the state machine. */
    method Update(input: FrameInput)
      requires Valid() && |input.resolutions| > 0
      modifies bus, this`lastState, this`state, this`fish, this`Spawned, this`bigFishQuarters, this`bubbles,
               this`Made, this`bubblesBurst, this`doublePoints, this`points, this`currentScale,
               this`fishToNextScale, this`adsShown,
               collisions`boxes, collisions`queue, areas`queue, areas`areas, areas.areas`objectsInArea,
               player`fishEaten, player`eaten, player`size, player`position, player`targetPosition,
               player`collisionBoxOffset, player`collisionBox, player.collisionBox`box,
               Spawned`eaten, Spawned`size, Made`burst,
               fish`spawnBubble, fish`position, FishBoxes(fish)`box,
               bubbles`position, bubbles`direction, bubbles`burstSubscribed,
               BubbleAreas(bubbles)`area, BubbleAreas(bubbles)`enteredHandler,
               save`fishEaten, save.unlockedFish, save.notifications, save`bestScale, save`bestPoints,
               save`currentFish, save`musicVolume, save`soundVolume,
               fishSelect`currentFish, fishSelect`unlockConditions,
               endScreen, endScreen.optionsMenu,
               endScreen.optionsMenu.graphics`resolution, endScreen.optionsMenu.graphics`screenSize
      ensures Valid()
      ensures Move(old(state), state, old(lastState))
    {
      match state
      case Title => UpdateTitle(input.screenEvents, input.now);
      case FishSelect => UpdateFishSelect(input.menu, input.now, input.playerWidth, input.playerHeight);
      case Playing => var _, _ := UpdatePlaying(input);
      case Paused => UpdatePaused(input.screenEvents, input.now, input.playerWidth, input.playerHeight);
      case End => var _ := UpdateEnd(input.menu, input.resolutions, input.now, input.playerWidth, input.playerHeight);
    }

    /** `UpdateTitle`: the title screen fires `screenEvents`; an
        `OpenFishSelect` event opens the fish select and a `Restart`
        event then starts playing, without clearing anything. Both are
        taken off the bus. */
    method UpdateTitle(screenEvents: seq<string>, now: int)
      requires Valid() && state == Title
      modifies bus, this`lastState, this`state
      ensures Valid()
      ensures state == (if Raised(old(bus.events), screenEvents, Events.Restart) then Playing
                        else if Raised(old(bus.events), screenEvents, OpenFishSelect) then FishSelect
                        else Title)
      ensures lastState == (if Raised(old(bus.events), screenEvents, OpenFishSelect) then Title else old(lastState))
      ensures !Pending(bus.events, OpenFishSelect) && !Pending(bus.events, Events.Restart)
    {
      ghost var valid := Valid();
      var selecting, started := FireAndPollTwo(bus, screenEvents, now, OpenFishSelect, Events.Restart);
      ScreensMoved(valid);
      LeaveTitle(selecting, started);
    }

    /** The moves out of the title: to the fish select, then to play. */
    method LeaveTitle(selecting: bool, started: bool)
      requires Valid() && state == Title
      modifies this`lastState, this`state
      ensures Valid()
      ensures state == (if started then Playing else if selecting then FishSelect else Title)
      ensures lastState == (if selecting then Title else old(lastState))
    {
      if selecting {
        OpenFishSelectFrom();
      }
      if started {
        SetState(Playing);
      }
    }

    /** `UpdatePlaying`: fish spawn, the collision and area managers run
        with the scene's handlers, a `GameOver` event ends the session
        (`over`), the player moves, the fish and the bubbles update, and
        the pause binding pauses the game, even in the frame that ended
        it. */
    method UpdatePlaying(input: FrameInput) returns (ghost over: bool, ghost overs: nat)
      requires Valid() && state == Playing
      modifies this`fish, this`Spawned, this`bigFishQuarters, collisions`boxes,
               player`fishEaten, player`eaten, Spawned`eaten, save`fishEaten, bus, collisions`queue,
               this`fishToNextScale, this`points, this`currentScale, player`size, Spawned`size,
               Made`burst, areas`queue, areas.areas`objectsInArea, this`bubblesBurst, this`doublePoints,
               save.unlockedFish, save.notifications, save`bestScale, save`bestPoints,
               endScreen`showNotification, fishSelect`unlockConditions, this`adsShown, this`state,
               player`targetPosition, player`position, player.collisionBox`box,
               fish`spawnBubble, fish`position, FishBoxes(fish)`box, this`bubbles, this`Made, areas`areas,
               bubbles`position, bubbles`direction, BubbleAreas(bubbles)`area, bubbles`burstSubscribed
      ensures Valid()
      ensures over <==> Pending(old(bus.events), GameOver) || overs > 0
      ensures state == (if input.pause then Paused else if over then End else Playing)
    {
      SpawnStep(input.spawn);
      ghost var hits;
      over, hits, overs := AfterSpawn(input);
    }

    /** `UpdatePlaying` once the fish have spawned: the managers run, the
        game over poll ends the session, the pause binding is read, and
        the player, the fish and the bubbles move. The pause binding is
        read last in the source; none of the moves reads the scene's
        state, so reading it first changes nothing. */
    method AfterSpawn(input: FrameInput) returns (ghost over: bool, ghost hits: seq<Hit>, ghost overs: nat)
      requires Valid() && state == Playing
      modifies player`fishEaten, player`eaten, Spawned`eaten, save`fishEaten, bus, collisions`queue,
               this`fishToNextScale, this`points, this`currentScale, player`size, Spawned`size,
               Made`burst, areas`queue, areas.areas`objectsInArea, this`bubblesBurst, this`doublePoints,
               save.unlockedFish, save.notifications, save`bestScale, save`bestPoints,
               endScreen`showNotification, fishSelect`unlockConditions, this`adsShown, this`state,
               player`targetPosition, player`position, player.collisionBox`box,
               fish`spawnBubble, fish`position, FishBoxes(fish)`box, this`bubbles, this`Made, areas`areas,
               this`fish, this`bigFishQuarters, collisions`boxes,
               bubbles`position, bubbles`direction, BubbleAreas(bubbles)`area, bubbles`burstSubscribed
      ensures Valid()
      ensures hits == old(Scan(collisions.queue, collisions.boxes))
      ensures overs == Deaths(old(PlayNow()), hits, old(doublePoints) > 0, old(fish))
      ensures over <==> Pending(old(bus.events), GameOver) || overs > 0
      ensures state == (if input.pause then Paused else if over then End else Playing)
    {
      ghost var areas0 := BubbleAreas(bubbles);
      over, hits, overs := RunManagers(input);
      assert BubbleAreas(bubbles) == areas0;
      MoveObjects(input);
    }

    /** `SpawnFish` as `UpdatePlaying` calls it: every fish listed after it
        was listed before or is new, and so is its box. */
    method SpawnStep(d: SpawnDraws)
      requires Valid()
      modifies this`fish, this`Spawned, this`bigFishQuarters, collisions`boxes
      ensures Valid()
      ensures forall j :: 0 <= j < |fish| ==> fish[j] in old(fish) || fresh(fish[j])
      ensures forall j :: 0 <= j < |fish| ==> FishBoxes(fish)[j] in old(FishBoxes(fish)) || fresh(FishBoxes(fish)[j])
      ensures fresh(Spawned - old(Spawned))
      ensures state == old(state) && bus.events == old(bus.events) && bubbles == old(bubbles)
    {
      SpawnFish(d);
      forall j | 0 <= j < |fish|
        ensures fish[j] in old(fish) || fresh(fish[j])
        ensures FishBoxes(fish)[j] in old(FishBoxes(fish)) || fresh(FishBoxes(fish)[j])
      {
        if j < |old(fish)| {
          assert fish[j] == old(fish)[j];
          assert old(FishBoxes(fish))[j] == fish[j].collisionBox;
        }
      }
    }

    /** The managers of `UpdatePlaying` and the game over poll. */
    method RunManagers(input: FrameInput) returns (ghost over: bool, ghost hits: seq<Hit>, ghost overs: nat)
      requires Valid() && state == Playing
      modifies player`fishEaten, player`eaten, Spawned`eaten, save`fishEaten, bus, collisions`queue,
               this`fishToNextScale, this`points, this`currentScale, player`size, Spawned`size,
               Made`burst, areas`queue, areas.areas`objectsInArea, this`bubblesBurst, this`doublePoints,
               save.unlockedFish, save.notifications, save`bestScale, save`bestPoints,
               endScreen`showNotification, fishSelect`unlockConditions, this`adsShown, this`state
      ensures Valid()
      ensures hits == old(Scan(collisions.queue, collisions.boxes))
      ensures overs == Deaths(old(PlayNow()), hits, old(doublePoints) > 0, fish)
      ensures over <==> Pending(old(bus.events), GameOver) || overs > 0
      ensures CurrentScore() == AfterHits(old(PlayNow()), hits, old(doublePoints) > 0, fish).score
      ensures state == (if input.pause then Paused else if over then End else Playing)
      ensures fish == old(fish) && bubbles == old(bubbles)
    {
      over, hits, overs := CollideThenPoll(input.now);
      PauseOn(input.pause);
    }

    /** The managers run, then the game over poll ends the session on a
        `GameOver` already waiting or fired by a deadly hit. */
    method CollideThenPoll(now: int) returns (ghost over: bool, ghost hits: seq<Hit>, ghost overs: nat)
      requires Valid()
      modifies player`fishEaten, player`eaten, Spawned`eaten, save`fishEaten, bus, collisions`queue,
               this`fishToNextScale, this`points, this`currentScale, player`size, Spawned`size,
               Made`burst, areas`queue, areas.areas`objectsInArea, this`bubblesBurst, this`doublePoints,
               save.unlockedFish, save.notifications, save`bestScale, save`bestPoints,
               endScreen`showNotification, fishSelect`unlockConditions, this`adsShown, this`state
      ensures Valid()
      ensures hits == old(Scan(collisions.queue, collisions.boxes))
      ensures overs == Deaths(old(PlayNow()), hits, old(doublePoints) > 0, fish)
      ensures over <==> Pending(old(bus.events), GameOver) || overs > 0
      ensures CurrentScore() == AfterHits(old(PlayNow()), hits, old(doublePoints) > 0, fish).score
      ensures state == (if over then End else old(state))
      ensures fish == old(fish) && bubbles == old(bubbles)
    {
      var bursts, log;
      hits, overs, bursts, log := Collide(now);
      assert state == old(state);
      over := CheckGameOver();
    }

    /** The two managers run with the scene's handlers: the play moves on
        by the collision scan's hits, at the frame's double points, each
        deadly hit fires a `GameOver`, and the bubbles burst by the area
        scan's events count towards double points. */
    method Collide(now: int) returns (ghost hits: seq<Hit>, ghost overs: nat, bursts: nat, log: seq<Transition>)
      requires Valid()
      modifies player`fishEaten, player`eaten, Spawned`eaten, save`fishEaten, bus, collisions`queue,
               this`fishToNextScale, this`points, this`currentScale, player`size, Spawned`size,
               Made`burst, areas`queue, areas.areas`objectsInArea, this`bubblesBurst, this`doublePoints
      ensures Valid()
      ensures hits == old(Scan(collisions.queue, collisions.boxes))
      ensures var p := AfterHits(old(PlayNow()), hits, old(doublePoints) > 0, fish);
              CurrentScore() == p.score && player.size == p.playerSize && player.fishEaten == p.eaten && save.fishEaten == p.saved
      ensures overs == Deaths(old(PlayNow()), hits, old(doublePoints) > 0, fish)
      ensures Pending(bus.events, GameOver) <==> Pending(old(bus.events), GameOver) || overs > 0
      ensures bursts == BurstCount(log)
      ensures CurrentBursts() == AfterBursts(old(CurrentBursts()), bursts)
    {
      hits, overs := CollideBoxes(now);
      bursts, log := RunAreas();
    }

    /** The collision manager runs with the scene's handlers: the play
        moves on by the scan's hits and each deadly hit fires a
        `GameOver`. */
    method CollideBoxes(now: int) returns (ghost hits: seq<Hit>, ghost overs: nat)
      requires Valid()
      modifies player`fishEaten, player`eaten, Spawned`eaten, save`fishEaten, bus, collisions`queue,
               this`fishToNextScale, this`points, this`currentScale, player`size, Spawned`size
      ensures Valid()
      ensures hits == old(Scan(collisions.queue, collisions.boxes))
      ensures PlayNow() == AfterHits(old(PlayNow()), hits, doublePoints > 0, fish)
      ensures overs == Deaths(old(PlayNow()), hits, doublePoints > 0, fish)
      ensures Pending(bus.events, GameOver) <==> Pending(old(bus.events), GameOver) || overs > 0
      ensures CurrentBursts() == old(CurrentBursts()) && Made == old(Made) && areas.areas == old(areas.areas)
    {
      ghost var eats;
      hits, eats, overs := RunCollisions(now);
      PendingAppended(old(bus.events), bus.events, GameOvers(overs), now, GameOver);
      GameOversFired(overs);
    }

    /** The second half of `UpdatePlaying`: the player, the fish and the
        bubbles update. */
    method MoveObjects(input: FrameInput)
      requires Valid()
      modifies player`targetPosition, player`position, player.collisionBox`box, collisions`queue, areas`queue,
               fish`spawnBubble, fish`position, FishBoxes(fish)`box, this`bubbles, this`Made, areas`areas,
               this`fish, this`bigFishQuarters, collisions`boxes,
               this`doublePoints, bubbles`position, bubbles`direction, BubbleAreas(bubbles)`area,
               bubbles`burstSubscribed
      ensures Valid() && state == old(state)
      ensures player.targetPosition == ClampToScreen(Steer(old(player.targetPosition), old(player.position), input.steering))
      ensures player.position == input.playerPosition
    {
      MovePlayer(input.steering, input.playerPosition);
      UpdateObjects(input);
    }

    /** `UpdateFish`, then `UpdateBubbles`, which also moves the bubbles
        the fish have just asked for. */
    method UpdateObjects(input: FrameInput)
      requires Valid()
      modifies fish`spawnBubble, fish`position, FishBoxes(fish)`box, this`bubbles, this`Made, areas`areas,
               collisions`queue, areas`queue, this`fish, this`bigFishQuarters, collisions`boxes,
               this`doublePoints, bubbles`position, bubbles`direction, BubbleAreas(bubbles)`area,
               bubbles`burstSubscribed
      ensures Valid()
    {
      var eaten := UpdateFish(input);
      var gone := UpdateBubbles(input.elapsed);
    }

    /** The pause binding or button pauses the game. */
    method PauseOn(pause: bool)
      requires Valid()
      modifies this`state
      ensures Valid()
      ensures state == if pause then Paused else old(state)
    {
      if pause {
        state := Paused;
      }
    }

    /** The game over poll of `UpdatePlaying`, and the session's end. */
    method CheckGameOver() returns (over: bool)
      requires Valid()
      modifies bus, save.unlockedFish, save.notifications, save`bestScale, save`bestPoints,
               endScreen`showNotification, fishSelect`unlockConditions, this`adsShown, this`state
      ensures Valid()
      ensures over <==> Pending(old(bus.events), GameOver)
      ensures state == (if over then End else old(state))
      ensures adsShown == old(adsShown) + (if over then 1 else 0)
      ensures CurrentScore() == old(CurrentScore()) && fish == old(fish) && bubbles == old(bubbles)
    {
      over := bus.HasEventFiredThenKill(GameOver);
      if over {
        EndGame();
      }
    }

    /** The session ends on a game over, with the scene still valid. */
    method EndGame()
      requires Valid()
      modifies save.unlockedFish, save.notifications, save`bestScale, save`bestPoints,
               endScreen`showNotification, fishSelect`unlockConditions, this`adsShown, this`state
      ensures Valid()
      ensures state == End && adsShown == old(adsShown) + 1
    {
      ghost var valid := Valid();
      EndSession();
      ScreensMoved(valid);
    }

    /** `UpdatePaused`: the pause menu fires `screenEvents`; a
        `ClosePauseMenu` event resumes play and a `Restart` event restarts
        the session. Both are taken off the bus. */
    method UpdatePaused(screenEvents: seq<string>, now: int, spriteWidth: int, spriteHeight: int)
      requires Valid() && state == Paused
      modifies bus, this`state, this`fish, collisions`boxes, this`bubbles, BubbleAreas(bubbles)`enteredHandler,
               areas`areas, bubbles`burstSubscribed,
               player`size, player`position, player`targetPosition, player`fishEaten,
               player`collisionBoxOffset, player`collisionBox,
               this`bubblesBurst, this`doublePoints, this`points, this`currentScale, this`fishToNextScale
      ensures Valid()
      ensures state == (if Raised(old(bus.events), screenEvents, ClosePauseMenu) ||
                           Raised(old(bus.events), screenEvents, Events.Restart) then Playing else Paused)
      ensures Raised(old(bus.events), screenEvents, Events.Restart) ==>
                fish == [] && bubbles == [] && CurrentScore() == StartScore()
      ensures !Pending(bus.events, ClosePauseMenu) && !Pending(bus.events, Events.Restart)
    {
      var restarted := PollPauseMenu(screenEvents, now);
      if restarted {
        Restart(spriteWidth, spriteHeight);
      }
    }

    /** The pause menu's events, and the resume they may ask for; whether
        a restart was asked for is returned. */
    method PollPauseMenu(screenEvents: seq<string>, now: int) returns (restarted: bool)
      requires Valid()
      modifies bus, this`state
      ensures Valid()
      ensures state == (if Raised(old(bus.events), screenEvents, ClosePauseMenu) then Playing else old(state))
      ensures restarted <==> Raised(old(bus.events), screenEvents, Events.Restart)
      ensures !Pending(bus.events, ClosePauseMenu) && !Pending(bus.events, Events.Restart)
    {
      ghost var valid := Valid();
      var resumed;
      resumed, restarted := FireAndPollTwo(bus, screenEvents, now, ClosePauseMenu, Events.Restart);
      if resumed {
        SetState(Playing);
      }
      ScreensMoved(valid);
    }

    /** `UpdateFishSelect`: the fish select reads `menu`; once it is
        closed the scene returns to the screen that opened it, the player
        is reset with the selected fish, and the end screen's notification
        is brought up to date. */
    method UpdateFishSelect(menu: Menus.MenuInput, now: int, spriteWidth: int, spriteHeight: int)
      requires Valid() && state == FishSelect
      modifies fishSelect`currentFish, save.notifications, save`currentFish, bus, this`state,
               player`size, player`position, player`targetPosition, player`fishEaten,
               player`collisionBoxOffset, player`collisionBox, collisions`boxes, endScreen`showNotification
      ensures Valid()
      ensures state == (if Pending(old(bus.events), CloseFishSelect) || Menus.ClosesFishSelect(menu)
                        then old(lastState) else FishSelect)
      ensures state != FishSelect ==>
                player.size == 1 && player.fishEaten == 0 && player.position == player.initialPosition &&
                (endScreen.showNotification <==> true in save.notifications[..])
      ensures !Pending(bus.events, CloseFishSelect)
    {
      var closed := ChooseFish(menu, now);
      if closed {
        LeaveFishSelect(spriteWidth, spriteHeight);
      }
    }

    /** The fish select's own update, then the poll for its closing. */
    method ChooseFish(menu: Menus.MenuInput, now: int) returns (closed: bool)
      requires Valid()
      modifies fishSelect`currentFish, save.notifications, save`currentFish, bus
      ensures Valid()
      ensures closed <==> Pending(old(bus.events), CloseFishSelect) || Menus.ClosesFishSelect(menu)
      ensures !Pending(bus.events, CloseFishSelect)
    {
      ghost var valid := Valid();
      closed := SelectAndPoll(fishSelect, menu, now);
      ScreensMoved(valid);
    }

    /** The closing branch of `UpdateFishSelect`. */
    method LeaveFishSelect(spriteWidth: int, spriteHeight: int)
      requires Valid()
      modifies this`state, player`size, player`position, player`targetPosition, player`fishEaten,
               player`collisionBoxOffset, player`collisionBox, collisions`boxes, endScreen`showNotification
      ensures Valid()
      ensures state == lastState
      ensures player.size == 1 && player.fishEaten == 0 && player.position == player.initialPosition
      ensures endScreen.showNotification <==> true in save.notifications[..]
    {
      SetState(lastState);
      ResetPlayer(spriteWidth, spriteHeight);
      endScreen.UpdateNotifications();
    }

    /** `UpdateEnd`: the end screen reads `menu` and its buttons fire
        their events (`selected`); an `OpenFishSelect` event opens the fish
        select, and a `Restart` event then restarts the session. Both are
        taken off the bus. */
    method UpdateEnd(menu: Menus.MenuInput, resolutions: seq<string>, now: int, spriteWidth: int, spriteHeight: int)
      returns (selected: seq<Menus.ButtonKind>)
      requires Valid() && state == End && |resolutions| > 0
      modifies endScreen, endScreen.optionsMenu, save`musicVolume, save`soundVolume,
               endScreen.optionsMenu.graphics`resolution, endScreen.optionsMenu.graphics`screenSize, bus,
               this`lastState, this`state, this`fish, collisions`boxes, this`bubbles,
               BubbleAreas(bubbles)`enteredHandler, areas`areas, bubbles`burstSubscribed,
               player`size, player`position, player`targetPosition, player`fishEaten,
               player`collisionBoxOffset, player`collisionBox,
               this`bubblesBurst, this`doublePoints, this`points, this`currentScale, this`fishToNextScale
      ensures Valid()
      ensures state == End || state == FishSelect || state == Playing
      ensures state == FishSelect ==> lastState == End
      ensures state == Playing ==> fish == [] && bubbles == [] && CurrentScore() == StartScore()
      ensures !old(endScreen.showingOptions) ==>
                state == (if Raised(old(bus.events), Menus.EventsOf(selected), Events.Restart) then Playing
                          else if Raised(old(bus.events), Menus.EventsOf(selected), OpenFishSelect) then FishSelect
                          else End)
    {
      var selecting, restarting;
      selected, selecting, restarting := EndScreenStep(menu, resolutions, now);
      if selecting {
        OpenFishSelectFrom();
      }
      if restarting {
        Restart(spriteWidth, spriteHeight);
      }
    }

    /** The end screen's own update, then the two polls. */
    method EndScreenStep(menu: Menus.MenuInput, resolutions: seq<string>, now: int)
      returns (selected: seq<Menus.ButtonKind>, selecting: bool, restarting: bool)
      requires Valid() && |resolutions| > 0
      modifies endScreen, endScreen.optionsMenu, save`musicVolume, save`soundVolume,
               endScreen.optionsMenu.graphics`resolution, endScreen.optionsMenu.graphics`screenSize, bus
      ensures Valid()
      ensures !old(endScreen.showingOptions) ==>
                (selecting <==> Raised(old(bus.events), Menus.EventsOf(selected), OpenFishSelect)) &&
                (restarting <==> Raised(old(bus.events), Menus.EventsOf(selected), Events.Restart))
      ensures !Pending(bus.events, OpenFishSelect) && !Pending(bus.events, Events.Restart)
    {
      ghost var valid := Valid();
      selected, selecting, restarting := EndScreenAndPoll(endScreen, menu, resolutions, now);
      ScreensMoved(valid);
    }
  }
}
