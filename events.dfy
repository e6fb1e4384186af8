/**
 * The event bus: a list of named, time-stamped events that screens fire and
 * the scene polls. Polling an event removes every event of that name, and
 * events older than one second are dropped on every frame.
 *
 * `DateTime.Now` is an explicit clock in milliseconds passed to the methods
 * that read it.
 */
module Events {

  // The event names the game uses.
  const CloseGame: string := "CloseGame"
  const ClosePauseMenu: string := "ClosePauseMenu"
  const CloseOptionsMenu: string := "CloseOptionsMenu"
  const Restart: string := "Restart"
  const OpenFishSelect: string := "OpenFishSelect"
  const CloseFishSelect: string := "CloseFishSelect"
  const GameOver: string := "GameOver"

  /** How old (in ms) an event may be and still survive `Update`. */
  const ExpiryMs: int := 1000

  /** A fired event. Events are objects: two events with the same name and
      time are still different events, and removal goes by identity. */
  class GameEvent {
    const name: string
    const timeTriggered: int

    constructor (name: string, timeTriggered: int)
      ensures this.name == name && this.timeTriggered == timeTriggered
    {
      this.name := name;
      this.timeTriggered := timeTriggered;
    }
  }

  /** The two filters the manager applies to its list. */
  datatype Criterion =
    | NameIs(name: string)        // HasEventFiredThenKill
    | TriggeredBefore(cutoff: int) // Update's expiry test

  predicate Matches(c: Criterion, e: GameEvent)
  {
    match c
    case NameIs(n) => e.name == n
    case TriggeredBefore(t) => e.timeTriggered < t
  }

  /** `Where(c).ToList()`: the matching events, in list order. */
  function Select(s: seq<GameEvent>, c: Criterion): (r: seq<GameEvent>)
    ensures |r| <= |s|
    ensures forall e :: e in r ==> e in s && Matches(c, e)
  {
    if s == [] then []
    else (if Matches(c, s[0]) then [s[0]] else []) + Select(s[1..], c)
  }

  /** The events that do not match, in list order. */
  function Reject(s: seq<GameEvent>, c: Criterion): (r: seq<GameEvent>)
    ensures |r| <= |s|
    ensures forall e :: e in r ==> e in s && !Matches(c, e)
  {
    if s == [] then []
    else (if Matches(c, s[0]) then [] else [s[0]]) + Reject(s[1..], c)
  }

  /** `List.Remove(x)`: drops the first occurrence of `x`, if any. */
  function RemoveFirst(s: seq<GameEvent>, x: GameEvent): (r: seq<GameEvent>)
    ensures x in s ==> |r| == |s| - 1
    ensures x !in s ==> r == s
  {
    if s == [] then []
    else if s[0] == x then s[1..]
    else [s[0]] + RemoveFirst(s[1..], x)
  }

  /** `s` with its first `k` matching events removed: the list after the
      removal loop has handled `k` entries of `Select(s, c)`. */
  function DropSelected(s: seq<GameEvent>, c: Criterion, k: nat): seq<GameEvent>
  {
    if k == 0 || s == [] then s
    else if Matches(c, s[0]) then DropSelected(s[1..], c, k - 1)
    else [s[0]] + DropSelected(s[1..], c, k)
  }

  /** `after` is `before` with events named `names`, in that order and all
      stamped `now`, appended at the end. */
  predicate Appended(before: seq<GameEvent>, after: seq<GameEvent>, names: seq<string>, now: int)
  {
    |after| == |before| + |names| && after[..|before|] == before &&
    forall i :: 0 <= i < |names| ==> after[|before| + i].name == names[i] && after[|before| + i].timeTriggered == now
  }

  /** Two rounds of appending are one. */
  lemma AppendedThen(a: seq<GameEvent>, b: seq<GameEvent>, c: seq<GameEvent>, m: seq<string>, n: seq<string>, now: int)
    requires Appended(a, b, m, now) && Appended(b, c, n, now)
    ensures Appended(a, c, m + n, now)
  {
    assert c[..|a|] == c[..|b|][..|a|];
    forall i | 0 <= i < |m + n|
      ensures c[|a| + i].name == (m + n)[i] && c[|a| + i].timeTriggered == now
    {
      if i < |m| {
        assert c[|a| + i] == c[..|b|][|a| + i] == b[|a| + i];
      } else {
        assert c[|a| + i] == c[|b| + (i - |m|)];
      }
    }
  }

  /** The bus. `notified` records every call of the `OnEventFired` handler. */
  class EventManager {
    var events: seq<GameEvent>
    var notified: seq<GameEvent>

    constructor ()
      ensures events == [] && notified == []
    {
      events := [];
      notified := [];
    }

    /** Appends a new event stamped with `now`, then notifies the handler. */
    method FireEvent(eventName: string, now: int)
      modifies this
      ensures |events| == |old(events)| + 1 && events[..|old(events)|] == old(events)
      ensures fresh(events[|events| - 1])
      ensures events[|events| - 1].name == eventName
      ensures events[|events| - 1].timeTriggered == now
      ensures notified == old(notified) + [events[|events| - 1]]
      ensures Appended(old(events), events, [eventName], now)
    {
      var newEvent := new GameEvent(eventName, now);
      events := events + [newEvent];
      notified := notified + [newEvent];
    }

    /** True when an event of that name is pending; all such events are removed. */
    method HasEventFiredThenKill(eventName: string) returns (fired: bool)
      modifies this
      ensures fired <==> exists e :: e in old(events) && e.name == eventName
      ensures events == Reject(old(events), NameIs(eventName))
      ensures notified == old(notified)
    {
      fired := false;
      var matching := Collect(NameIs(eventName));
      if |matching| > 0 {
        fired := true;
        assert matching[0] in matching;
        RemoveEach(matching, NameIs(eventName));
      } else {
        NothingSelectedNothingRejected(events, NameIs(eventName));
        NothingSelectedNoneMatch(events, NameIs(eventName));
      }
    }

    /** Drops every event triggered more than a second before `now`. */
    method Update(now: int)
      modifies this
      ensures events == Reject(old(events), TriggeredBefore(now - ExpiryMs))
      ensures notified == old(notified)
    {
      var expired := Collect(TriggeredBefore(now - ExpiryMs));
      RemoveEach(expired, TriggeredBefore(now - ExpiryMs));
    }

    /** The first loop of both polls: gathers the matching events. */
    method Collect(c: Criterion) returns (matching: seq<GameEvent>)
      ensures matching == Select(events, c)
    {
      matching := [];
      var i := 0;
      while i < |events|
        invariant 0 <= i <= |events|
        invariant matching == Select(events[..i], c)
      {
        SelectAppend(events[..i], [events[i]], c);
        assert events[..i + 1] == events[..i] + [events[i]];
        if Matches(c, events[i]) {
          matching := matching + [events[i]];
        }
        i := i + 1;
      }
      assert events[..i] == events;
    }

    /** The second loop of both polls: removes each gathered event in turn. */
    method RemoveEach(matching: seq<GameEvent>, ghost c: Criterion)
      requires matching == Select(events, c)
      modifies this
      ensures events == Reject(old(events), c)
      ensures notified == old(notified)
    {
      events := RemoveEachFrom(events, matching, c);
    }
  }

  /** `Initialise`: the static slot holding the one manager. */
  class EventManagerSlot {
    var instance: EventManager?

    constructor ()
      ensures instance == null
    {
      instance := null;
    }

    method Initialise() returns (m: EventManager)
      modifies this
      ensures old(instance) != null ==> m == old(instance)
      ensures old(instance) == null ==> fresh(m) && m.events == [] && m.notified == []
      ensures instance == m
    {
      if instance == null {
        instance := new EventManager();
      }
      m := instance;
    }
  }

  /** The loop of `RemoveEach` on the list itself: each gathered event is
      removed in turn. */
  method RemoveEachFrom(events: seq<GameEvent>, matching: seq<GameEvent>, ghost c: Criterion)
    returns (remaining: seq<GameEvent>)
    requires matching == Select(events, c)
    ensures remaining == Reject(events, c)
  {
    remaining := events;
    var j := 0;
    while j < |matching|
      invariant 0 <= j <= |matching|
      invariant remaining == DropSelected(events, c, j)
    {
      RemoveSelectedStep(events, c, j);
      remaining := RemoveFirst(remaining, matching[j]);
      j := j + 1;
    }
    DropAllSelected(events, c);
  }

  // ---------------------------------------------------------------------
  // Properties of the list operations

  lemma {:induction false} SelectAppend(s: seq<GameEvent>, t: seq<GameEvent>, c: Criterion)
    ensures Select(s + t, c) == Select(s, c) + Select(t, c)
  {
    if s != [] {
      var head := if Matches(c, s[0]) then [s[0]] else [];
      assert (s + t)[0] == s[0];
      assert (s + t)[1..] == s[1..] + t;
      assert Select(s + t, c) == head + Select(s[1..] + t, c);
      SelectAppend(s[1..], t, c);
      assert Select(s, c) == head + Select(s[1..], c);
    } else {
      assert s + t == t;
    }
  }

  /** Every matching event of the list is selected. */
  lemma {:induction false} SelectComplete(s: seq<GameEvent>, c: Criterion, e: GameEvent)
    requires e in s && Matches(c, e)
    ensures e in Select(s, c)
  {
    if s[0] != e {
      SelectComplete(s[1..], c, e);
    }
  }

  /** An event survives the filter exactly when it is in the list and does not match. */
  lemma {:induction false} RejectMembership(s: seq<GameEvent>, c: Criterion, e: GameEvent)
    ensures e in Reject(s, c) <==> e in s && !Matches(c, e)
  {
    if s != [] {
      RejectMembership(s[1..], c, e);
    }
  }

  lemma {:induction false} NothingSelectedNoneMatch(s: seq<GameEvent>, c: Criterion)
    requires Select(s, c) == []
    ensures forall e :: e in s ==> !Matches(c, e)
  {
    if s != [] {
      NothingSelectedNoneMatch(s[1..], c);
    }
  }

  lemma {:induction false} NothingSelectedNothingRejected(s: seq<GameEvent>, c: Criterion)
    requires Select(s, c) == []
    ensures Reject(s, c) == s
  {
    if s != [] {
      NothingSelectedNothingRejected(s[1..], c);
    }
  }

  lemma RemoveFirstCons(a: GameEvent, d: seq<GameEvent>, x: GameEvent)
    requires x != a
    ensures RemoveFirst([a] + d, x) == [a] + RemoveFirst(d, x)
  {
    assert ([a] + d)[0] == a && ([a] + d)[1..] == d;
  }

  /** Removing the k-th selected event (by identity) from the list whose first
      k selected events are already gone removes the next one. */
  lemma {:induction false} RemoveSelectedStep(s: seq<GameEvent>, c: Criterion, k: nat)
    requires k < |Select(s, c)|
    ensures RemoveFirst(DropSelected(s, c, k), Select(s, c)[k]) == DropSelected(s, c, k + 1)
    decreases |s|, 1
  {
    assert s != [];
    if !Matches(c, s[0]) {
      RemoveSelectedSkipping(s, c, k);
    } else if k == 0 {
      SelectMatchingHead(s, c);
      RemoveSelectedHead(s, c);
    } else {
      RemoveSelectedMatching(s, c, k);
    }
  }

  /** The step when the list starts with a selected event and an earlier
      one is the next to go. */
  lemma {:induction false} RemoveSelectedMatching(s: seq<GameEvent>, c: Criterion, k: nat)
    requires 0 < k < |Select(s, c)| && s != [] && Matches(c, s[0])
    ensures RemoveFirst(DropSelected(s, c, k), Select(s, c)[k]) == DropSelected(s, c, k + 1)
    decreases |s|, 0
  {
    SelectMatchingLater(s, c, k);
    DropSelectedMatching(s, c, k);
    DropSelectedMatching(s, c, k + 1);
    RemoveSelectedStep(s[1..], c, k - 1);
  }

  /** The `k`-th selected event of a list that starts with a selected one
      is the `k - 1`-th of the rest. */
  lemma SelectMatchingLater(s: seq<GameEvent>, c: Criterion, k: nat)
    requires 0 < k < |Select(s, c)| && s != [] && Matches(c, s[0])
    ensures k - 1 < |Select(s[1..], c)| && Select(s, c)[k] == Select(s[1..], c)[k - 1]
  {
    SelectMatchingHead(s, c);
  }

  /** Dropping `k > 0` selected events from a list that starts with one
      drops that head and `k - 1` from the rest. */
  lemma DropSelectedMatching(s: seq<GameEvent>, c: Criterion, k: nat)
    requires k > 0 && s != [] && Matches(c, s[0])
    ensures DropSelected(s, c, k) == DropSelected(s[1..], c, k - 1)
  {
  }

  /** Removing the first selected event from a list that starts with it
      drops that head. */
  lemma RemoveSelectedHead(s: seq<GameEvent>, c: Criterion)
    requires s != [] && Matches(c, s[0])
    ensures RemoveFirst(s, s[0]) == DropSelected(s, c, 1)
  {
    assert DropSelected(s, c, 1) == DropSelected(s[1..], c, 0);
  }

  lemma SelectMatchingHead(s: seq<GameEvent>, c: Criterion)
    requires s != [] && Matches(c, s[0])
    ensures Select(s, c) == [s[0]] + Select(s[1..], c)
  {
  }

  /** The step when the list starts with an event that is not selected. */
  lemma {:induction false} RemoveSelectedSkipping(s: seq<GameEvent>, c: Criterion, k: nat)
    requires k < |Select(s, c)| && s != [] && !Matches(c, s[0])
    ensures RemoveFirst(DropSelected(s, c, k), Select(s, c)[k]) == DropSelected(s, c, k + 1)
    decreases |s|, 0
  {
    var a, t := s[0], s[1..];
    assert Select(s, c) == Select(t, c);
    var x := Select(t, c)[k];
    assert x in Select(t, c);
    RemoveFirstCons(a, DropSelected(t, c, k), x);
    RemoveSelectedStep(t, c, k);
  }

  /** Dropping every selected event leaves exactly the rejected ones. */
  lemma {:induction false} DropAllSelected(s: seq<GameEvent>, c: Criterion)
    ensures DropSelected(s, c, |Select(s, c)|) == Reject(s, c)
  {
    if s != [] {
      var t := s[1..];
      DropAllSelected(t, c);
      if Matches(c, s[0]) {
        assert Select(s, c) == [s[0]] + Select(t, c);
        assert Reject(s, c) == [] + Reject(t, c);
      } else {
        assert Select(s, c) == [] + Select(t, c);
        assert Reject(s, c) == [s[0]] + Reject(t, c);
        if |Select(t, c)| == 0 {
          NothingSelectedNothingRejected(t, c);
        }
      }
    }
  }

  /** Polling a name twice with no fire in between: the second poll finds nothing. */
  lemma {:induction false} SecondKillFindsNothing(s: seq<GameEvent>, n: string)
    ensures Select(Reject(s, NameIs(n)), NameIs(n)) == []
  {
    if s != [] {
      var rest := Reject(s[1..], NameIs(n));
      SecondKillFindsNothing(s[1..], n);
      if s[0].name != n {
        var r := [s[0]] + rest;
        assert Reject(s, NameIs(n)) == r;
        assert r[0] == s[0] && r[1..] == rest;
        assert Select(r, NameIs(n)) == [] + Select(rest, NameIs(n));
      } else {
        assert Reject(s, NameIs(n)) == [] + rest == rest;
      }
    }
  }

  /** A fired event is found by a poll of its name. */
  lemma FiredEventIsFound(s: seq<GameEvent>, e: GameEvent)
    ensures Select(s + [e], NameIs(e.name)) != []
  {
    SelectComplete(s + [e], NameIs(e.name), e);
  }

  /** An event survives `Update(now)` iff it is at most one second old; in
      particular an event exactly one second old survives. */
  lemma ExpirySurvivors(s: seq<GameEvent>, now: int, e: GameEvent)
    ensures e in Reject(s, TriggeredBefore(now - ExpiryMs)) <==>
            e in s && now - e.timeTriggered <= 1000
  {
    RejectMembership(s, TriggeredBefore(now - ExpiryMs), e);
  }
}
