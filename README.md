# Commute, modelled in Dafny

Commute is a small MonoGame arcade game. The player steers a fish
through a stream of other fish. Smaller fish are eaten for points, and a
bigger one ends the session. Every so many meals the player grows to a
new scale. Bursting bubbles earns double points for a while. This
project models the integer game logic under the rendering and proves
what that logic promises.

The modules follow the program's own structure:

- `Geometry`: `Rectangle` overlap and the `(int)` truncation of positions.
- `Objects`: fish, the player and bubbles, with the collision and
  trigger-area managers they register with. The managers' queues and
  registries are class fields that methods update in place. Each
  manager's `Update` is a nested loop, proved against a specification
  function over the queue and the registry.
- `BoundsProperties`: what those scans guarantee. Every hit is a real
  overlap. An object that was never queued is never hit. Area memberships
  never hold duplicates, and enter and exit events alternate for every
  area and object.
- `Events`: the event bus. Events are named and stamped with a time.
  Polling a name removes every event of that name, and events older than
  a second expire.
- `Scoring`, `Scales` and `Unlocks`: points, the scale table, the burst
  counter and double points timer, the spawn plan, and the unlock rules.
- `Save`: the save record's defaults and the `"WxH"` resolution text,
  with its round trip through the platform's format.
- `Menus`: the options menu, the fish select and the end screen.
- `Input` and `Devices`: pressed and held edges with capture, and the
  joystick and touch predicates over device snapshots.
- `Localisation` and `Ads`: the string lookup with its fallback, and the
  advert throttle counter.
- `Scenes`: `MainScene`, the five-state machine holding the score, the
  fish and bubble lists, and their handlers.

Frame inputs become parameters of the update methods: random draws, the
clock in milliseconds, the elapsed time, device snapshots, the events
fired by the title screen and pause menu, and the positions the float
movement code computes. C# events become either direct calls to the
scene's handlers or logs that the scene replays after each manager runs.

## Model

| member | source | states |
|---|---|---|
| Geometry.Truncate | Commute/Objects/Bounds/CollisionBox.cs:58-59 | the `(int)` cast truncates toward zero: a non-negative value maps to its floor, a negative one to its ceiling |
| Geometry.IntersectsSymmetric | Commute/Objects/Bounds/CollisionBox.cs:75 | the overlap test of a box and an object's box gives the same answer either way round |
| Geometry.TouchingEdgesDoNotIntersect | Commute/Objects/Bounds/CollisionBox.cs:75 | rectangles that only share a vertical edge do not overlap, in either order |
| Geometry.SelfIntersection | Commute/Objects/Bounds/CollisionBox.cs:75 | a rectangle overlaps itself exactly when its width and height are positive |
| Geometry.IntersectsIffCommonPoint | Commute/Objects/Bounds/CollisionBox.cs:75 | two rectangles of positive size overlap exactly when some integer point lies in both |
| Geometry.EmptyRectangleCanIntersect | Commute/Objects/Bounds/CollisionBox.cs:75 | the edge test lets a zero-width rectangle, which holds no point, overlap a wider one around it |
| Geometry.TruncateOfInteger | Commute/Objects/Bounds/CollisionBox.cs:58-59 | moving to a whole-number position puts the box exactly there |
| Geometry.MovedToKeepsSize | Commute/Objects/Bounds/CollisionBox.cs:56-60 | a move sets only X and Y, to the truncated position, and keeps width and height |
| Scales.GetFishToEat | Commute/Scales.cs:15-24 | the count lies between 10 and 720, and a scale missing from the table needs the default 720 |
| Scales.TableDomain | Commute/Scales.cs:29-41 | exactly the scales 1 to 10 are in the table |
| Scales.OutsideTableIsDefault | Commute/Scales.cs:18-21 | every scale outside 1..10, zero and negatives included, needs 720 |
| Scales.TableIsFibonacciLike | Commute/Scales.cs:29-41 | from scale 3 to 10 each entry is the sum of the two before it |
| Scales.StepNonDecreasing | Commute/Scales.cs:18-41 | one scale up never needs fewer fish |
| Scales.NonDecreasing | Commute/Scales.cs:18-41 | for scales from 1 up, the count never decreases as the scale grows |
| Ads.AdManager.constructor | CommuteAndroid/Ads/AdManager.cs:19-29 | the counter starts at 0, no ad is loaded, no handler exists and nothing has been shown |
| Ads.AdManager.ShowAd | CommuteAndroid/Ads/AdManager.cs:49-63 | the counter goes up by one; an ad is shown exactly when the raised counter is at least 2 and an ad and its handler are present; a show sets the counter to -1 and clears the loaded flag; otherwise only the counter changes |
| Ads.NoAdForTwoRequestsAfterShow | CommuteAndroid/Ads/AdManager.cs:52-58 | the two requests after a show never show an ad, and the third can |
| Ads.NoAdWithoutLoad | CommuteAndroid/Ads/AdManager.cs:55 | no ad is shown while none is loaded |
| Scoring.StartScore | Commute/Scenes/MainScene.cs:172-173 | a session starts at scale 1, no points, and the table's count for scale 1 still to eat; that score is valid |
| Scoring.AfterEating | Commute/Scenes/MainScene.cs:653-683 | an eaten fish adds 10 points, or 50 under double points; the count to the next scale goes down by one; when it reaches 0 the scale goes up by one and the count restarts from the table; a valid score stays valid |
| Scoring.PointsAfterEatingMany | Commute/Scenes/MainScene.cs:660-667 | with double points fixed, `k` eaten fish add `k` times the same points |
| Scoring.CountDown | Commute/Scenes/MainScene.cs:658-670 | eating fewer fish than still needed leaves the scale alone and counts down by that many |
| Scoring.EatingManyValid | Commute/Scenes/MainScene.cs:653-683 | however many fish are eaten, the scale stays positive and the count to the next scale stays between 1 and the table's entry |
| Scoring.EatingLast | Commute/Scenes/MainScene.cs:653-683 | eating `k + 1` fish is eating one more after the first `k` |
| Scoring.ScaleUp | Commute/Scenes/MainScene.cs:670-682 | eating exactly the fish still needed moves up one scale, and the count restarts from the table |
| Scoring.FirstScaleUp | Commute/Scenes/MainScene.cs:653-683 | a new session reaches scale 2 after ten fish and then needs fifteen |
| Scoring.AfterBurst | Commute/Scenes/MainScene.cs:514-543 | under double points a burst adds 500 ms and leaves the counter; otherwise the counter goes up, and at 10 it returns to 0 and double points starts for 10000 ms; the counter stays in 0..9 |
| Scoring.BurstsCount | Commute/Scenes/MainScene.cs:526-530 | with double points off, bursts short of the tenth only count |
| Scoring.TenthBurstDoubles | Commute/Scenes/MainScene.cs:532-541 | with double points off, the burst that completes ten resets the counter and starts 10000 ms of double points |
| Scoring.DoublePointsAfterFrame | Commute/Scenes/MainScene.cs:592-601 | a running timer goes down by the frame's elapsed time; a timer that has run out is set to 0 |
| Scoring.Tier | Commute/Scenes/MainScene.cs:481 | the tier of a scale is its remainder by 7 with 0 read as 7: it lies in 1..7 and differs from the scale by a multiple of 7 |
| Scoring.TierHasMetadata | Commute/Scenes/MainScene.cs:481 | `First` over the fish table always finds an entry for a tier, and it is the tier's own entry |
| Scoring.SpawnedSizes | Commute/Scenes/MainScene.cs:481-484 | a fish of the current tier spawns at the tier's size, and one drawn from the next tier spawns one size bigger, because both are built with the current scale |
| Scoring.SpawnPlan | Commute/Scenes/MainScene.cs:465-478 | the fish comes from one scale up exactly when the draw is above 95 and fewer than 5 big fish are counted, and then the count goes up by one; otherwise the scale and the count stay; the count stays below 6 |
| Scoring.SpawnX | Commute/Scenes/MainScene.cs:482 | a new fish starts 300 pixels off the left or right edge of the screen |
| Scoring.QuartersAfterKills | Commute/Scenes/MainScene.cs:567-574 | each removed fish takes a quarter off the big fish count while it is positive: a non-negative count ends at its value less the kills, or 0 |
| Scoring.QuartersKillFirst | Commute/Scenes/MainScene.cs:567-574 | taking the first quarter off before the other kills ends where taking it off after them does |
| Text.IntToString | CommuteGL/Platforms/ItchPlatform.cs:289-293 | `ToString` of an integer: a leading minus exactly for negatives, digits otherwise |
| Text.ParseInt | Commute/Save/GraphicsSettings.cs:23-28 | `int.Parse` succeeds only with a 32-bit value, and text that is empty or all white space is a format error |
| Text.ParseUnsigned | Commute/Save/GraphicsSettings.cs:23-28 | the digits after the sign parse only if there is at least one and all are digits; the value carries the sign and fits in 32 bits, else it is an overflow |
| Text.IndexOf | Commute/Save/GraphicsSettings.cs:23 | `IndexOf` gives -1 exactly when the character is absent, and otherwise the position of its first occurrence |
| Text.FirstOccurrence | Commute/Save/GraphicsSettings.cs:23 | any position holding the character with no earlier occurrence is the one `IndexOf` finds |
| Text.Prefix | Commute/Save/GraphicsSettings.cs:23 | `Substring(0, n)` succeeds exactly for a non-negative length and gives the first `n` characters |
| Text.FormatOne | Commute/UI/FishSelect.cs:232 | `string.Format` with one argument leaves a template without braces as it is |
| Text.FormatOneEscapes | Commute/UI/FishSelect.cs:232 | a doubled brace formats as one brace |
| Text.ParseIntToString | CommuteGL/Platforms/ItchPlatform.cs:289-293 | every 32-bit integer, formatted, parses back to itself |
| Text.ParseIgnoresLeadingWhite | Commute/Save/GraphicsSettings.cs:28 | white space before the number does not change what `int.Parse` reads |
| Text.ParseRejectsLetter | Commute/Save/GraphicsSettings.cs:28 | digits with an `x` between them are a format error, as when a resolution with no separator is read whole |
| Text.TrimOfUnpadded | Commute/Save/GraphicsSettings.cs:23-28 | text without surrounding white space is read as it is |
| Localisation.StringLibrary.constructor | Commute/Localisation/StringLibrary.cs:24-29 | the dictionary is a copy of the built-in strings |
| Localisation.StringLibrary.GetString | Commute/Localisation/StringLibrary.cs:47-58 | a key in the dictionary gives its value; otherwise the built-in strings are tried; the result is null exactly when neither has the key |
| Localisation.StringLibrarySlot.Initialise | Commute/Localisation/StringLibrary.cs:34-40 | the library is built on the first call only; later calls keep the same instance |
| Localisation.InitialisedLookup | Commute/Localisation/StringLibrary.cs:47-67 | once built, every lookup agrees with the built-in strings, and a key missing from them gives null |
| Localisation.UnlockScaleText | Commute/UI/FishSelect.cs:232 | the scale condition reads "Get to Size " followed by the argument |
| Localisation.UnlockEatText | Commute/UI/FishSelect.cs:237 | the eating condition reads "Eat a total of ", the argument, then " Fish" |
| Localisation.UnlockPointsText | Commute/UI/FishSelect.cs:242 | the points condition reads "Earn ", the argument, then " Points in one session" |
| Localisation.FormatPrefix | Commute/UI/FishSelect.cs:232-242 | text around a single placeholder is copied through and the placeholder becomes the argument |
| Save.GameSaveData.constructor | Commute/Save/GameSaveData.cs:41-80 | both flag arrays hold 7 entries; both volumes are 7, inside 0..10; the totals, bests and current fish are 0; only the first fish is unlocked and no notification is set |
| Save.GraphicsSettings.ResolutionWidth | Commute/Save/GraphicsSettings.cs:23 | the width is the integer before the first `x`; with no `x` the substring call fails |
| Save.GraphicsSettings.ResolutionHeight | Commute/Save/GraphicsSettings.cs:28 | the height is the integer after the first `x`; with no `x` the whole text is parsed |
| Save.AfterFirst | Commute/Save/GraphicsSettings.cs:28 | the text after the first occurrence, and the whole text when there is none |
| Save.FullscreenExcludesBorderless | Commute/Save/GraphicsSettings.cs:13-18 | the screen is never both fullscreen and borderless |
| Save.SeparatorOfFormat | CommuteGL/Platforms/ItchPlatform.cs:289-293 | in `"{0}x{1}"` text the first `x` comes right after the width, and the height follows it |
| Save.ResolutionRoundTrip | Commute/Save/GraphicsSettings.cs:23-28 | for 32-bit width and height, the platform's `"{0}x{1}"` text parses back to both |
| Save.NoSeparatorNoWidth | Commute/Save/GraphicsSettings.cs:23 | a resolution without an `x` has no width |
| Unlocks.Unlock | Commute/Objects/UnlockableFish.cs:17-50 | every entry is unlocked after the call if it was before or one of its thresholds is met; a notification is raised exactly for a locked entry whose threshold is met; the others keep their flags |
| Unlocks.UnlockFlags | Commute/Objects/UnlockableFish.cs:23-47 | an already unlocked entry keeps both flags; a locked one is unlocked exactly when a positive threshold is met (saved total eaten, scale or points), and its notification goes up with it |
| Unlocks.UnlockNeverLocks | Commute/Objects/UnlockableFish.cs:17-50 | no unlocked entry is locked again |
| Unlocks.GreyFishHasNoThreshold | Commute/Objects/UnlockableFish.cs:57-64 | the first fish's thresholds are all zero, so `Unlock` never unlocks it |
| Unlocks.UnlockIdempotent | Commute/Objects/UnlockableFish.cs:17-50 | a second call with the same arguments changes neither array |
| Unlocks.FirstWithBaseScale | Commute/Scenes/MainScene.cs:481 | `First` finds an entry of the wanted base scale, and fails exactly when the table has none |
| Unlocks.BaseScaleIsPosition | Commute/Objects/UnlockableFish.cs:55-113 | entry `i` has base scale `i + 1`, and the table has as many entries as the save data has flags |
| Unlocks.FirstFindsEarliest | Commute/Scenes/MainScene.cs:481 | `First` returns the earliest entry with the wanted base scale |
| Unlocks.LookupByTier | Commute/Scenes/MainScene.cs:481 | the lookup for tier `t` finds entry `t - 1` |
| Events.Select | Commute/Events/EventManager.cs:87-88 | `Where(..).ToList()` keeps only matching events of the list, and is never longer than it |
| Events.Reject | Commute/Events/EventManager.cs:96-99 | what the removal loops leave: only events of the list that do not match |
| Events.RemoveFirst | Commute/Events/EventManager.cs:98 | `List.Remove` drops one element when it is present and changes nothing otherwise |
| Events.GameEvent.constructor | Commute/Events/EventManager.cs:64-68 | a new event carries the given name and time |
| Events.EventManager.constructor | Commute/Events/EventManager.cs:36-41 | a new bus holds no events |
| Events.EventManager.FireEvent | Commute/Events/EventManager.cs:61-75 | exactly one new event, with the given name and time, is appended at the end and passed to the handler; the earlier events stay in order |
| Events.EventManager.HasEventFiredThenKill | Commute/Events/EventManager.cs:82-103 | the answer is true exactly when an event of that name is pending; afterwards none is, and the other events remain in order |
| Events.EventManager.Update | Commute/Events/EventManager.cs:108-129 | exactly the events triggered more than a second before `now` are removed; the rest remain in order |
| Events.EventManager.Collect | Commute/Events/EventManager.cs:87-88 | the first loop gathers exactly the matching events, in list order |
| Events.EventManager.RemoveEach | Commute/Events/EventManager.cs:96-99 | removing each gathered event by identity leaves exactly the events that do not match |
| Events.RemoveEachFrom | Commute/Events/EventManager.cs:125-128 | removing each gathered event in turn from the list leaves exactly the events that do not match |
| Events.EventManagerSlot.Initialise | Commute/Events/EventManager.cs:47-55 | the bus is made on the first call only; later calls return the same instance |
| Events.SelectAppend | Commute/Events/EventManager.cs:87-88 | gathering over two lists one after the other is gathering over each |
| Events.SelectComplete | Commute/Events/EventManager.cs:87-88 | every matching event of the list is gathered |
| Events.RejectMembership | Commute/Events/EventManager.cs:96-99 | an event survives exactly when it was in the list and does not match |
| Events.NothingSelectedNoneMatch | Commute/Events/EventManager.cs:91 | when nothing is gathered, no event of the list matches |
| Events.NothingSelectedNothingRejected | Commute/Events/EventManager.cs:91-100 | when nothing is gathered, the list is left as it is |
| Events.RemoveSelectedStep | Commute/Events/EventManager.cs:96-99 | removing the next gathered event from the list whose earlier matches are gone removes that one match |
| Events.DropAllSelected | Commute/Events/EventManager.cs:96-99 | once every gathered event is removed, exactly the non-matching events are left |
| Events.SecondKillFindsNothing | Commute/Events/EventManager.cs:82-103 | a second poll of the same name with no fire in between finds nothing |
| Events.FiredEventIsFound | Commute/Events/EventManager.cs:71-88 | an event just fired is found by a poll of its name |
| Events.ExpirySurvivors | Commute/Events/EventManager.cs:118 | an event survives `Update` exactly when it is at most one second old, so one exactly a second old survives |
| Events.AppendedThen | Commute/Events/EventManager.cs:61-75 | two rounds of fires at the same time append the names of both rounds, in order |
| Objects.CsDiv | Commute/Objects/Fish.cs:142 | C# integer division truncates toward zero: it agrees with Euclidean division on non-negative values and is the negated quotient of the negation otherwise |
| Objects.CsRem | Commute/Objects/Fish.cs:107 | C# `%` keeps the dividend's sign: quotient times divisor plus remainder gives back the dividend, the remainder lies in `[0, b)` for non-negative dividends and in `(-b, 0]` otherwise |
| Objects.RemoveOne | Commute/Objects/Bounds/CollisionManager.cs:77-80 | `List.Remove` takes out one occurrence: the multiset loses exactly one copy of the element, and a list without it is unchanged |
| Objects.RemoveOneKeepsOthers | Commute/Objects/Bounds/TriggerArea.cs:108-111 | removing one object from a list leaves every other object's presence as it was |
| Objects.RemoveOneNoDuplicates | Commute/Objects/Bounds/TriggerArea.cs:108-111 | on a list without repeats, `Remove` keeps it without repeats and the object is then absent |
| Objects.AppendFresh | Commute/Objects/Bounds/TriggerArea.cs:95-98 | adding an object that is not yet listed keeps the list free of repeats |
| Objects.EatObject | Commute/Objects/Fish.cs:214-217 | eating marks the object eaten and changes nothing else about it |
| Objects.CollisionBox.constructor | Commute/Objects/Bounds/CollisionBox.cs:35-42 | a new box keeps its parent and rectangle and is appended to the registered boxes; the queue is untouched |
| Objects.CollisionBox.Dispose | Commute/Objects/Bounds/CollisionBox.cs:47-50 | disposing removes one occurrence of the box from the registered boxes |
| Objects.CollisionBox.Move | Commute/Objects/Bounds/CollisionBox.cs:56-60 | the box's corner goes to the truncated position; its size stays |
| Objects.Row | Commute/Objects/Bounds/CollisionManager.cs:94-101 | one queued object's hits are at most one per registered box and each names a registered box and that object |
| Objects.CollisionManager.constructor | Commute/Objects/Bounds/CollisionManager.cs:29-36 | a new manager has no boxes and an empty queue |
| Objects.CollisionManager.AddObjectToQueue | Commute/Objects/Bounds/CollisionManager.cs:59-62 | the object is appended to the queue; the boxes are untouched |
| Objects.CollisionManager.Register | Commute/Objects/Bounds/CollisionManager.cs:68-71 | the box is appended; the queue is untouched |
| Objects.CollisionManager.Deregister | Commute/Objects/Bounds/CollisionManager.cs:77-80 | one occurrence of the box is removed; the queue is untouched |
| Objects.CollisionManager.Update | Commute/Objects/Bounds/CollisionManager.cs:85-107 | the nested loops produce exactly the scan of every queued object against every box, in order; the boxes are kept and the queue is emptied |
| Objects.CollisionManagerSlot.Initialise | Commute/Objects/Bounds/CollisionManager.cs:42-50 | the first call creates an empty manager and stores it; later calls return the stored one |
| Objects.TriggerArea.constructor | Commute/Objects/Bounds/TriggerArea.cs:53-61 | a new area has its rectangle, no members and no handler, and is appended to the registered areas |
| Objects.TriggerArea.Dispose | Commute/Objects/Bounds/TriggerArea.cs:66-69 | disposing removes one occurrence of the area from the registered areas |
| Objects.TriggerArea.Move | Commute/Objects/Bounds/TriggerArea.cs:75-79 | the area's corner goes to the truncated position; members and handler stay |
| Objects.TriggerArea.IsObjectAlreadyInside | Commute/Objects/Bounds/TriggerArea.cs:86-89 | the object is a member exactly when some position of the member list holds it |
| Objects.TriggerArea.Enter | Commute/Objects/Bounds/TriggerArea.cs:95-102 | the object is appended to the members |
| Objects.TriggerArea.Exit | Commute/Objects/Bounds/TriggerArea.cs:108-115 | one occurrence of the object is removed from the members |
| Objects.MembersAll | Commute/Objects/Bounds/TriggerAreaManager.cs:91-111 | the memberships of every area after a queue prefix, one per area |
| Objects.MembersSnoc | Commute/Objects/Bounds/TriggerAreaManager.cs:91-111 | one more queued object advances each area's membership by one enter/exit step |
| Objects.BoxRectsAt | Commute/Objects/Bounds/TriggerAreaManager.cs:97 | the rectangle read for a queued object is its collision box's rectangle |
| Objects.AreaRects | Commute/Objects/Bounds/TriggerAreaManager.cs:97 | one rectangle per area, each the area's own |
| Objects.Memberships | Commute/Objects/Bounds/TriggerAreaManager.cs:100 | one member list per area, each the area's own |
| Objects.TriggerAreaManager.constructor | Commute/Objects/Bounds/TriggerAreaManager.cs:29-36 | a new manager has no areas and an empty queue |
| Objects.TriggerAreaManager.AddObjectToQueue | Commute/Objects/Bounds/TriggerAreaManager.cs:59-62 | the object is appended to the queue; the areas are untouched |
| Objects.TriggerAreaManager.Register | Commute/Objects/Bounds/TriggerAreaManager.cs:68-71 | the area is appended; the queue is untouched |
| Objects.TriggerAreaManager.Deregister | Commute/Objects/Bounds/TriggerAreaManager.cs:77-80 | one occurrence of the area is removed; the queue is untouched |
| Objects.TriggerAreaManager.Update | Commute/Objects/Bounds/TriggerAreaManager.cs:85-116 | every area ends with the membership the enter/exit steps of the whole queue give, the transitions raised are exactly that scan's log, and the queue is emptied |
| Objects.TriggerAreaManager.Sweep | Commute/Objects/Bounds/TriggerAreaManager.cs:91-111 | the outer loop leaves each area at its membership after the whole queue and returns the whole log |
| Objects.TriggerAreaManager.Visit | Commute/Objects/Bounds/TriggerAreaManager.cs:94-110 | one queued object extends every area's membership and the log by one step |
| Objects.TriggerAreaManager.DiffArea | Commute/Objects/Bounds/TriggerAreaManager.cs:97-109 | an overlapping unlisted object enters, a non-overlapping listed one exits, nothing else happens; the list stays free of repeats |
| Objects.TriggerAreaManager.DiffRow | Commute/Objects/Bounds/TriggerAreaManager.cs:94-110 | the inner loop applies one step to every area and returns that object's row of the log |
| Objects.TriggerAreaManagerSlot.Initialise | Commute/Objects/Bounds/TriggerAreaManager.cs:42-50 | the first call creates an empty manager and stores it; later calls return the stored one |
| Objects.RescaledSize | Commute/Objects/Fish.cs:177-193 | a rescaled fish is one size smaller, or size 1, and never above the new tier (0 standing for 7) |
| Objects.Fish.constructor | Commute/Objects/Fish.cs:100-148 | a new fish takes the tier of the scale (a remainder of 0 meaning 7), one more when its metadata is a tier above, is not eaten, and registers a centred box at its position |
| Objects.Fish.Dispose | Commute/Objects/Fish.cs:152-155 | the box, if any, is deregistered |
| Objects.Fish.Collided | Commute/Objects/Fish.cs:161-171 | the other object is eaten exactly when it is strictly smaller |
| Objects.Fish.Eat | Commute/Objects/Fish.cs:214-217 | the fish is marked eaten |
| Objects.Fish.Rescale | Commute/Objects/Fish.cs:177-193 | the size becomes the rescaled size |
| Objects.Fish.Update | Commute/Objects/Fish.cs:223-258 | a bubble is requested at the old position exactly when the timer has run out and the draw is above 8, which resets the timer to 5000 ms; the fish and its box move |
| Objects.Fish.Move | Commute/Objects/Fish.cs:298-305 | the box goes to the position plus the offset |
| Objects.ClampToScreen | Commute/Objects/Player.cs:241-259 | the target ends inside the play area (x in `[0, 1920]`, y in `[140, 1080]`) and a coordinate already inside is kept |
| Objects.Player.constructor | Commute/Objects/Player.cs:45-60 | the player starts at the screen centre, size 1, nothing eaten, with a registered box |
| Objects.Player.Reset | Commute/Objects/Player.cs:65-97 | size 1, count 0, back at the centre, with a new centred box appended to the registered boxes |
| Objects.Player.ShowScaleVfx | Commute/Objects/Player.cs:103-112 | the size becomes the tier, 0 standing for 7 |
| Objects.Player.Collided | Commute/Objects/Player.cs:118-137 | a fish no bigger than the player is eaten and counted with nothing saved or fired; a bigger one adds the session count to the saved total and fires exactly one `GameOver` at the given time |
| Objects.Player.HandleInput | Commute/Objects/Player.cs:204-262 | the target is the clamped result of the bindings and the pointer rule |
| Objects.Player.Update | Commute/Objects/Player.cs:152-172 | steering sets the target, then the player and its box move |
| Objects.Bubble.constructor | Commute/Objects/Bubble.cs:63-83 | a bubble sways within 10 of its starting x, heads in the drawn direction, and registers a square area whose entered handler is the bubble |
| Objects.Bubble.Dispose | Commute/Objects/Bubble.cs:88-92 | the handler is unsubscribed and the area deregistered |
| Objects.Bubble.Update | Commute/Objects/Bubble.cs:98-121 | the bubble rises by its speed, sways by one, turns at the bounds and keeps the sway invariant; the area follows |
| Objects.Bubble.TriggerAreaEntered | Commute/Objects/Bubble.cs:127-136 | only the player bursts the bubble, and `OnBurst` is raised only while the scene is subscribed |
| Objects.SwayStep | Commute/Objects/Bubble.cs:101-114 | one sway step keeps the bubble less than one step outside its bounds and heading back in |
| BoundsProperties.RowMembership | Commute/Objects/Bounds/CollisionManager.cs:94-101 | a queued object is hit by exactly the registered boxes that collide with it |
| BoundsProperties.ScanMembership | Commute/Objects/Bounds/CollisionManager.cs:88-106 | `Collide` runs for a pair exactly when the object was queued, the box is registered and they collide |
| BoundsProperties.HitsAreGenuine | Commute/Objects/Bounds/CollisionBox.cs:67-79 | no box is reported against its own parent, and the boxes of every reported pair overlap both ways |
| BoundsProperties.CollisionRules | Commute/Objects/Bounds/CollisionBox.cs:67-79 | a box never collides with its own parent or with an object that has no box, and a collision is an overlap from the object's side too |
| BoundsProperties.ObjectTypeNamesKind | Commute/Objects/Fish.cs:206-209 | two objects have the same type name exactly when both are fish or both are the player |
| BoundsProperties.NeverQueuedNeverHit | Commute/Objects/Bounds/CollisionManager.cs:59-62 | an object that was never queued gets no `Collided` call |
| BoundsProperties.UnregisteredBoxNeverHits | Commute/Objects/Bounds/CollisionBox.cs:47-50 | a disposed box is never reported |
| BoundsProperties.StepSettles | Commute/Objects/Bounds/TriggerAreaManager.cs:97-109 | after one step the object is listed exactly when it overlaps, other objects keep their membership, and nothing is listed twice |
| BoundsProperties.MembersNoDuplicates | Commute/Objects/Bounds/TriggerAreaManager.cs:100 | a membership list driven by the scan never holds an object twice |
| BoundsProperties.MembersUnqueued | Commute/Objects/Bounds/TriggerAreaManager.cs:88-115 | an object that was not queued keeps its membership |
| BoundsProperties.MembersLastAt | Commute/Objects/Bounds/TriggerAreaManager.cs:97-109 | an object is listed after the scan exactly when its box at its last place in the queue overlapped |
| BoundsProperties.MembersLastSighting | Commute/Objects/Bounds/TriggerAreaManager.cs:88-115 | membership after a scan is decided by the object's last sighting, or kept when it was not queued |
| BoundsProperties.ReplayAppend | Commute/Objects/Bounds/TriggerAreaManager.cs:91-111 | playing two logs in turn is playing their concatenation |
| BoundsProperties.ReplayStepEvent | Commute/Objects/Bounds/TriggerAreaManager.cs:97-109 | one area's step fits the pair's flag and leaves it at the new membership |
| BoundsProperties.ReplayThenStep | Commute/Objects/Bounds/TriggerAreaManager.cs:97-109 | a log followed by one step leaves the pair's flag at the step's new membership |
| BoundsProperties.ReplayRowLog | Commute/Objects/Bounds/TriggerAreaManager.cs:94-110 | within one object's row only the pair's own area changes the pair's flag |
| BoundsProperties.LogAlternates | Commute/Objects/Bounds/TriggerAreaManager.cs:88-115 | for every area and object, enter and exit events strictly alternate from the old membership and end at the new one |
| BoundsProperties.RowLogNamesAreas | Commute/Objects/Bounds/TriggerAreaManager.cs:94-110 | each transition of an object's row names a registered area and that object |
| BoundsProperties.LogNamesAreas | Commute/Objects/Bounds/TriggerAreaManager.cs:88-115 | every transition of a scan names a registered area and a queued object |
| Devices.HatPressed | Commute/Extensions/JoystickStateExtensions.cs:80-108 | indices 1, 2, 4 and 8 read up, right, down and left of the first hat; any other index is never pressed |
| Devices.IsPressedAt | Commute/Extensions/JoystickStateExtensions.cs:30-72 | a disconnected joystick reports nothing; a pressed button, positive axis or negative axis has its index in range and its state down, above 10000 or below -10000 |
| Devices.IsPressed | Commute/Extensions/JoystickStateExtensions.cs:17-21 | a binding is pressed exactly when its primary or its alternative (type, index) is |
| Devices.TouchPressed | Commute/Extensions/TouchCollectionExtensions.cs:17-36 | true exactly when some location is in state Pressed, so false for an empty collection |
| Devices.TouchHeld | Commute/Extensions/TouchCollectionExtensions.cs:43-62 | true exactly when some location is in state Moved |
| Devices.TouchReleased | Commute/Extensions/TouchCollectionExtensions.cs:69-89 | true exactly when no location is in state Pressed, so true for an empty collection |
| Devices.TouchPosition | Commute/Extensions/TouchCollectionExtensions.cs:96-107 | the origin for an empty collection, otherwise the first location's position truncated |
| Devices.AxisDirectionsExclusive | Commute/Extensions/JoystickStateExtensions.cs:54-67 | an axis never counts as pushed both ways at once |
| Devices.DisconnectedNeverPressed | Commute/Extensions/JoystickStateExtensions.cs:30-72 | a disconnected joystick accepts every binding and reports no press |
| Devices.ButtonPressedExactly | Commute/Extensions/JoystickStateExtensions.cs:41-46 | a button is pressed exactly when the joystick is connected, the index is in range and that button is down |
| Devices.OtherHatIndexNotPressed | Commute/Extensions/JoystickStateExtensions.cs:103-104 | a hat index other than 1, 2, 4 or 8 is never pressed |
| Devices.ReleasedIsNotPressed | Commute/Extensions/TouchCollectionExtensions.cs:69-89 | "released" is always the negation of "pressed" |
| Input.MethodFor | Commute/Input/InputManager.cs:98-109 | the input method is Keyboard on a PC, Touch on a mobile platform and Gamepad otherwise |
| Input.InputManager.constructor | Commute/Input/InputManager.cs:88-110 | a new manager has nothing captured, the idle device states, and the platform's input method |
| Input.InputManager.Update | Commute/Input/InputManager.cs:129-149 | this frame's states become last frame's, both capture lists are emptied and the poll becomes this frame's states |
| Input.InputManager.IsBindingPressed | Commute/Input/InputManager.cs:157-172 | the answer is the key, button or joystick press edge; a captured press appends both keys and both buttons, after which the key and button edges are false for the rest of the frame; nothing else changes |
| Input.InputManager.IsKeyDown | Commute/Input/InputManager.cs:270-279 | a binding whose key or alternate key was captured this frame is not pressed |
| Input.InputManager.IsKeyHeld | Commute/Input/InputManager.cs:286-292 | a held key binding is not a press in the same frame |
| Input.InputManager.IsButtonDown | Commute/Input/InputManager.cs:299-308 | a binding whose button or alternate button was captured this frame is not pressed |
| Input.InputManager.IsButtonHeld | Commute/Input/InputManager.cs:315-321 | a held button binding is not a press in the same frame |
| Input.InputManager.IsJoystickDown | Commute/Input/InputManager.cs:328-332 | a joystick press needs a connected joystick |
| Input.InputManager.IsJoystickHeld | Commute/Input/InputManager.cs:339-343 | a joystick hold needs the joystick connected in both frames and is not a press |
| Input.InputManager.IsBindingHeld | Commute/Input/InputManager.cs:179-182 | with no key, no button and no joystick, nothing is held |
| Input.InputManager.IsLeftMousePressed | Commute/Input/InputManager.cs:218-222 | a press is a change of the left button since last frame |
| Input.InputManager.IsLeftMouseHeld | Commute/Input/InputManager.cs:228-232 | a held left button is not a press in the same frame |
| Input.InputManager.IsTouchHeld | Commute/Input/InputManager.cs:209-212 | a touch is held exactly when some current location is pressed or moved |
| Input.InputManager.IsTouched | Commute/Input/InputManager.cs:188-203 | in touch mode, some location pressed now and none pressed last frame; otherwise the left-mouse press edge |
| Input.InputManager.GetTouchPosition | Commute/Input/InputManager.cs:249-263 | the mouse position outside touch mode; the origin in touch mode when nothing is touched |
| Input.InputManagerSlot.Initialise | Commute/Input/InputManager.cs:116-124 | the first call creates a manager for the platform and stores it; later calls return the stored one |
| Input.KeyPressExcludesHold | Commute/Input/InputManager.cs:270-292 | a key binding is never both pressed and held in one frame |
| Input.ButtonPressExcludesHold | Commute/Input/InputManager.cs:299-321 | a button binding is never both pressed and held in one frame |
| Input.JoystickPressExcludesHold | Commute/Input/InputManager.cs:328-343 | a joystick binding is never both pressed and held in one frame |
| Input.MousePressExcludesHold | Commute/Input/InputManager.cs:218-232 | the left mouse button is never both pressed and held in one frame |
| Input.CapturedKeyNotDown | Commute/Input/InputManager.cs:273-276 | a captured key no longer counts as pressed this frame |
| Menus.Previous | Commute/UI/OptionsMenu.cs:101 | one entry back stays within the menu, wrapping from the first entry to the last |
| Menus.Next | Commute/UI/OptionsMenu.cs:110 | one entry on stays within the menu, wrapping from the last entry to the first |
| Menus.NextUndoesPrevious | Commute/UI/FishSelect.cs:150-187 | stepping back then on, or on then back, returns to the same entry |
| Menus.Navigated | Commute/UI/OptionsMenu.cs:96-112 | the highlight after an optional step up then an optional step down stays within the menu |
| Menus.VolumeAfter | Commute/UI/OptionsMenu.cs:161-176 | the volume stays in `[0, 10]` and moves by the amount when that stays in range |
| Menus.VolumeWrapsAround | Commute/UI/OptionsMenu.cs:167-176 | below the minimum wraps to the maximum and above the maximum wraps to the minimum |
| Menus.IndexIn | Commute/UI/OptionsMenu.cs:233 | `IndexOf` is -1 exactly when the resolution is absent, and otherwise the position of its first occurrence |
| Menus.ResolutionIndexAfter | Commute/UI/OptionsMenu.cs:233-247 | the new resolution index is always in the list and is the moved index when that is in range |
| Menus.ResolutionWraps | Commute/UI/OptionsMenu.cs:238-247 | an unknown resolution or the last one steps on to the first, and the first steps back to the last |
| Menus.ToggledScreenSize | Commute/UI/OptionsMenu.cs:272-273 | a windowed screen becomes fullscreen, and any other size, borderless included, becomes windowed |
| Menus.ChangedSettings | Commute/UI/OptionsMenu.cs:158-282 | an amount of 0 changes nothing; each option changes only its own setting, volumes stay in range, the resolution comes from the list and the screen size is never left borderless |
| Menus.OptionsMenu.constructor | Commute/UI/OptionsMenu.cs:36-75 | music and sound on every platform, resolution and screen size added on PC, the first option highlighted |
| Menus.OptionsMenu.Close | Commute/UI/OptionsMenu.cs:145-151 | exactly one `CloseOptionsMenu` is fired |
| Menus.OptionsMenu.UpdateMusic | Commute/UI/OptionsMenu.cs:158-183 | the music volume follows the wrap rule for a nonzero amount and stays otherwise; the text is its decimal form |
| Menus.OptionsMenu.UpdateSound | Commute/UI/OptionsMenu.cs:190-215 | the sound volume follows the wrap rule for a nonzero amount and stays otherwise; the text is its decimal form |
| Menus.OptionsMenu.UpdateResolution | Commute/UI/OptionsMenu.cs:222-257 | for a nonzero amount the resolution becomes the wrapped neighbour in the platform's list; the text is the resolution |
| Menus.OptionsMenu.UpdateScreenSize | Commute/UI/OptionsMenu.cs:264-282 | for a nonzero amount the screen size toggles; the text is the localised "Windowed" or "Fullscreen", never missing |
| Menus.OptionsMenu.ChangeValue | Commute/UI/OptionsMenu.cs:117-122 | the settings become the changed settings for the highlighted option |
| Menus.OptionsMenu.Update | Commute/UI/OptionsMenu.cs:80-130 | a close input fires `CloseOptionsMenu`; up and down move the highlight cyclically; left then right change the highlighted option by -1 then +1; then every option's touched arrows change it, in list order |
| Menus.OptionsMenu.UpdateKeys | Commute/UI/OptionsMenu.cs:80-123 | the key half of a frame: the close event, the cyclic highlight move and the highlighted option's -1 then +1 change |
| Menus.OptionsMenu.UpdateArrows | Commute/UI/OptionsMenu.cs:126-129 | every option's button runs in list order, the settings ending as `ArrowsChanged` of those before |
| Menus.OptionsMenu.UpdateButton | Commute/UI/OptionButton.cs:98-110 | a touch on the option's left arrow changes it by -1, then one on its right arrow by +1 |
| Menus.ArrowsChanged | Commute/UI/OptionsMenu.cs:126-129 | a setting none of whose options had an arrow touched keeps its value |
| Menus.NoArrowsNoChange | Commute/UI/OptionButton.cs:98-110 | with no arrow touched the option buttons change no setting |
| Menus.OneOptionTouched | Commute/UI/OptionsMenu.cs:126-129 | when only one option's arrows are touched, the buttons change that option as its own button does and nothing else |
| Menus.ConditionText | Commute/UI/FishSelect.cs:221-244 | an unlocked fish shows nothing; a locked one shows its points condition if it has one, else its eating condition, else its scale condition, else nothing |
| Menus.Conditions | Commute/UI/FishSelect.cs:214-251 | one condition per selectable fish, each the condition text of that entry |
| Menus.ThresholdTexts | Commute/UI/FishSelect.cs:232-242 | the thresholds 4, 500 and 3000 print as those digits |
| Menus.LockedConditionTexts | Commute/UI/FishSelect.cs:230-243 | with the built-in strings the orange fish asks for size 4, the green fish for 500 fish eaten, the shark for 3000 points, and the grey fish shows nothing |
| Menus.FishSelect.constructor | Commute/UI/FishSelect.cs:67-83 | the screen starts on the saved fish with the conditions built from the unlock flags |
| Menus.FishSelect.SetupSprites | Commute/UI/FishSelect.cs:207-252 | the loop builds exactly the condition list of the unlock flags |
| Menus.FishSelect.Reset | Commute/UI/FishSelect.cs:88-91 | the conditions are rebuilt and the selection stays |
| Menus.FishSelect.SelectLeft | Commute/UI/FishSelect.cs:150-166 | the previous fish is selected cyclically and only its notification is cleared |
| Menus.FishSelect.SelectRight | Commute/UI/FishSelect.cs:171-187 | the next fish is selected cyclically and only its notification is cleared |
| Menus.FishSelect.Close | Commute/UI/FishSelect.cs:192-202 | the selected fish becomes the current fish only if it is unlocked, and one `CloseFishSelect` is fired |
| Menus.FishSelect.Update | Commute/UI/FishSelect.cs:96-128 | left then right move the selection; a close input takes an unlocked selection and fires `CloseFishSelect`; nothing else is fired |
| Menus.EventsOf | Commute/UI/EndScreen.cs:259-289 | a run of button actions fires at most one event per action |
| Menus.Hovered | Commute/UI/EndScreen.cs:187-192 | the hovered button, if any, becomes the highlight, which stays within the buttons |
| Menus.EndScreen.constructor | Commute/UI/EndScreen.cs:68-110 | Options, Fish Menu and Restart, plus Quit on PC, with Restart highlighted on PC and Options elsewhere; no options menu showing |
| Menus.EndScreen.Prepare | Commute/UI/EndScreen.cs:118-154 | the best scale and best points become the maxima with the session's, and the notification shows exactly when some fish has one |
| Menus.EndScreen.UpdateNotifications | Commute/UI/EndScreen.cs:159-162 | the notification shows exactly when some fish has one |
| Menus.EndScreen.Select | Commute/UI/EndScreen.cs:259-289 | Options shows the options menu; Fish Menu fires `OpenFishSelect`; Restart prepares an ad and fires `Restart`; Quit fires `CloseGame` |
| Menus.EndScreen.Update | Commute/UI/EndScreen.cs:167-230 | with the options menu showing only it runs, its highlight and settings change as `OptionsMenu.Update` states, and a pending close hides it; otherwise hover then left and right move the highlight, and the touched buttons then the accepted one run their actions, firing their events in that order |
| Menus.EndScreen.UpdateOptions | Commute/UI/EndScreen.cs:169-180 | the options menu moves its highlight and changes the settings by its keys then its arrows; no `CloseOptionsMenu` is left, and a close hides the menu |
| Menus.EndScreen.UpdateButtons | Commute/UI/EndScreen.cs:181-228 | the highlight follows the hover then left and right; the selected buttons are the touched ones then the accepted one, their events fired in that order, and the options show exactly when Options was selected |
| Menus.EndScreen.UpdatePointer | Commute/UI/EndScreen.cs:183-201 | the hovered button is highlighted and the touched buttons are selected in order, firing their events |
| Hits.RescaledSizes | Commute/Scenes/MainScene.cs:633-640 | rescaling keeps the same spawned fish |
| Hits.AfterHit | Commute/Objects/Player.cs:118-137 | a meal counts one fish, moves the score by the eating rule and marks the eaten fish; a fish eating a smaller fish (Fish.cs:161-171) marks it and changes nothing else; a game over adds the session's fish to the saved total and changes nothing else; no other object is marked; the scale never goes down |
| Hits.AfterHits | Commute/Objects/Bounds/CollisionManager.cs:91-101 | replaying the hits in order never lowers the scale |
| Hits.Meals | Commute/Objects/Bounds/CollisionManager.cs:91-101 | at most one meal per hit |
| Hits.Deaths | Commute/Objects/Bounds/CollisionManager.cs:91-101 | at most one game over per hit |
| Hits.PlayerHits | Commute/Objects/Bounds/CollisionManager.cs:91-101 | at most one hit on the player per hit |
| Hits.HitsScore | Commute/Scenes/MainScene.cs:653-683 | after the replay the score has moved on one fish per meal at the frame's double points, and the session's count grew by the meals |
| Hits.MealsAndDeaths | Commute/Objects/Player.cs:118-137 | every hit on the player is exactly one of a meal and a game over |
| Hits.FishHitsOnly | Commute/Objects/Player.cs:118-137 | hits on fish alone change nothing but the eaten marks, and count no meal and no game over |
| Hits.HitsJoined | Commute/Objects/Bounds/CollisionManager.cs:91-101 | replaying two runs of hits in turn is replaying them joined, and their game overs add up |
| Hits.MarksKept | Commute/Objects/Fish.cs:214-217 | an object marked eaten stays marked through every later hit |
| Hits.MarkedOwnsAHit | Commute/Objects/Bounds/CollisionManager.cs:91-101 | a fish that the hits newly mark eaten owns the box of one of those hits, and a newly eaten player owns a player's box among them |
| Scenes.FishEntities | Commute/Scenes/MainScene.cs:689-694 | the fish queued by their `OnMoved` events are the fish themselves, in order |
| Scenes.FireEach | Commute/Scenes/MainScene.cs:322 | a screen's update fires its names on the bus in order, each stamped with the frame time |
| Scenes.PollTwo | Commute/Scenes/MainScene.cs:424-432 | each of the two polls answers whether its name was waiting, and neither name is left on the bus |
| Scenes.FireAndPollTwo | Commute/Scenes/MainScene.cs:421-432 | after a screen fires its names, each poll answers whether its name was waiting before or was just fired |
| Scenes.SelectAndPoll | Commute/Scenes/MainScene.cs:342-345 | the fish select stays valid, the saved fish is the old one or the highlighted one, and the close poll answers whether a close was waiting or the menu asked for it |
| Scenes.EndScreenAndPoll | Commute/Scenes/MainScene.cs:440-449 | with the options closed, the two polls answer whether the end screen's buttons fired `OpenFishSelect` and `Restart`, or they were waiting; neither is left |
| Scenes.GameOvers | Commute/Scenes/MainScene.cs:376 | the events fired by `k` deadly collisions are `k` game overs |
| Scenes.GameOversCons | Commute/Scenes/MainScene.cs:376 | one more game over in front of `k` is `k + 1` of them |
| Scenes.PendingAfterKill | Commute/Scenes/MainScene.cs:424-432 | polling one name leaves every other name exactly as pending as it was |
| Scenes.PendingAppended | Commute/Scenes/MainScene.cs:369-376 | after events are fired, a name is pending exactly when it was before or was among those fired |
| Scenes.RemoveAllCounts | Commute/Scenes/MainScene.cs:567-583 | removing the kill list one fish at a time leaves the list minus the kill list, counting repeats |
| Objects.RemoveOneCounts | Commute/Scenes/MainScene.cs:582 | `List.Remove` takes away exactly one occurrence, if there is one |
| Scenes.RemoveAllKeepsOthers | Commute/Scenes/MainScene.cs:567-583 | from a list without repeats, the removals leave exactly the elements not removed, still without repeats |
| Scenes.RemoveAllShrinks | Commute/Scenes/MainScene.cs:620-627 | the removals never lengthen a list without repeats nor add to it |
| Scenes.FishBoxes | Commute/Scenes/MainScene.cs:209 | the boxes disposed with the fish are the fish's own boxes, in order |
| Scenes.EatenAmong | Commute/Scenes/MainScene.cs:554-564 | the kill list holds only eaten fish of the list and holds every one of them |
| Scenes.EatenKept | Commute/Scenes/MainScene.cs:560 | the kill list depends only on the eaten flags |
| Scenes.Survivors | Commute/Scenes/MainScene.cs:549-584 | after the kill list is removed, a fish is left exactly when it was listed and not eaten |
| Scenes.EatenFrom | Commute/Scenes/MainScene.cs:554-564 | the kill list from fish `i` on is fish `i` if it was eaten, then the kill list of the rest |
| Scenes.QueuedOneMore | Commute/Scenes/MainScene.cs:554-557 | queueing the fish from `i` on is queueing fish `i`, then the rest |
| Scenes.Leaving | Commute/Scenes/MainScene.cs:606-617 | the removal list holds only bubbles that are above the top or burst after rising, and every such bubble |
| Scenes.LeavingKept | Commute/Scenes/MainScene.cs:612 | the removal list depends only on the bubbles' positions and burst flags |
| Scenes.BubbleAreas | Commute/Scenes/MainScene.cs:215 | the areas disposed with the bubbles are the bubbles' own areas, in order |
| Scenes.MainScene.constructor | Commute/Scenes/MainScene.cs:140-182 | the scene starts valid on the title screen at scale 1 with no points, no fish, no bubbles and only the player's box registered |
| Scenes.MainScene.InitiallyValid | Commute/Scenes/MainScene.cs:140-182 | the freshly built scene meets the scene invariant |
| Scenes.MainScene.FishOnMoved | Commute/Scenes/MainScene.cs:689-694 | a moved object is appended to both managers' queues |
| Scenes.MainScene.BubbleOnBurst | Commute/Scenes/MainScene.cs:514-543 | a burst moves the burst counter and double points timer as the burst rule says, keeping the scene valid |
| Scenes.MainScene.Rescale | Commute/Scenes/MainScene.cs:633-640 | the player takes the new tier and every live fish the rescaled size; fish that left the list are untouched |
| Scenes.MainScene.PlayerOnFishEaten | Commute/Scenes/MainScene.cs:653-683 | the score moves by the eating rule; on a scale change the player and the fish are rescaled, otherwise no size changes |
| Scenes.MainScene.ScaleUp | Commute/Scenes/MainScene.cs:670-682 | the next scale's score, the player at its tier and every listed fish rescaled |
| Scenes.MainScene.FishOnBubbleSpawned | Commute/Scenes/MainScene.cs:499-509 | one new bubble at the fish's position with the drawn speed is appended, subscribed to `OnBurst`, and the bubbles already listed stay |
| Scenes.MainScene.PlayerHit | Commute/Objects/Player.cs:118-137 | a hit by a bigger fish is a game over: one `GameOver` fired and the session's fish added to the saved total; otherwise the fish is eaten, counted and scored; either way the play moves as `AfterHit` replays it |
| Scenes.MainScene.DispatchHit | Commute/Objects/Bounds/CollisionManager.cs:85-107 | the hit is a meal or a game over exactly as the sizes before it decide; the play, with every fish's and the player's eaten flag, moves as `AfterHit` replays it, so a meal or a smaller fish hit by a bigger one is flagged eaten and no other flag changes; a game over fires one event |
| Scenes.MainScene.FishCollided | Commute/Objects/Fish.cs:161-171 | the box's owner is flagged eaten exactly when it is smaller than the fish; nothing else changes |
| Scenes.MainScene.PlayerCollided | Commute/Objects/Player.cs:118-137 | the hit is a meal exactly when the fish is no bigger than the player; a meal counts one fish and flags that fish eaten, with nothing else changed and no event; otherwise the session's fish are added to the saved total and one `GameOver` is fired |
| Scenes.MainScene.DispatchHits | Commute/Objects/Bounds/CollisionManager.cs:85-107 | the play after a frame's hits, with every eaten flag, is their replay in order, and one game over is fired per death the replay counts |
| Scenes.MainScene.RunCollisions | Commute/Scenes/MainScene.cs:369 | the hits are the scan of the queue against the registry, the queue is emptied, the play with every eaten flag moves as their replay, the meals and deaths are those the replay counts, and one game over is fired per death |
| Scenes.MainScene.ScanCollisions | Commute/Objects/Bounds/CollisionManager.cs:85-107 | the hits are the scan of the queue against the registry, each naming a registered box and a listed object, and the play is untouched |
| Scenes.MainScene.HandleHits | Commute/Objects/Bounds/CollisionManager.cs:94-101 | the play with every eaten flag moves as the hits' replay, with the meals and deaths the replay counts and one game over per death |
| Scenes.MainScene.DispatchTransitions | Commute/Objects/Bounds/TriggerAreaManager.cs:85-116 | the bursts are `BurstCount` of the log: one per entry into an area whose bubble is still subscribed; the burst counters move by exactly that many bursts |
| Scenes.MainScene.DispatchTransition | Commute/Objects/Bubble.cs:127-136 | a transition bursts exactly when it is the player entering an area whose bubble is subscribed, and the counters then move by one burst |
| Scenes.MainScene.DispatchAll | Commute/Objects/Bounds/TriggerAreaManager.cs:85-116 | replaying the log keeps the scene valid, with `BurstCount` bursts and the counters moved by them |
| Scenes.MainScene.RunAreas | Commute/Scenes/MainScene.cs:370 | the log is the sweep of the queue over the areas, the queue is emptied, the bursts are `BurstCount` of it and the counters move by them; the score, sizes and bus are untouched |
| Scenes.MainScene.SweepAreas | Commute/Objects/Bounds/TriggerAreaManager.cs:85-116 | the log is the sweep of the queue over the registered areas, each transition naming a registered area; the queue is emptied |
| Scenes.GameOversFired | Commute/Scenes/MainScene.cs:376 | a run of `k` game overs holds a game over exactly when `k` is positive |
| Scenes.BurstCount | Commute/Objects/Bubble.cs:127-136 | a log bursts at most once per transition |
| Scenes.PlayerEntries | Commute/Objects/Bubble.cs:129-130 | a log holds at most one player entry per transition |
| Scenes.FishEntriesBurstNothing | Commute/Objects/Bubble.cs:129-130 | a log with no player entry bursts nothing |
| Scenes.BurstsArePlayerEntries | Commute/Objects/Bubble.cs:127-136 | when every area of the log has a subscribed bubble, the bursts are exactly the player's entries |
| Scenes.MainScene.SpawnFish | Commute/Scenes/MainScene.cs:458-493 | at the cap nothing spawns; below it one new fish is appended at the drawn side and height, at the planned tier and size, with the big fish count as the plan says |
| Scenes.MainScene.UpdateOneFish | Commute/Scenes/MainScene.cs:557 | a fish moves to its new position, is queued on both managers, and asks for one new bubble exactly when its timer ran out and the draw is above 8 |
| Scenes.MainScene.UpdateFishFrom | Commute/Scenes/MainScene.cs:554-564 | the fish from `i` on are queued in order and the kill list is exactly their eaten ones; old bubbles stay and new ones are fresh |
| Scenes.MainScene.KillAll | Commute/Scenes/MainScene.cs:567-583 | each killed fish and its box leave their lists once, and the big fish count drops a quarter per kill without going below zero |
| Scenes.MainScene.Kill | Commute/Scenes/MainScene.cs:569-582 | the fish and its box each leave their list once, and the big fish count drops a quarter while it is positive |
| Scenes.RemovePrefixAll | Commute/Scenes/MainScene.cs:567-583 | removing each element of a kill list in turn, as the loop does, is removing the whole list |
| Scenes.MainScene.UpdateFish | Commute/Scenes/MainScene.cs:549-584 | the kill list is the fish eaten at the frame's start, the list loses exactly those fish, and the big fish count drops by a quarter for each |
| Scenes.MainScene.UpdateOneBubble | Commute/Scenes/MainScene.cs:609-616 | a bubble is listed for removal exactly when the removal test holds once it has risen |
| Scenes.MainScene.UpdateBubblesFrom | Commute/Scenes/MainScene.cs:606-617 | the removal list is the bubbles from `i` on that leave this frame, in order |
| Scenes.MainScene.DropBubbles | Commute/Scenes/MainScene.cs:620-627 | each removed bubble leaves the list once and is unsubscribed from `OnBurst` |
| Scenes.MainScene.RunDownDoublePoints | Commute/Scenes/MainScene.cs:593-601 | the double points timer runs down by the elapsed time while positive and is otherwise zero |
| Scenes.MainScene.UpdateBubbles | Commute/Scenes/MainScene.cs:590-628 | the timer runs down, the removal list is the bubbles that leave this frame, and exactly those leave the list and are unsubscribed |
| Scenes.MainScene.ClearFish | Commute/Scenes/MainScene.cs:209-212 | the fish list is emptied and exactly the fish's boxes leave the registry |
| Scenes.MainScene.EmptyFish | Commute/Scenes/MainScene.cs:212 | the fish list is emptied and the scene stays valid |
| Scenes.MainScene.DetachFish | Commute/Scenes/MainScene.cs:209 | with the list empty, exactly the given fish's boxes leave the registry |
| Scenes.MainScene.DisposeFish | Commute/Scenes/MainScene.cs:209 | each fish's box leaves the registry once, in order |
| Scenes.MainScene.ClearBubbles | Commute/Scenes/MainScene.cs:215-217 | the bubble list is emptied, exactly the bubbles' areas leave the area manager, and every bubble is unsubscribed |
| Scenes.MainScene.EmptyBubbles | Commute/Scenes/MainScene.cs:217 | the bubble list is emptied and the scene stays valid |
| Scenes.MainScene.DetachBubbles | Commute/Scenes/MainScene.cs:215-216 | with the list empty, exactly the given bubbles' areas leave the area manager and every bubble is unsubscribed |
| Scenes.MainScene.DisposeBubbles | Commute/Scenes/MainScene.cs:215-216 | each bubble's area leaves the area manager once, in order, and every bubble is unsubscribed |
| Scenes.MainScene.DisposeBubble | Commute/Scenes/MainScene.cs:215-216 | the bubble's area leaves the area manager with its handler gone, and the bubble is unsubscribed from `OnBurst` |
| Scenes.MainScene.ClearObjects | Commute/Scenes/MainScene.cs:208-217 | both lists are emptied, the fish's boxes and the bubbles' areas leave their managers, and every bubble is unsubscribed |
| Scenes.MainScene.ResetPlayer | Commute/Objects/Player.cs:65-97 | the player is back at size 1 at its starting position with nothing eaten, and its new box is appended to the registry |
| Scenes.MainScene.ResetCounters | Commute/Scenes/MainScene.cs:224-230 | the score is the starting score and the burst counters are zero |
| Scenes.MainScene.StartSession | Commute/Scenes/MainScene.cs:219-230 | play starts with the player reset, its new box registered, the starting score and no bursts |
| Scenes.MainScene.Restart | Commute/Scenes/MainScene.cs:206-231 | play starts again with no fish, no bubbles, the starting score and no bursts; the fish's boxes and the bubbles' areas leave the managers and the player's new box joins; the big fish count stays |
| Scenes.MainScene.EndSession | Commute/Scenes/MainScene.cs:376-394 | the unlocks and notifications are those earned by this session, the bests take the larger values, the end screen's notification shows exactly when some fish has one, the fish select's conditions are rebuilt from the new unlocks, one more advert is shown and the end screen is up |
| Scenes.MainScene.EndGame | Commute/Scenes/MainScene.cs:376-394 | the game over keeps the scene valid, shows one more advert and puts the end screen up |
| Scenes.MainScene.MovePlayer | Commute/Scenes/MainScene.cs:397 | the player's target follows the steering rule clamped to the screen, the player moves and is queued on both managers |
| Scenes.MainScene.MoveObjects | Commute/Scenes/MainScene.cs:396-401 | the player's target follows the steering rule clamped to the screen and the player moves; the scene stays valid and in its state |
| Scenes.MainScene.UpdateObjects | Commute/Scenes/MainScene.cs:399-401 | the fish and then the bubbles update and the scene stays valid |
| Scenes.MainScene.OpenFishSelectFrom | Commute/Scenes/MainScene.cs:443-447 | the fish select opens and remembers the screen it was opened from |
| Scenes.MainScene.Update | Commute/Scenes/MainScene.cs:237-262 | every frame keeps the scene valid and moves the state only along the screens' transitions |
| Scenes.MainScene.UpdateTitle | Commute/Scenes/MainScene.cs:320-335 | a restart starts play, otherwise an `OpenFishSelect` opens the fish select, otherwise the title stays |
| Scenes.MainScene.LeaveTitle | Commute/Scenes/MainScene.cs:325-334 | a restart starts play, otherwise a fish select request opens it remembering the title, otherwise the title stays |
| Scenes.MainScene.UpdatePlaying | Commute/Scenes/MainScene.cs:363-414 | the session ends exactly when a game over was waiting or this frame's collisions fired one; the pause binding pauses even then; otherwise play goes on |
| Scenes.MainScene.AfterSpawn | Commute/Scenes/MainScene.cs:369-414 | the hits are the scan of the queue; the deaths are those the replay counts; the session ends exactly when a game over was waiting or a death fired one, unless the pause binding pauses |
| Scenes.MainScene.CollideThenPoll | Commute/Scenes/MainScene.cs:369-394 | both managers run, the score is the replay's, and the session ends exactly when a game over was waiting or a death fired one |
| Scenes.MainScene.CollideBoxes | Commute/Scenes/MainScene.cs:369 | the collision manager runs: the play, with the score, the sizes, both eaten counts and every eaten flag, moves as the hits' replay, a game over is pending exactly when one was or a death fired one, and the bursts are untouched |
| Scenes.MainScene.SpawnStep | Commute/Scenes/MainScene.cs:366 | every listed fish and box after spawning was listed before or is new; the bus and the bubbles are untouched |
| Scenes.MainScene.RunManagers | Commute/Scenes/MainScene.cs:369-394 | the session ends exactly when a game over was waiting or this frame's collisions fired one; the score is the replay of the hits; the fish and bubble lists are unchanged |
| Scenes.MainScene.Collide | Commute/Scenes/MainScene.cs:369-370 | after both managers run, the score, the player's size and eaten counts are the hits' replay, a game over is pending exactly when one was or a death fired one, and the burst counters move by `BurstCount` of the area log |
| Scenes.MainScene.PauseOn | Commute/Scenes/MainScene.cs:407-413 | the pause binding or button pauses the game and nothing else changes the state |
| Scenes.MainScene.CheckGameOver | Commute/Scenes/MainScene.cs:376-394 | the session ends and one advert is shown exactly when a game over was waiting |
| Scenes.MainScene.UpdatePaused | Commute/Scenes/MainScene.cs:419-433 | a resume or a restart returns to play, a restart also clearing the fish, the bubbles and the score; neither event is left |
| Scenes.MainScene.PollPauseMenu | Commute/Scenes/MainScene.cs:421-432 | a resume sets play, and the restart answer is whether a restart was waiting or fired |
| Scenes.MainScene.UpdateFishSelect | Commute/Scenes/MainScene.cs:340-357 | closing returns to the screen that opened the menu with the player reset and the end screen's notification matching the save; otherwise the menu stays |
| Scenes.MainScene.ChooseFish | Commute/Scenes/MainScene.cs:342-345 | the fish select runs and the close poll answers whether a close was waiting or the menu asked for it; no close is left |
| Scenes.MainScene.LeaveFishSelect | Commute/Scenes/MainScene.cs:347-355 | the state returns to the remembered screen, the player is reset and the notification flag is set exactly when a notification is pending |
| Scenes.MainScene.UpdateEnd | Commute/Scenes/MainScene.cs:438-453 | with the options closed, a restart starts play, otherwise an `OpenFishSelect` opens the fish select remembering the end screen, otherwise the end screen stays |
| Scenes.MainScene.EndScreenStep | Commute/Scenes/MainScene.cs:440-449 | with the options closed, the polls answer whether the selected buttons fired `OpenFishSelect` and `Restart`; neither is left |

## Left out

- Drawing: sprites, the background and foreground, `TopBar`, the hover highlights of `Button` and `OptionButton`, and scale effects and particles are not part of this model. They are rendering only.
- Audio: every `PlaySoundEffect` call and the volume's effect on playback are dropped. Only the saved volumes are kept.
- Persistence and platform: `SaveManager.Save`, the saves after the menus change a setting, `ChangeScreenSettings`, and the platform's ad and save calls are left out. They are file and SDK I/O. An advert request is only counted (`adsShown`), and `Ads` models the Android throttle on its own.
- Floating point: `MoveToTarget`, `Fish.GetScale`, `Fish.GetNewTarget` and the mouse position's UI scaling are left out. The movement code's result enters `Fish.Update`, `Player.Update` and the frame as an input position, and the mouse position arrives already scaled.
- `TitleScreen` and `PauseMenu`: each frame's update is modelled only by the names it fires, given as `screenEvents`. Those screens hold no other logic.
- `GameObject`: its virtual defaults are not needed. Only fish and the player are ever queued or own boxes, so `Entity` has those two cases. `ObjectType` gives their type names.
- C# delegates: `OnMoved`, `OnFishEaten`, `OnBubbleSpawned` and `OnBurst` become direct calls to the scene's handlers. The managers' `Collide`, enter and exit callbacks become logs that the scene replays right after each manager's `Update`. No callback changes what the managers scan, so the order of effects is the same.
- `Restart` and `UpdateFish` loop with `foreach` and `ForEach`. The kill loop of `UpdateFish` is a `for` loop over the kill list. The other loops are written as recursive methods over the list as it was, which is the order `foreach` visits it in.
- Removed fish are not taken off the collision queue, so an eaten fish is still scanned once more in the next frame. The model keeps this.
- Removed bubbles are not disposed, so their areas stay registered until `Restart`. The model keeps this.
- `Player.Reset` registers a new box without disposing the old one. The model keeps the stale box in the registry.
- `Restart` leaves the big fish count as it was. The model keeps this.
- `Geometry.Intersects` uses strict comparisons on all four edges, as MonoGame's `Rectangle.Intersects` does, so rectangles that only touch do not overlap.
- `Save.ResolutionHeight`: a resolution text with no `x` is not an error in the code. `IndexOf` gives -1, so the whole text is parsed as the height, while the width fails. The model follows the code.
- `Menus.OptionsMenu.UpdateResolution`: requires a non-empty list of resolutions when the amount is not zero, because the source indexes the list without a check.
- `Scenes.MainScene.UpdatePlaying`: its contract states the state change and when the session ends, with `overs` the deaths that `AfterSpawn`'s contract ties to the scanned hits. It does not restate the score, the player's new position or the advert count; `RunManagers`, `MovePlayer` and `CheckGameOver` state those.
- `Scenes.MainScene.Collide`: does not state each spawned fish's size or eaten flag, or the player's eaten flag, after the hits. `CollideBoxes` states them as part of the replayed play, and the area manager changes none of them; carrying them through both managers makes the proof too costly. The area log is named only through its burst count; `RunAreas` states that the log is the sweep of the queue.
- `Scenes.MainScene.CollideThenPoll`: states the score the hits leave, but not the player's size, the eaten counts or the eaten flags; `Collide` and `CollideBoxes` state those.
- `Scenes.MainScene.RunManagers`: states the score the hits leave, but not the player's size, the eaten counts or the eaten flags; `Collide` and `CollideBoxes` state those.
- `Scenes.MainScene.AfterSpawn`: states the scanned hits and the deaths they count, but not the play they leave or the fish and bubble lists after the moves; `RunManagers`, `CollideBoxes`, `MovePlayer`, `UpdateFish` and `UpdateBubbles` state those.
- `Scenes.MainScene.MoveObjects`: does not restate the fish and bubble lists, the big fish count or the double points timer after the moves; `UpdateFish` and `UpdateBubbles` state those. Carrying them through makes the proof too costly.
- `Scenes.MainScene.UpdateObjects`: does not restate the fish and bubble lists, the big fish count or the double points timer after the moves; `UpdateFish` and `UpdateBubbles` state those. Carrying them through makes the proof too costly.
- `Text.FormatOne`: a brace outside `{0}`, `{{` and `}}` is copied as text. `string.Format` throws a `FormatException` for a lone brace or an index other than 0, and applies alignment and format components. The built-in templates have none of these.
- `Hits`: the replays ask for a scale of at least 1, where `Tier` is defined. A session starts at scale 1 and the scale only goes up, which the scene invariant keeps.
- `Devices.IsPressedAt`: on a connected joystick, a negative button or axis index, or a hat query on a joystick without hats, makes the code index out of range and throw (Commute/Extensions/JoystickStateExtensions.cs:30-72 and 88). The model asks for a defined index there. A disconnected joystick is never indexed and answers false, as in the code.
- `Scenes.MainScene.UpdateEnd`: while the options menu is showing, its contract states only that the scene stays valid and on one of the screens it can reach.
- The pause binding is read after the player, fish and bubbles move in `UpdatePlaying`. The model reads it just before they move. None of those moves reads or changes the scene's state.
- Integer widths: scores, counters and the clock are unbounded integers. None of the counters comes near the 32-bit limit in play, and `int.Parse` range errors are modelled where text is parsed.
