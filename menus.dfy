/**
 * The menu screens that keep state of their own: the options menu, the fish
 * select screen and the end-of-session screen. The bindings pressed and the
 * buttons hovered or touched in a frame are inputs; sounds, highlights,
 * sprites and text placement are not modelled.
 */
module Menus {
  import opened Text
  import opened Save
  import opened Events
  import opened Localisation
  import Unlocks

  /** The menu inputs of one frame. `pause`, `decline`, `accept` and the
      four directions are the bindings pressed this frame; `closeTouched`,
      `leftArrowTouched` and `rightArrowTouched` are the screen's close
      button and arrows; `optionLefts` and `optionRights` are the options
      menu entries, by position in its list, whose left or right arrow is
      touched; `hovered` and `touched` are the end screen button under the
      pointer and the one touched, by position in its list. */
  datatype MenuInput = MenuInput(
    up: bool, down: bool, left: bool, right: bool,
    accept: bool, decline: bool, pause: bool,
    closeTouched: bool, leftArrowTouched: bool, rightArrowTouched: bool,
    optionLefts: set<nat>, optionRights: set<nat>,
    hovered: Option<nat>, touched: Option<nat>)

  // ---------------------------------------------------------------------
  // Cyclic selection, shared by every menu

  /** One entry back in a menu of `count` entries, from the first to the last. */
  function Previous(i: int, count: int): (r: int)
    ensures 0 <= i < count ==> 0 <= r < count
  {
    if i == 0 then count - 1 else i - 1
  }

  /** One entry on in a menu of `count` entries, from the last to the first. */
  function Next(i: int, count: int): (r: int)
    ensures 0 <= i < count ==> 0 <= r < count
  {
    if i == count - 1 then 0 else i + 1
  }

  /** Stepping back and then on, or on and then back, returns to the entry. */
  lemma NextUndoesPrevious(i: int, count: int)
    requires 0 <= i < count
    ensures Next(Previous(i, count), count) == i
    ensures Previous(Next(i, count), count) == i
  {
  }

  /** The entry after an optional step back and then an optional step on. */
  function Navigated(i: int, count: int, back: bool, on: bool): (r: int)
    ensures 0 <= i < count ==> 0 <= r < count
  {
    var j := if back then Previous(i, count) else i;
    if on then Next(j, count) else j
  }

  function Max(a: int, b: int): int
  {
    if a < b then b else a
  }

  // ---------------------------------------------------------------------
  // The settings the options menu changes

  /** `UpdateMusic`/`UpdateSound` with a nonzero amount: the volume moves by
      the amount, and a volume that leaves [0, 10] wraps to the other end. */
  function VolumeAfter(volume: int, amount: int): (r: int)
    ensures MinVolume <= r <= MaxVolume
    ensures MinVolume <= volume + amount <= MaxVolume ==> r == volume + amount
  {
    var v := volume + amount;
    var v' := if v < MinVolume then MaxVolume else v;
    if v' > MaxVolume then MinVolume else v'
  }

  /** Below the minimum is the maximum, and above the maximum the minimum. */
  lemma VolumeWrapsAround()
    ensures VolumeAfter(MinVolume, -1) == MaxVolume
    ensures VolumeAfter(MaxVolume, 1) == MinVolume
  {
  }

  /** `List<string>.IndexOf`: the first position of `s`, or -1. */
  function IndexIn(list: seq<string>, s: string): (r: int)
    ensures -1 <= r < |list|
    ensures r == -1 <==> s !in list
    ensures r >= 0 ==> list[r] == s && s !in list[..r]
  {
    if |list| == 0 then -1
    else if list[0] == s then 0
    else
      var k := IndexIn(list[1..], s);
      assert list == [list[0]] + list[1..];
      if k == -1 then -1
      else
        assert list[..k + 1] == [list[0]] + list[1..][..k];
        k + 1
  }

  /** The position `UpdateResolution` picks in the platform's list: the
      current resolution's position moved by the amount, wrapping at both
      ends; an unknown resolution counts as position -1. */
  function ResolutionIndexAfter(list: seq<string>, current: string, amount: int): (r: int)
    requires |list| > 0
    ensures 0 <= r < |list|
    ensures 0 <= IndexIn(list, current) + amount < |list| ==> r == IndexIn(list, current) + amount
  {
    var index := IndexIn(list, current) + amount;
    var index' := if index < 0 then |list| - 1 else index;
    if index' > |list| - 1 then 0 else index'
  }

  /** Wrapping at both ends of the resolution list. */
  lemma ResolutionWraps(list: seq<string>, current: string)
    requires |list| > 0
    ensures current !in list ==> list[ResolutionIndexAfter(list, current, 1)] == list[0]
    ensures current == list[|list| - 1] && current !in list[..|list| - 1] ==>
              list[ResolutionIndexAfter(list, current, 1)] == list[0]
    ensures current == list[0] ==> list[ResolutionIndexAfter(list, current, -1)] == list[|list| - 1]
  {
    var k := IndexIn(list, current);
    forall j | 0 <= j < |list| - 1
      ensures list[j] == list[..|list| - 1][j]
    {
    }
    assert k > 0 ==> list[0] == list[..k][0];
  }

  /** `UpdateScreenSize` with a nonzero amount: windowed becomes fullscreen,
      anything else, borderless included, becomes windowed. */
  function ToggledScreenSize(size: int): (r: int)
    ensures r == Windowed || r == FullscreenSize
    ensures r == FullscreenSize <==> size == Windowed
  {
    if size == Windowed then FullscreenSize else Windowed
  }

  /** The four settings the options menu shows. */
  datatype Settings = Settings(music: int, sound: int, resolution: string, screenSize: int)

  datatype OptionKind = Music | Sound | Resolution | ScreenSize

  /** The options in the menu: the graphics options on PC only. */
  function OptionsFor(isPC: bool): (r: seq<OptionKind>)
  {
    if isPC then [Music, Sound, Resolution, ScreenSize] else [Music, Sound]
  }

  /** What `ChangeValue(amount)` of an option does to the settings: an
      amount of 0 changes nothing, and each option changes its own setting
      only. */
  function ChangedSettings(s: Settings, kind: OptionKind, amount: int, resolutions: seq<string>): (r: Settings)
    requires kind == Resolution && amount != 0 ==> |resolutions| > 0
    ensures amount == 0 ==> r == s
    ensures kind != Music ==> r.music == s.music
    ensures kind != Sound ==> r.sound == s.sound
    ensures kind != Resolution ==> r.resolution == s.resolution
    ensures kind != ScreenSize ==> r.screenSize == s.screenSize
    ensures amount != 0 && kind == Music ==> MinVolume <= r.music <= MaxVolume
    ensures amount != 0 && kind == Sound ==> MinVolume <= r.sound <= MaxVolume
    ensures amount != 0 && kind == Resolution ==> r.resolution in resolutions
    ensures amount != 0 && kind == ScreenSize ==> r.screenSize != BorderlessSize
  {
    if amount == 0 then s
    else
      match kind
      case Music => s.(music := VolumeAfter(s.music, amount))
      case Sound => s.(sound := VolumeAfter(s.sound, amount))
      case Resolution => s.(resolution := resolutions[ResolutionIndexAfter(resolutions, s.resolution, amount)])
      case ScreenSize => s.(screenSize := ToggledScreenSize(s.screenSize))
  }

  /** The highlighted option changed down by the left binding, then up by
      the right binding. */
  function KeysChanged(s: Settings, kind: OptionKind, input: MenuInput, resolutions: seq<string>): Settings
    requires kind == Resolution && (input.left || input.right) ==> |resolutions| > 0
  {
    ChangedSettings(ChangedSettings(s, kind, if input.left then -1 else 0, resolutions),
                    kind, if input.right then 1 else 0, resolutions)
  }

  /** The arrows of the option at position `i` are touched. */
  predicate ArrowTouched(input: MenuInput, i: nat)
  {
    i in input.optionLefts || i in input.optionRights
  }

  /** A resolution is at hand for every resolution option whose arrow is
      touched among the first `n` options. */
  predicate ArrowsResolvable(options: seq<OptionKind>, input: MenuInput, resolutions: seq<string>, n: nat)
    requires n <= |options|
  {
    forall i :: 0 <= i < n && options[i] == Resolution && ArrowTouched(input, i) ==> |resolutions| > 0
  }

  /** `OptionButton.Update` of the option at position `i`: a touch on its
      left arrow changes it down, then one on its right arrow up. */
  function ArrowChanged(s: Settings, kind: OptionKind, i: nat, input: MenuInput, resolutions: seq<string>): Settings
    requires kind == Resolution && ArrowTouched(input, i) ==> |resolutions| > 0
  {
    ChangedSettings(ChangedSettings(s, kind, if i in input.optionLefts then -1 else 0, resolutions),
                    kind, if i in input.optionRights then 1 else 0, resolutions)
  }

  /** The settings after the buttons of the first `n` options have run,
      in list order. A setting none of whose options had an arrow touched
      keeps its value. */
  function ArrowsChanged(s: Settings, options: seq<OptionKind>, input: MenuInput, resolutions: seq<string>, n: nat): (r: Settings)
    requires n <= |options| && ArrowsResolvable(options, input, resolutions, n)
    ensures (forall i :: 0 <= i < n && options[i] == Music ==> !ArrowTouched(input, i)) ==> r.music == s.music
    ensures (forall i :: 0 <= i < n && options[i] == Sound ==> !ArrowTouched(input, i)) ==> r.sound == s.sound
    ensures (forall i :: 0 <= i < n && options[i] == Resolution ==> !ArrowTouched(input, i)) ==> r.resolution == s.resolution
    ensures (forall i :: 0 <= i < n && options[i] == ScreenSize ==> !ArrowTouched(input, i)) ==> r.screenSize == s.screenSize
  {
    if n == 0 then s
    else ArrowChanged(ArrowsChanged(s, options, input, resolutions, n - 1), options[n - 1], n - 1, input, resolutions)
  }

  /** With no arrow touched the buttons change nothing. */
  lemma {:induction false} NoArrowsNoChange(s: Settings, options: seq<OptionKind>, input: MenuInput, resolutions: seq<string>, n: nat)
    requires n <= |options| && forall i :: 0 <= i < n ==> !ArrowTouched(input, i)
    ensures ArrowsChanged(s, options, input, resolutions, n) == s
  {
    if n > 0 {
      NoArrowsNoChange(s, options, input, resolutions, n - 1);
    }
  }

  /** When only the arrows of the option at `j` are touched, the buttons
      change that option as its own button does, and nothing else. */
  lemma {:induction false} OneOptionTouched(s: Settings, options: seq<OptionKind>, input: MenuInput, resolutions: seq<string>,
                                            j: nat, n: nat)
    requires j < n <= |options| && forall i :: 0 <= i < n && i != j ==> !ArrowTouched(input, i)
    requires options[j] == Resolution && ArrowTouched(input, j) ==> |resolutions| > 0
    ensures ArrowsChanged(s, options, input, resolutions, n) == ArrowChanged(s, options[j], j, input, resolutions)
  {
    if n - 1 == j {
      NoArrowsNoChange(s, options, input, resolutions, j);
    } else {
      OneOptionTouched(s, options, input, resolutions, j, n - 1);
      var before := ArrowsChanged(s, options, input, resolutions, n - 1);
      assert !ArrowTouched(input, n - 1);
      assert ArrowsChanged(s, options, input, resolutions, n) == ArrowChanged(before, options[n - 1], n - 1, input, resolutions);
    }
  }

  /** The close binding or button of the options menu. */
  predicate ClosesOptions(input: MenuInput)
  {
    input.pause || input.decline || input.closeTouched
  }

  // ---------------------------------------------------------------------
  // The options menu

  class OptionsMenu {
    const options: seq<OptionKind>
    var currentOption: int
    const save: GameSaveData
    const graphics: GraphicsSettings
    const library: StringLibrary
    const bus: EventManager

    ghost predicate Valid()
      reads this`currentOption
    {
      |options| > 0 && 0 <= currentOption < |options|
    }

    /** The settings as they stand. */
    function Current(): Settings
      reads save, graphics
    {
      Settings(save.musicVolume, save.soundVolume, graphics.resolution, graphics.screenSize)
    }

    constructor (isPC: bool, save: GameSaveData, graphics: GraphicsSettings, library: StringLibrary, bus: EventManager)
      ensures Valid() && options == OptionsFor(isPC) && currentOption == 0
      ensures this.save == save && this.graphics == graphics && this.library == library && this.bus == bus
    {
      options := OptionsFor(isPC);
      currentOption := 0;
      this.save := save;
      this.graphics := graphics;
      this.library := library;
      this.bus := bus;
    }

    /** Fires `CloseOptionsMenu`; saving is not modelled. */
    method Close(now: int)
      modifies bus
      ensures Appended(old(bus.events), bus.events, [CloseOptionsMenu], now)
    {
      bus.FireEvent(CloseOptionsMenu, now);
    }

    method UpdateMusic(amount: int) returns (text: string)
      modifies save`musicVolume
      ensures save.musicVolume == if amount == 0 then old(save.musicVolume) else VolumeAfter(old(save.musicVolume), amount)
      ensures text == IntToString(save.musicVolume)
    {
      if amount != 0 {
        save.musicVolume := save.musicVolume + amount;
        if save.musicVolume < MinVolume {
          save.musicVolume := MaxVolume;
        }
        if save.musicVolume > MaxVolume {
          save.musicVolume := MinVolume;
        }
      }
      text := IntToString(save.musicVolume);
    }

    method UpdateSound(amount: int) returns (text: string)
      modifies save`soundVolume
      ensures save.soundVolume == if amount == 0 then old(save.soundVolume) else VolumeAfter(old(save.soundVolume), amount)
      ensures text == IntToString(save.soundVolume)
    {
      if amount != 0 {
        save.soundVolume := save.soundVolume + amount;
        if save.soundVolume < MinVolume {
          save.soundVolume := MaxVolume;
        }
        if save.soundVolume > MaxVolume {
          save.soundVolume := MinVolume;
        }
      }
      text := IntToString(save.soundVolume);
    }

    /** `resolutions` is the platform's list of resolutions. */
    method UpdateResolution(amount: int, resolutions: seq<string>) returns (text: string)
      requires amount != 0 ==> |resolutions| > 0
      modifies graphics`resolution
      ensures graphics.resolution ==
              if amount == 0 then old(graphics.resolution)
              else resolutions[ResolutionIndexAfter(resolutions, old(graphics.resolution), amount)]
      ensures text == graphics.resolution
    {
      if amount != 0 {
        var index := IndexIn(resolutions, graphics.resolution);
        index := index + amount;
        if index < 0 {
          index := |resolutions| - 1;
        }
        if index > |resolutions| - 1 {
          index := 0;
        }
        graphics.resolution := resolutions[index];
      }
      text := graphics.resolution;
    }

    /** The text is the localised name of the new screen size; both names
        are built-in strings, so it is never missing. */
    method UpdateScreenSize(amount: int) returns (text: Option<string>)
      modifies graphics`screenSize
      ensures graphics.screenSize == if amount == 0 then old(graphics.screenSize) else ToggledScreenSize(old(graphics.screenSize))
      ensures text == library.GetString(if graphics.screenSize == Windowed then "Windowed" else "Fullscreen")
      ensures text.Some?
    {
      if amount != 0 {
        graphics.screenSize := if graphics.screenSize == Windowed then FullscreenSize else Windowed;
      }
      text := if graphics.screenSize == Windowed then library.GetString("Windowed") else library.GetString("Fullscreen");
    }

    /** `OptionButton.ChangeValue`: runs the option's update method. The text
        it returns goes to the button, which is not modelled. */
    method ChangeValue(kind: OptionKind, amount: int, resolutions: seq<string>)
      requires kind == Resolution && amount != 0 ==> |resolutions| > 0
      modifies save`musicVolume, save`soundVolume, graphics`resolution, graphics`screenSize
      ensures Current() == ChangedSettings(old(Current()), kind, amount, resolutions)
    {
      match kind
      case Music =>
        var _ := UpdateMusic(amount);
      case Sound =>
        var _ := UpdateSound(amount);
      case Resolution =>
        var _ := UpdateResolution(amount, resolutions);
      case ScreenSize =>
        var _ := UpdateScreenSize(amount);
    }

    /** `OptionButton.Update` of the option at position `i`: its arrows. */
    method UpdateButton(i: nat, input: MenuInput, resolutions: seq<string>)
      requires i < |options| && (options[i] == Resolution && ArrowTouched(input, i) ==> |resolutions| > 0)
      modifies save`musicVolume, save`soundVolume, graphics`resolution, graphics`screenSize
      ensures Current() == ArrowChanged(old(Current()), options[i], i, input, resolutions)
    {
      if i in input.optionLefts {
        ChangeValue(options[i], -1, resolutions);
      }
      if i in input.optionRights {
        ChangeValue(options[i], 1, resolutions);
      }
    }

    /** One frame: close, move the highlight up or down, change the
        highlighted option down and up, then run every option's arrows in
        list order. */
    method Update(input: MenuInput, resolutions: seq<string>, now: int)
      requires Valid()
      requires ((input.left || input.right) &&
                options[Navigated(currentOption, |options|, input.up, input.down)] == Resolution) ==> |resolutions| > 0
      requires ArrowsResolvable(options, input, resolutions, |options|)
      modifies this, save`musicVolume, save`soundVolume, graphics`resolution, graphics`screenSize, bus
      ensures Valid()
      ensures currentOption == Navigated(old(currentOption), |options|, input.up, input.down)
      ensures Current() == ArrowsChanged(KeysChanged(old(Current()), options[currentOption], input, resolutions),
                                         options, input, resolutions, |options|)
      ensures Appended(old(bus.events), bus.events, if ClosesOptions(input) then [CloseOptionsMenu] else [], now)
    {
      UpdateKeys(input, resolutions, now);
      UpdateArrows(input, resolutions);
    }

    /** The first half of a frame: close, move the highlight up or down,
        then change the highlighted option down and up. */
    method UpdateKeys(input: MenuInput, resolutions: seq<string>, now: int)
      requires Valid()
      requires ((input.left || input.right) &&
                options[Navigated(currentOption, |options|, input.up, input.down)] == Resolution) ==> |resolutions| > 0
      modifies this, save`musicVolume, save`soundVolume, graphics`resolution, graphics`screenSize, bus
      ensures Valid()
      ensures currentOption == Navigated(old(currentOption), |options|, input.up, input.down)
      ensures Current() == KeysChanged(old(Current()), options[currentOption], input, resolutions)
      ensures Appended(old(bus.events), bus.events, if ClosesOptions(input) then [CloseOptionsMenu] else [], now)
    {
      if ClosesOptions(input) {
        Close(now);
      }
      if input.up {
        currentOption := Previous(currentOption, |options|);
      }
      if input.down {
        currentOption := Next(currentOption, |options|);
      }
      if input.left {
        ChangeValue(options[currentOption], -1, resolutions);
      }
      if input.right {
        ChangeValue(options[currentOption], 1, resolutions);
      }
    }

    /** The second half of a frame: every option's arrows, in list order. */
    method UpdateArrows(input: MenuInput, resolutions: seq<string>)
      requires ArrowsResolvable(options, input, resolutions, |options|)
      modifies save`musicVolume, save`soundVolume, graphics`resolution, graphics`screenSize
      ensures Current() == ArrowsChanged(old(Current()), options, input, resolutions, |options|)
    {
      for i := 0 to |options|
        invariant Current() == ArrowsChanged(old(Current()), options, input, resolutions, i)
      {
        UpdateButton(i, input, resolutions);
      }
    }
  }

  // ---------------------------------------------------------------------
  // The fish select screen

  /** `string.Format` of a built-in template with a threshold. */
  function UnlockText(library: StringLibrary, id: string, threshold: int): string
    requires id in DefaultStrings
  {
    FormatOne(library.GetString(id).value, IntToString(threshold))
  }

  /** The unlock condition shown under a fish: nothing once it is unlocked;
      otherwise the text of its last positive threshold in the order scale,
      fish eaten, points, and nothing if it has none. */
  function ConditionText(library: StringLibrary, m: Unlocks.FishMetadata, unlocked: bool): (text: string)
    ensures unlocked ==> text == ""
    ensures !unlocked && m.unlockPoints > 0 ==> text == UnlockText(library, "UnlockPoints", m.unlockPoints)
    ensures !unlocked && m.unlockPoints <= 0 && m.unlockEatFish > 0 ==>
              text == UnlockText(library, "UnlockEat", m.unlockEatFish)
    ensures !unlocked && m.unlockPoints <= 0 && m.unlockEatFish <= 0 && m.unlockScale > 0 ==>
              text == UnlockText(library, "UnlockScale", m.unlockScale)
    ensures m.unlockPoints <= 0 && m.unlockEatFish <= 0 && m.unlockScale <= 0 ==> text == ""
  {
    if unlocked then ""
    else
      var byScale := if m.unlockScale > 0 then UnlockText(library, "UnlockScale", m.unlockScale) else "";
      var byEating := if m.unlockEatFish > 0 then UnlockText(library, "UnlockEat", m.unlockEatFish) else byScale;
      if m.unlockPoints > 0 then UnlockText(library, "UnlockPoints", m.unlockPoints) else byEating
  }

  /** The condition of every selectable fish, in table order. */
  function Conditions(library: StringLibrary, unlocked: seq<bool>): (r: seq<string>)
    requires |unlocked| == |Unlocks.Fish|
    ensures |r| == |Unlocks.Fish|
    ensures forall i :: 0 <= i < |r| ==> r[i] == ConditionText(library, Unlocks.Fish[i], unlocked[i])
  {
    seq(|Unlocks.Fish|, i requires 0 <= i < |Unlocks.Fish| => ConditionText(library, Unlocks.Fish[i], unlocked[i]))
  }

  /** The decimal texts of the thresholds the game shows. */
  lemma ThresholdTexts()
    ensures IntToString(4) == "4"
    ensures IntToString(500) == "500"
    ensures IntToString(3000) == "3000"
  {
    assert NatToString(50) == NatToString(5) + [DigitChar(0)];
    assert NatToString(300) == NatToString(30) + [DigitChar(0)];
    assert NatToString(30) == NatToString(3) + [DigitChar(0)];
  }

  /** With the built-in strings, a locked fish reads as the game shows it:
      the grey fish has no condition, the orange fish asks for size 4, the
      green fish for 500 fish eaten and the shark for 3000 points. */
  lemma LockedConditionTexts(library: StringLibrary)
    requires library.stringDictionary == DefaultStrings
    ensures ConditionText(library, Unlocks.Fish[0], false) == ""
    ensures ConditionText(library, Unlocks.Fish[1], false) == "Get to Size " + "4"
    ensures ConditionText(library, Unlocks.Fish[3], false) == "Eat a total of " + "500" + " Fish"
    ensures ConditionText(library, Unlocks.Fish[6], false) == "Earn " + "3000" + " Points in one session"
  {
    ThresholdTexts();
    var template := library.GetString("UnlockScale").value;
    assert template == UnlockScaleTemplate;
    UnlockScaleText("4");
    assert UnlockText(library, "UnlockScale", 4) == "Get to Size " + "4";
    template := library.GetString("UnlockEat").value;
    assert template == UnlockEatTemplate;
    UnlockEatText("500");
    assert UnlockText(library, "UnlockEat", 500) == "Eat a total of " + "500" + " Fish";
    template := library.GetString("UnlockPoints").value;
    assert template == UnlockPointsTemplate;
    UnlockPointsText("3000");
    assert UnlockText(library, "UnlockPoints", 3000) == "Earn " + "3000" + " Points in one session";
  }

  /** The close bindings or button of the fish select screen. */
  predicate ClosesFishSelect(input: MenuInput)
  {
    input.accept || input.decline || input.pause || input.closeTouched
  }

  class FishSelect {
    var currentFish: int
    var unlockConditions: seq<string>
    const save: GameSaveData
    const library: StringLibrary
    const bus: EventManager

    /** The sprite list always holds one sprite per selectable fish, so the
        selection runs over `UnlockableFish` entries. */
    ghost predicate Valid()
      reads this`currentFish, this`unlockConditions
    {
      save.Valid() && 0 <= currentFish < UnlockableFish && |unlockConditions| == UnlockableFish
    }

    constructor (save: GameSaveData, library: StringLibrary, bus: EventManager)
      requires save.Valid() && 0 <= save.currentFish < UnlockableFish
      ensures Valid() && this.save == save && this.library == library && this.bus == bus
      ensures currentFish == save.currentFish
      ensures unlockConditions == Conditions(library, save.unlockedFish[..])
    {
      this.save := save;
      this.library := library;
      this.bus := bus;
      currentFish := 0;
      unlockConditions := [];
      new;
      SetupSprites();
      currentFish := save.currentFish;
    }

    /** Rebuilds the list of conditions from the unlock flags. */
    method SetupSprites()
      requires save.Valid()
      modifies this`unlockConditions
      ensures unlockConditions == Conditions(library, save.unlockedFish[..])
    {
      var conditions: seq<string> := [];
      for i := 0 to UnlockableFish
        invariant conditions == Conditions(library, save.unlockedFish[..])[..i]
      {
        var metadata := Unlocks.Fish[i];
        var condition := "";
        if !save.unlockedFish[i] {
          if metadata.unlockScale > 0 {
            condition := UnlockText(library, "UnlockScale", metadata.unlockScale);
          }
          if metadata.unlockEatFish > 0 {
            condition := UnlockText(library, "UnlockEat", metadata.unlockEatFish);
          }
          if metadata.unlockPoints > 0 {
            condition := UnlockText(library, "UnlockPoints", metadata.unlockPoints);
          }
        }
        conditions := conditions + [condition];
      }
      unlockConditions := conditions;
    }

    /** Rebuilds the conditions; the selection stays. */
    method Reset()
      requires Valid()
      modifies this`unlockConditions
      ensures Valid() && currentFish == old(currentFish)
      ensures unlockConditions == Conditions(library, save.unlockedFish[..])
    {
      SetupSprites();
    }

    /** Selects the previous fish and clears its notification. */
    method SelectLeft()
      requires Valid()
      modifies this`currentFish, save.notifications
      ensures Valid()
      ensures currentFish == Previous(old(currentFish), UnlockableFish)
      ensures save.notifications[..] == old(save.notifications[..])[currentFish := false]
    {
      currentFish := if currentFish == 0 then UnlockableFish - 1 else currentFish - 1;
      if save.notifications[currentFish] {
        save.notifications[currentFish] := false;
      }
    }

    /** Selects the next fish and clears its notification. */
    method SelectRight()
      requires Valid()
      modifies this`currentFish, save.notifications
      ensures Valid()
      ensures currentFish == Next(old(currentFish), UnlockableFish)
      ensures save.notifications[..] == old(save.notifications[..])[currentFish := false]
    {
      currentFish := if currentFish == UnlockableFish - 1 then 0 else currentFish + 1;
      if save.notifications[currentFish] {
        save.notifications[currentFish] := false;
      }
    }

    /** Takes the selected fish if it is unlocked, and fires `CloseFishSelect`. */
    method Close(now: int)
      requires Valid()
      modifies save`currentFish, bus
      ensures Valid()
      ensures save.currentFish == if save.unlockedFish[currentFish] then currentFish else old(save.currentFish)
      ensures Appended(old(bus.events), bus.events, [CloseFishSelect], now)
    {
      if save.unlockedFish[currentFish] {
        save.currentFish := currentFish;
      }
      bus.FireEvent(CloseFishSelect, now);
    }

    /** One frame: left, then right, then close. */
    method Update(input: MenuInput, now: int)
      requires Valid()
      modifies this`currentFish, save.notifications, save`currentFish, bus
      ensures Valid()
      ensures currentFish == Navigated(old(currentFish), UnlockableFish,
                                       input.left || input.leftArrowTouched, input.right || input.rightArrowTouched)
      ensures ClosesFishSelect(input) && save.unlockedFish[currentFish] ==> save.currentFish == currentFish
      ensures !(ClosesFishSelect(input) && save.unlockedFish[currentFish]) ==> save.currentFish == old(save.currentFish)
      ensures Appended(old(bus.events), bus.events, if ClosesFishSelect(input) then [CloseFishSelect] else [], now)
    {
      if input.left || input.leftArrowTouched {
        SelectLeft();
      }
      if input.right || input.rightArrowTouched {
        SelectRight();
      }
      if ClosesFishSelect(input) {
        Close(now);
      }
    }
  }

  // ---------------------------------------------------------------------
  // The end-of-session screen

  datatype ButtonKind = OptionsButton | FishMenuButton | RestartButton | QuitButton

  /** The buttons, left to right: the PC build adds Quit. */
  function EndButtons(isPC: bool): seq<ButtonKind>
  {
    [OptionsButton, FishMenuButton, RestartButton] + (if isPC then [QuitButton] else [])
  }

  /** The event a button's action fires: Options opens the menu in place. */
  function ButtonEvents(kind: ButtonKind): seq<string>
  {
    match kind
    case OptionsButton => []
    case FishMenuButton => [OpenFishSelect]
    case RestartButton => [Restart]
    case QuitButton => [CloseGame]
  }

  /** The events of a run of button actions, in order. */
  function EventsOf(selected: seq<ButtonKind>): (r: seq<string>)
    ensures |r| <= |selected|
  {
    if selected == [] then []
    else EventsOf(selected[..|selected| - 1]) + ButtonEvents(selected[|selected| - 1])
  }

  /** The highlighted button after the pointer: the hovered one, if any. */
  function Hovered(current: int, hovered: Option<nat>, count: int): (r: int)
    ensures 0 <= current < count ==> 0 <= r < count
  {
    if hovered.Some? && hovered.value < count then hovered.value else current
  }

  /** The button touched this frame, if there is one at that position. */
  function TouchedButtons(buttons: seq<ButtonKind>, touched: Option<nat>): seq<ButtonKind>
  {
    if touched.Some? && touched.value < |buttons| then [buttons[touched.value]] else []
  }

  class EndScreen {
    const buttons: seq<ButtonKind>
    var currentOption: int
    var showingOptions: bool
    var showNotification: bool
    /** The platform's `PrepareAd` calls. */
    var adsPrepared: nat
    const optionsMenu: OptionsMenu
    const save: GameSaveData
    const bus: EventManager

    ghost predicate Valid()
      reads this`currentOption, optionsMenu`currentOption
    {
      |buttons| >= 3 && 0 <= currentOption < |buttons| &&
      optionsMenu.Valid() && optionsMenu.save == save && optionsMenu.bus == bus
    }

    /** Restart is highlighted first on PC. */
    constructor (isPC: bool, save: GameSaveData, graphics: GraphicsSettings, library: StringLibrary, bus: EventManager)
      ensures Valid() && buttons == EndButtons(isPC) && currentOption == (if isPC then 2 else 0)
      ensures !showingOptions && !showNotification && adsPrepared == 0
      ensures fresh(optionsMenu) && optionsMenu.options == OptionsFor(isPC) && optionsMenu.currentOption == 0
      ensures optionsMenu.graphics == graphics && optionsMenu.library == library
      ensures this.save == save && this.bus == bus
    {
      optionsMenu := new OptionsMenu(isPC, save, graphics, library, bus);
      buttons := EndButtons(isPC);
      currentOption := if isPC then 2 else 0;
      showingOptions := false;
      showNotification := false;
      adsPrepared := 0;
      this.save := save;
      this.bus := bus;
    }

    /** Records the session's best scale and points and looks for
        notifications. Nothing else of the saved data changes. */
    method Prepare(scale: int, fishEaten: int, pointsScored: int)
      requires save.Valid()
      modifies save`bestScale, save`bestPoints, this`showNotification
      ensures save.bestScale == Max(old(save.bestScale), scale)
      ensures save.bestPoints == Max(old(save.bestPoints), pointsScored)
      ensures showNotification <==> true in save.notifications[..]
    {
      if scale > save.bestScale {
        save.bestScale := scale;
      }
      if pointsScored > save.bestPoints {
        save.bestPoints := pointsScored;
      }
      showNotification := true in save.notifications[..];
    }

    method UpdateNotifications()
      modifies this`showNotification
      ensures showNotification <==> true in save.notifications[..]
    {
      showNotification := true in save.notifications[..];
    }

    /** A button's action. */
    method Select(kind: ButtonKind, now: int)
      modifies this`showingOptions, this`adsPrepared, bus
      ensures showingOptions == (old(showingOptions) || kind == OptionsButton)
      ensures adsPrepared == old(adsPrepared) + (if kind == RestartButton then 1 else 0)
      ensures Appended(old(bus.events), bus.events, ButtonEvents(kind), now)
    {
      match kind
      case OptionsButton =>
        showingOptions := true;
      case FishMenuButton =>
        bus.FireEvent(OpenFishSelect, now);
      case RestartButton =>
        adsPrepared := adsPrepared + 1;
        bus.FireEvent(Restart, now);
      case QuitButton =>
        bus.FireEvent(CloseGame, now);
    }

    /** One frame. While the options menu shows, only it runs, and a
        pending `CloseOptionsMenu` hides it. Otherwise the pointer moves
        the highlight and touches buttons, left and right move the
        highlight, and accept selects the highlighted button; `selected`
        lists the buttons whose actions ran, in order. */
    method Update(input: MenuInput, resolutions: seq<string>, now: int) returns (selected: seq<ButtonKind>)
      requires Valid()
      requires (showingOptions && (input.left || input.right) &&
                optionsMenu.options[Navigated(optionsMenu.currentOption, |optionsMenu.options|, input.up, input.down)] == Resolution)
               ==> |resolutions| > 0
      requires showingOptions ==> ArrowsResolvable(optionsMenu.options, input, resolutions, |optionsMenu.options|)
      modifies this, optionsMenu, save`musicVolume, save`soundVolume,
               optionsMenu.graphics`resolution, optionsMenu.graphics`screenSize, bus
      ensures Valid()
      ensures old(showingOptions) ==> selected == [] && currentOption == old(currentOption)
      ensures old(showingOptions) ==>
                optionsMenu.currentOption ==
                  Navigated(old(optionsMenu.currentOption), |optionsMenu.options|, input.up, input.down)
      ensures old(showingOptions) ==>
                optionsMenu.Current() ==
                  ArrowsChanged(KeysChanged(old(optionsMenu.Current()), optionsMenu.options[optionsMenu.currentOption], input, resolutions),
                                optionsMenu.options, input, resolutions, |optionsMenu.options|)
      ensures old(showingOptions) ==> forall e :: e in bus.events ==> e.name != CloseOptionsMenu
      ensures old(showingOptions) && ClosesOptions(input) ==> !showingOptions
      ensures old(showingOptions) && !ClosesOptions(input) ==>
                (showingOptions <==> forall e :: e in old(bus.events) ==> e.name != CloseOptionsMenu)
      ensures !old(showingOptions) ==>
                currentOption == Navigated(Hovered(old(currentOption), input.hovered, |buttons|), |buttons|, input.left, input.right)
      ensures !old(showingOptions) ==>
                selected == TouchedButtons(buttons, input.touched) + (if input.accept then [buttons[currentOption]] else [])
      ensures !old(showingOptions) ==> Appended(old(bus.events), bus.events, EventsOf(selected), now)
      ensures !old(showingOptions) ==> (showingOptions <==> OptionsButton in selected)
    {
      if showingOptions {
        selected := [];
        UpdateOptions(input, resolutions, now);
      } else {
        selected := UpdateButtons(input, now);
      }
    }

    /** The frame while the options menu shows: it runs, then a pending
        `CloseOptionsMenu` is taken off the bus and hides it. */
    method UpdateOptions(input: MenuInput, resolutions: seq<string>, now: int)
      requires Valid() && showingOptions
      requires ((input.left || input.right) &&
                optionsMenu.options[Navigated(optionsMenu.currentOption, |optionsMenu.options|, input.up, input.down)] == Resolution)
               ==> |resolutions| > 0
      requires ArrowsResolvable(optionsMenu.options, input, resolutions, |optionsMenu.options|)
      modifies this`showingOptions, optionsMenu, save`musicVolume, save`soundVolume,
               optionsMenu.graphics`resolution, optionsMenu.graphics`screenSize, bus
      ensures Valid()
      ensures optionsMenu.currentOption == Navigated(old(optionsMenu.currentOption), |optionsMenu.options|, input.up, input.down)
      ensures optionsMenu.Current() ==
                ArrowsChanged(KeysChanged(old(optionsMenu.Current()), optionsMenu.options[optionsMenu.currentOption], input, resolutions),
                              optionsMenu.options, input, resolutions, |optionsMenu.options|)
      ensures forall e :: e in bus.events ==> e.name != CloseOptionsMenu
      ensures ClosesOptions(input) ==> !showingOptions
      ensures !ClosesOptions(input) ==> (showingOptions <==> forall e :: e in old(bus.events) ==> e.name != CloseOptionsMenu)
    {
      optionsMenu.Update(input, resolutions, now);
      ghost var polled := bus.events;
      var closed := bus.HasEventFiredThenKill(CloseOptionsMenu);
      if closed {
        showingOptions := false;
      }
      forall e | e in bus.events
        ensures e.name != CloseOptionsMenu
      {
        RejectMembership(polled, NameIs(CloseOptionsMenu), e);
      }
    }

    /** The frame while the buttons show: the pointer, then left and
        right, then accept. */
    method UpdateButtons(input: MenuInput, now: int) returns (selected: seq<ButtonKind>)
      requires Valid() && !showingOptions
      modifies this`currentOption, this`showingOptions, this`adsPrepared, bus
      ensures Valid()
      ensures currentOption == Navigated(Hovered(old(currentOption), input.hovered, |buttons|), |buttons|, input.left, input.right)
      ensures selected == TouchedButtons(buttons, input.touched) + (if input.accept then [buttons[currentOption]] else [])
      ensures Appended(old(bus.events), bus.events, EventsOf(selected), now)
      ensures showingOptions <==> OptionsButton in selected
    {
      selected := UpdatePointer(input, now);
      if input.left {
        currentOption := Previous(currentOption, |buttons|);
      }
      if input.right {
        currentOption := Next(currentOption, |buttons|);
      }
      if input.accept {
        ghost var before := bus.events;
        Select(buttons[currentOption], now);
        AppendedThen(old(bus.events), before, bus.events, EventsOf(selected), ButtonEvents(buttons[currentOption]), now);
        selected := selected + [buttons[currentOption]];
      }
    }

    /** Each button in turn: the hovered one is highlighted and the touched
        one selected. */
    method UpdatePointer(input: MenuInput, now: int) returns (selected: seq<ButtonKind>)
      requires Valid() && !showingOptions
      modifies this`currentOption, this`showingOptions, this`adsPrepared, bus
      ensures Valid()
      ensures currentOption == Hovered(old(currentOption), input.hovered, |buttons|)
      ensures selected == TouchedButtons(buttons, input.touched)
      ensures Appended(old(bus.events), bus.events, EventsOf(selected), now)
      ensures showingOptions <==> OptionsButton in selected
    {
      selected := [];
      for i := 0 to |buttons|
        invariant Valid()
        invariant currentOption == Hovered(old(currentOption), if input.hovered.Some? && input.hovered.value < i then input.hovered else None, |buttons|)
        invariant selected == TouchedButtons(buttons[..i], input.touched)
        invariant Appended(old(bus.events), bus.events, EventsOf(selected), now)
        invariant showingOptions <==> OptionsButton in selected
      {
        if input.hovered == Some(i) {
          currentOption := i;
        }
        if input.touched == Some(i) {
          ghost var before := bus.events;
          Select(buttons[i], now);
          AppendedThen(old(bus.events), before, bus.events, EventsOf(selected), ButtonEvents(buttons[i]), now);
          selected := selected + [buttons[i]];
        }
      }
      assert buttons[..|buttons|] == buttons;
    }
  }
}
