/**
 * The saved records: the per-player game data (volumes, totals, best scores,
 * which fish are unlocked) and the per-machine graphics settings, with the
 * `"WxH"` resolution text that the platform layer produces and the settings
 * parse back.
 */
module Save {
  import opened Text

  /** The number of selectable fish, and the length of both flag arrays. */
  const UnlockableFish: int := 7

  // Volume limits and default (AudioSettings).
  const DefaultVolume: int := 7
  const MinVolume: int := 0
  const MaxVolume: int := 10

  // The ScreenSizes enumeration.
  const Windowed: int := 0
  const FullscreenSize: int := 1
  const BorderlessSize: int := 2

  /** The game's save data. The audio record is held as its two volumes. */
  class GameSaveData {
    var musicVolume: int
    var soundVolume: int
    var fishEaten: int
    var bestScale: int
    var bestPoints: int
    var currentFish: int
    const unlockedFish: array<bool>
    const notifications: array<bool>

    ghost predicate Valid()
    {
      unlockedFish.Length == UnlockableFish &&
      notifications.Length == UnlockableFish &&
      unlockedFish != notifications
    }

    /** A new record: `SetToDefault` over freshly allocated flag arrays. */
    constructor ()
      ensures Valid() && fresh(unlockedFish) && fresh(notifications)
      ensures musicVolume == DefaultVolume && soundVolume == DefaultVolume
      ensures MinVolume <= musicVolume <= MaxVolume && MinVolume <= soundVolume <= MaxVolume
      ensures fishEaten == 0 && bestScale == 0 && bestPoints == 0 && currentFish == 0
      ensures forall i :: 0 <= i < UnlockableFish ==> unlockedFish[i] == (i == 0)
      ensures forall i :: 0 <= i < UnlockableFish ==> !notifications[i]
    {
      unlockedFish := new bool[UnlockableFish](_ => false);
      notifications := new bool[UnlockableFish](_ => false);
      new;
      musicVolume := DefaultVolume;
      soundVolume := DefaultVolume;
      fishEaten := 0;
      bestScale := 0;
      bestPoints := 0;
      currentFish := 0;
      unlockedFish[0] := true;
    }
  }

  /** `string.Format("{0}x{1}", width, height)`, as the platform lists resolutions. */
  function FormatResolution(width: int, height: int): string
  {
    IntToString(width) + "x" + IntToString(height)
  }

  /** The graphics settings of the machine. */
  class GraphicsSettings {
    var resolution: string
    var screenSize: int

    constructor (resolution: string, screenSize: int)
      ensures this.resolution == resolution && this.screenSize == screenSize
    {
      this.resolution := resolution;
      this.screenSize := screenSize;
    }

    predicate Fullscreen()
      reads this
    {
      screenSize == FullscreenSize
    }

    predicate Borderless()
      reads this
    {
      screenSize == BorderlessSize
    }

    /** The integer before the first `x`. With no `x`, `IndexOf` gives -1 and
        the substring call throws. */
    function ResolutionWidth(): (r: Result<int>)
      reads this
      ensures 'x' !in resolution ==> r == Err(ArgumentOutOfRange)
      ensures forall k :: 0 <= k < |resolution| && resolution[k] == 'x' && 'x' !in resolution[..k] ==>
                r == ParseInt(resolution[..k])
    {
      FirstOccurrence(resolution, 'x');
      var i := IndexOf(resolution, 'x');
      match Prefix(resolution, i)
      case Ok(width) => ParseInt(width)
      case Err(e) => Err(e)
    }

    /** The integer after the first `x`. With no `x`, `IndexOf(..) + 1` is 0
        and the whole text is parsed. */
    function ResolutionHeight(): (r: Result<int>)
      reads this
      ensures 'x' !in resolution ==> r == ParseInt(resolution)
      ensures forall k :: 0 <= k < |resolution| && resolution[k] == 'x' && 'x' !in resolution[..k] ==>
                r == ParseInt(resolution[k + 1..])
    {
      var i := IndexOf(resolution, 'x');
      AfterFirst(resolution, 'x', i);
      ParseInt(resolution[i + 1..])
    }
  }

  /** What follows the first occurrence: the whole text when there is none. */
  lemma AfterFirst(s: string, c: char, i: int)
    requires i == IndexOf(s, c)
    ensures c !in s ==> s[i + 1..] == s
    ensures forall k :: 0 <= k < |s| && s[k] == c && c !in s[..k] ==> s[k + 1..] == s[i + 1..]
  {
    FirstOccurrence(s, c);
  }

  // ---------------------------------------------------------------------
  // Properties

  /** The screen is never both fullscreen and borderless. */
  lemma FullscreenExcludesBorderless(g: GraphicsSettings)
    ensures !(g.Fullscreen() && g.Borderless())
  {
  }

  /** A formatted resolution has its separator right after the width. */
  lemma {:induction false} SeparatorOfFormat(width: int, height: int)
    ensures var s := FormatResolution(width, height);
            var k := |IntToString(width)|;
            k < |s| && s[k] == 'x' && 'x' !in s[..k] &&
            s[..k] == IntToString(width) && s[k + 1..] == IntToString(height)
  {
    var w, h := IntToString(width), IntToString(height);
    var s := w + "x" + h;
    assert s[..|w|] == w;
    assert s[|w| + 1..] == h;
  }

  /** The platform's `"{0}x{1}"` text parses back to the width and height. */
  lemma {:induction false} ResolutionRoundTrip(g: GraphicsSettings, width: int, height: int)
    requires IsInt32(width) && IsInt32(height)
    requires g.resolution == FormatResolution(width, height)
    ensures g.ResolutionWidth() == Ok(width)
    ensures g.ResolutionHeight() == Ok(height)
  {
    SeparatorOfFormat(width, height);
    ParseIntToString(width);
    ParseIntToString(height);
  }

  /** A resolution with no separator has no width. */
  lemma NoSeparatorNoWidth(g: GraphicsSettings)
    requires 'x' !in g.resolution
    ensures g.ResolutionWidth().Err?
  {
  }
}
