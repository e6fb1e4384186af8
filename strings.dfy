/**
 * The localised string table: a dictionary built once from the built-in
 * English strings, with a fall-back to those strings for any missing key.
 */
module Localisation {
  import opened Text

  /** The composite-format placeholder for the first argument. */
  const Placeholder: string := "{0}"

  // The three unlock condition templates, each around one placeholder.
  const UnlockScaleTemplate: string := "Get to Size " + Placeholder
  const UnlockEatTemplate: string := "Eat a total of " + Placeholder + " Fish"
  const UnlockPointsTemplate: string := "Earn " + Placeholder + " Points in one session"

  /** The built-in strings (`DefaultStrings.Strings`). */
  const DefaultStrings: map<string, string> := map[
    "GameTitle" := "There's Always a Bigger Fish",
    "Windowed" := "Windowed",
    "Fullscreen" := "Fullscreen",
    "UnlockScale" := UnlockScaleTemplate,
    "UnlockEat" := UnlockEatTemplate,
    "UnlockPoints" := UnlockPointsTemplate,
    "Size" := "Size",
    "Best" := "Best",
    "Points" := "Points",
    "FishEaten" := "Fish Eaten",
    "TotalFishEaten" := "Total Fish Eaten"
  ]

  class StringLibrary {
    const stringDictionary: map<string, string>

    /** Builds the dictionary as a copy of the built-in strings. */
    constructor ()
      ensures stringDictionary == DefaultStrings
    {
      stringDictionary := DefaultStrings;
    }

    /** The string for `id`: from the dictionary, else from the built-in
        strings, else `null` (`None`). */
    function GetString(id: string): (value: Option<string>)
      ensures value.None? <==> id !in stringDictionary && id !in DefaultStrings
      ensures id in stringDictionary ==> value == Some(stringDictionary[id])
      ensures value.Some? && id !in stringDictionary ==> value.value == DefaultStrings[id]
    {
      if id in stringDictionary then Some(stringDictionary[id])
      else if id in DefaultStrings then Some(DefaultStrings[id])
      else None
    }
  }

  /** The static slot holding the one library. */
  class StringLibrarySlot {
    var instance: StringLibrary?

    constructor ()
      ensures instance == null
    {
      instance := null;
    }

    /** Creates the library on the first call only. */
    method Initialise()
      modifies this
      ensures old(instance) != null ==> instance == old(instance)
      ensures old(instance) == null ==> instance != null && fresh(instance)
      ensures old(instance) == null ==> instance.stringDictionary == DefaultStrings
    {
      if instance == null {
        instance := new StringLibrary();
      }
    }
  }

  /** Once built, every lookup agrees with the built-in strings. */
  lemma InitialisedLookup(library: StringLibrary, id: string)
    requires library.stringDictionary == DefaultStrings
    ensures id in DefaultStrings ==> library.GetString(id) == Some(DefaultStrings[id])
    ensures id !in DefaultStrings ==> library.GetString(id) == None
  {
  }

  /** Each unlock condition template carries one `{0}` placeholder. */
  lemma UnlockScaleText(arg: string)
    ensures FormatOne(UnlockScaleTemplate, arg) == "Get to Size " + arg
  {
    assert '{' !in "Get to Size " && '}' !in "Get to Size ";
    assert UnlockScaleTemplate == "Get to Size " + "{0}" + "";
    FormatPrefix("Get to Size ", "", arg);
  }

  lemma UnlockEatText(arg: string)
    ensures FormatOne(UnlockEatTemplate, arg) == "Eat a total of " + arg + " Fish"
  {
    assert '{' !in "Eat a total of " && '{' !in " Fish" && '}' !in "Eat a total of " && '}' !in " Fish";
    FormatPrefix("Eat a total of ", " Fish", arg);
  }

  lemma UnlockPointsText(arg: string)
    ensures FormatOne(UnlockPointsTemplate, arg) == "Earn " + arg + " Points in one session"
  {
    assert '{' !in "Earn " && '{' !in " Points in one session" && '}' !in "Earn " && '}' !in " Points in one session";
    FormatPrefix("Earn ", " Points in one session", arg);
  }

  /** Text around a single placeholder is copied through. */
  lemma {:induction false} FormatPrefix(before: string, after: string, arg: string)
    requires '{' !in before && '{' !in after && '}' !in before && '}' !in after
    ensures FormatOne(before + "{0}" + after, arg) == before + arg + after
    decreases |before|
  {
    if before == [] {
      assert before + "{0}" + after == "{0}" + after;
      FormatOnePlaceholder(after, arg);
    } else {
      var rest := before[1..] + "{0}" + after;
      assert before[0] in before;
      calc {
        FormatOne(before + "{0}" + after, arg);
        { ConsThenAppend(before, "{0}", after); }
        FormatOne([before[0]] + rest, arg);
        { FormatOneCons(before[0], rest, arg); }
        [before[0]] + FormatOne(rest, arg);
        { FormatPrefix(before[1..], after, arg); }
        [before[0]] + (before[1..] + arg + after);
        { ConsThenAppend(before, arg, after); }
        before + arg + after;
      }
    }
  }
}
