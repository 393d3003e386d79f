/** The settings panel of the uploaded redesign: the dropdown's placement
    and its open/closed state, and the font-size setting, which looks the
    countdown up by a class of its own and so keeps exactly one size class
    on it. The key recorder, the redirect and the Konami code repeat the
    main timer's code and are modelled once, in `Settings`. */
module SettingsLatest {
  import opened Timing
  import Settings

  /** Height of one dropdown entry, in pixels. */
  const OptionHeight := 40

  datatype Placement = Top | Bottom

  /** The toggle's bounding box and the window height, in whole pixels. */
  datatype Geometry = Geometry(windowHeight: int, buttonTop: int, buttonBottom: int)

  /** The opened list fits between the toggle and the bottom of the window. */
  predicate FitsBelow(g: Geometry, optionCount: nat)
  {
    g.windowHeight - g.buttonBottom >= OptionHeight * optionCount
  }

  /** The opened list fits between the top of the window and the toggle. */
  predicate FitsAbove(g: Geometry, optionCount: nat)
  {
    g.buttonTop > OptionHeight * optionCount
  }

  /** `calculatePosition()`: the list opens upward only when it would not fit
      below and does fit above. */
  function PlaceDropdown(g: Geometry, optionCount: nat): (r: Placement)
    ensures r == Top <==> !FitsBelow(g, optionCount) && FitsAbove(g, optionCount)
  {
    var spaceBelow := g.windowHeight - g.buttonBottom;
    var dropdownHeight := optionCount * OptionHeight;
    if spaceBelow < dropdownHeight && g.buttonTop > dropdownHeight then Top else Bottom
  }

  /** Room below always wins. */
  lemma RoomBelowOpensDownward(g: Geometry, optionCount: nat)
    requires FitsBelow(g, optionCount)
    ensures PlaceDropdown(g, optionCount) == Bottom
  {
  }

  /** A list that opens upward keeps fitting above when the toggle moves
      down: the placement is monotone in the toggle's distance from the top. */
  lemma UpwardStaysUpward(g: Geometry, optionCount: nat, shift: nat)
    requires PlaceDropdown(g, optionCount) == Top
    ensures PlaceDropdown(Geometry(g.windowHeight, g.buttonTop + shift, g.buttonBottom + shift), optionCount) == Top
  {
  }

  /** One `SettingsDropdown`: whether it is open, where it opens and the
      values it has reported through `onChange`. */
  class Dropdown {
    const optionCount: nat
    var isOpen: bool
    var placement: Placement
    var selections: seq<string>

    constructor(optionCount: nat)
      ensures this.optionCount == optionCount
      ensures !isOpen && placement == Bottom && selections == []
    {
      this.optionCount := optionCount;
      isOpen := false;
      placement := Bottom;
      selections := [];
    }

    /** `calculatePosition()`; without a mounted toggle nothing happens. */
    method CalculatePosition(button: Option<Geometry>)
      modifies this
      ensures button.Some? ==> placement == PlaceDropdown(button.value, optionCount)
      ensures button.None? ==> placement == old(placement)
      ensures isOpen == old(isOpen) && selections == old(selections)
    {
      if button.None? {
        return;
      }
      placement := PlaceDropdown(button.value, optionCount);
    }

    /** `toggleDropdown()`: the placement is worked out on opening only. */
    method Toggle(button: Option<Geometry>)
      modifies this
      ensures isOpen == !old(isOpen) && selections == old(selections)
      ensures !old(isOpen) && button.Some? ==> placement == PlaceDropdown(button.value, optionCount)
      ensures old(isOpen) || button.None? ==> placement == old(placement)
    {
      if !isOpen {
        CalculatePosition(button);
      }
      isOpen := !isOpen;
    }

    /** `handleSelect(value)`: report the value and close. */
    method Select(value: string)
      modifies this
      ensures !isOpen && placement == old(placement)
      ensures selections == old(selections) + [value]
    {
      selections := selections + [value];
      isOpen := false;
    }

    /** A mouse press anywhere while open: outside the dropdown it closes. */
    method MouseDown(inside: bool)
      modifies this
      ensures isOpen == (old(isOpen) && inside)
      ensures placement == old(placement) && selections == old(selections)
    {
      if isOpen && !inside {
        isOpen := false;
      }
    }

    /** A window resize while open places the list again. */
    method Resize(button: Option<Geometry>)
      modifies this
      ensures isOpen == old(isOpen) && selections == old(selections)
      ensures old(isOpen) && button.Some? ==> placement == PlaceDropdown(button.value, optionCount)
      ensures !old(isOpen) || button.None? ==> placement == old(placement)
    {
      if isOpen {
        CalculatePosition(button);
      }
    }
  }

  /** The size class each choice puts on the countdown. */
  function SizeClass(size: string): string
  {
    if size == "small" then "text-7xl" else if size == "medium" then "text-8xl" else "text-9xl"
  }

  predicate IsSize(size: string)
  {
    size == "small" || size == "medium" || size == "large"
  }

  /** The classes the countdown trades for each size. */
  function CountdownClasses(classes: set<string>, size: string): set<string>
  {
    if size == "small" then classes - {"text-8xl", "text-9xl"} + {"text-7xl"}
    else if size == "medium" then classes - {"text-7xl", "text-9xl"} + {"text-8xl"}
    else if size == "large" then classes - {"text-7xl", "text-8xl"} + {"text-9xl"}
    else classes
  }

  /** After a choice the countdown carries the one size class that choice
      names, and every class that is not a size class is left as it was. */
  lemma ExactlyOneSizeClass(classes: set<string>, size: string)
    requires IsSize(size)
    ensures CountdownClasses(classes, size) * Settings.SizeClasses == {SizeClass(size)}
    ensures CountdownClasses(classes, size) - Settings.SizeClasses == classes - Settings.SizeClasses
  {
  }

  /** Any other size text leaves the classes alone. */
  lemma OtherSizeChangesNothing(classes: set<string>, size: string)
    requires !IsSize(size)
    ensures CountdownClasses(classes, size) == classes
  {
  }

  /** The class lists after `applyFontSize(size)`: the first element with
      "countdown-timer" trades size classes. */
  function ApplyFontSizeClasses(elements: seq<set<string>>, size: string): (r: seq<set<string>>)
    ensures |r| == |elements|
  {
    match Settings.FirstWith(elements, "countdown-timer")
    case Some(i) => elements[i := CountdownClasses(elements[i], size)]
    case None => elements
  }

  /** The countdown keeps the class it is looked up by, so every later choice
      reaches the same element. */
  lemma CountdownStaysFound(elements: seq<set<string>>, size: string)
    ensures Settings.FirstWith(ApplyFontSizeClasses(elements, size), "countdown-timer") ==
      Settings.FirstWith(elements, "countdown-timer")
  {
    var found := Settings.FirstWith(elements, "countdown-timer");
    if found.Some? {
      var r := ApplyFontSizeClasses(elements, size);
      assert "countdown-timer" in r[found.value];
      assert forall j :: 0 <= j < found.value ==> r[j] == elements[j];
      FirstIsUnique(r, "countdown-timer", found.value);
    }
  }

  lemma FirstIsUnique(elements: seq<set<string>>, c: string, i: nat)
    requires i < |elements| && c in elements[i]
    requires forall j :: 0 <= j < i ==> c !in elements[j]
    ensures Settings.FirstWith(elements, c) == Some(i)
  {
  }

  /** The last choice decides: whatever was chosen before, after a choice
      the countdown carries exactly that choice's size class. This is what
      the main timer's copy of the setting fails to do. */
  lemma LastChoiceWins(elements: seq<set<string>>, first: string, second: string)
    requires Settings.FirstWith(elements, "countdown-timer").Some?
    requires IsSize(second)
    ensures var i := Settings.FirstWith(elements, "countdown-timer").value;
      ApplyFontSizeClasses(ApplyFontSizeClasses(elements, first), second)[i] * Settings.SizeClasses ==
      {SizeClass(second)}
  {
    var i := Settings.FirstWith(elements, "countdown-timer").value;
    CountdownStaysFound(elements, first);
    ExactlyOneSizeClass(ApplyFontSizeClasses(elements, first)[i], second);
  }

  /** Choosing small and then large on the page of the counterexample in
      `Settings.SmallThenLargeStaysSmall` leaves the countdown large. */
  lemma SmallThenLargeEndsLarge()
    ensures var page := [{"countdown-timer", "text-8xl"}];
      ApplyFontSizeClasses(ApplyFontSizeClasses(page, "small"), "large") == [{"countdown-timer", "text-9xl"}]
  {
    var page := [{"countdown-timer", "text-8xl"}];
    assert Settings.FirstWith(page, "countdown-timer") == Some(0);
    var smallClasses := CountdownClasses(page[0], "small");
    assert "countdown-timer" != "text-8xl" && "countdown-timer" != "text-9xl";
    assert smallClasses == {"countdown-timer", "text-7xl"};
    var small := ApplyFontSizeClasses(page, "small");
    assert small == [smallClasses];
    assert Settings.FirstWith(small, "countdown-timer") == Some(0);
    var largeClasses := CountdownClasses(smallClasses, "large");
    assert "countdown-timer" != "text-7xl";
    assert largeClasses == {"countdown-timer", "text-9xl"};
    assert ApplyFontSizeClasses(small, "large") == [largeClasses];
  }

  /** The page as the uploaded font-size setting sees it. */
  class Page {
    var multiplier: Option<string>
    var elements: seq<set<string>>

    constructor(initial: seq<set<string>>)
      ensures multiplier == None && elements == initial
    {
      multiplier := None;
      elements := initial;
    }

    /** `applyFontSize(size)`: the multiplier follows the size and the
        element `querySelector('.countdown-timer')` finds trades size
        classes. */
    method ApplyFontSize(size: string)
      modifies this
      ensures multiplier == Settings.Multiplier(size, old(multiplier))
      ensures elements == ApplyFontSizeClasses(old(elements), size)
    {
      if size == "small" {
        multiplier := Some("0.85");
      } else if size == "medium" {
        multiplier := Some("1");
      } else if size == "large" {
        multiplier := Some("1.2");
      }
      var found := Settings.FirstWith(elements, "countdown-timer");
      if found.Some? {
        var i := found.value;
        var classes := elements[i];
        if size == "small" {
          classes := classes - {"text-8xl", "text-9xl"};
          classes := classes + {"text-7xl"};
        } else if size == "medium" {
          classes := classes - {"text-7xl", "text-9xl"};
          classes := classes + {"text-8xl"};
        } else if size == "large" {
          classes := classes - {"text-7xl", "text-8xl"};
          classes := classes + {"text-9xl"};
        }
        elements := elements[i := classes];
      }
    }
  }

  /** The multiplier for each size, and no change for any other text. */
  lemma MultiplierValues(size: string, previous: Option<string>)
    ensures size == "small" ==> Settings.Multiplier(size, previous) == Some("0.85")
    ensures size == "medium" ==> Settings.Multiplier(size, previous) == Some("1")
    ensures size == "large" ==> Settings.Multiplier(size, previous) == Some("1.2")
    ensures !IsSize(size) ==> Settings.Multiplier(size, previous) == previous
  {
  }
}
