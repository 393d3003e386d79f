/** The settings panel of the main timer: recording a key combination,
    reading a recorded combination back and matching key presses against
    it, the redirect address, the Konami-code window, the dropdown label and
    the countdown's font-size class. The uploaded copy of the redesigned
    timer repeats the recorder, the redirect and the Konami code word for
    word. */
module Settings {
  import opened JsText
  import opened Timing

  /** A `keydown` event: the key name and the four modifier flags. */
  datatype KeyEvent = KeyEvent(key: string, ctrl: bool, alt: bool, shift: bool, meta: bool)

  /** A key held on its own as a modifier. */
  predicate IsModifierKey(key: string)
  {
    key == "Control" || key == "Alt" || key == "Shift" || key == "Meta"
  }

  /** The key as a combination names it: a single character upper-cased. */
  function ShownKey(key: string): string
  {
    if |key| == 1 then Upper(key) else key
  }

  /** The combination string `handleKeyDown` builds with `+=`. */
  function FormatCombo(e: KeyEvent): string
  {
    (if e.ctrl then "Ctrl+" else "") + (if e.alt then "Alt+" else "") +
    (if e.shift then "Shift+" else "") + (if e.meta then "Meta+" else "") + ShownKey(e.key)
  }

  /** The modifier names of an event, in the fixed order Ctrl, Alt, Shift, Meta. */
  function Modifiers(e: KeyEvent): seq<string>
  {
    (if e.ctrl then ["Ctrl"] else []) + (if e.alt then ["Alt"] else []) +
    (if e.shift then ["Shift"] else []) + (if e.meta then ["Meta"] else [])
  }

  /** Each name of `names` followed by a plus sign. */
  function Prefix(names: seq<string>): string
  {
    if names == [] then "" else names[0] + "+" + Prefix(names[1..])
  }

  /** The combination is the modifier names, each with its plus sign, in the
      fixed order, then the key. */
  lemma FormatIsPrefix(e: KeyEvent)
    ensures FormatCombo(e) == Prefix(Modifiers(e)) + ShownKey(e.key)
  {
    ModifierPrefix(e);
  }

  /** The plus-terminated modifier names, as `handleKeyDown` appends them. */
  lemma ModifierPrefix(e: KeyEvent)
    ensures Prefix(Modifiers(e)) == (if e.ctrl then "Ctrl+" else "") + (if e.alt then "Alt+" else "") +
                                    (if e.shift then "Shift+" else "") + (if e.meta then "Meta+" else "")
  {
    var c: seq<string> := if e.ctrl then ["Ctrl"] else [];
    var a: seq<string> := if e.alt then ["Alt"] else [];
    var s: seq<string> := if e.shift then ["Shift"] else [];
    assert "Ctrl" + "+" == "Ctrl+" && "Alt" + "+" == "Alt+";
    assert "Shift" + "+" == "Shift+" && "Meta" + "+" == "Meta+";
    PrefixOptional(e.ctrl, "Ctrl");
    PrefixStep(c, e.alt, "Alt");
    PrefixStep(c + a, e.shift, "Shift");
    PrefixStep(c + a + s, e.meta, "Meta");
  }

  lemma PrefixStep(xs: seq<string>, b: bool, name: string)
    ensures Prefix(xs + (if b then [name] else [])) == Prefix(xs) + (if b then name + "+" else "")
  {
    PrefixOptional(b, name);
    PrefixAppend(xs, if b then [name] else []);
  }

  lemma PrefixOptional(b: bool, name: string)
    ensures Prefix(if b then [name] else []) == if b then name + "+" else ""
  {
    if b {
      assert [name][1..] == [];
    }
  }

  lemma {:induction false} PrefixAppend(xs: seq<string>, ys: seq<string>)
    ensures Prefix(xs + ys) == Prefix(xs) + Prefix(ys)
  {
    if xs == [] {
      assert xs + ys == ys;
    } else {
      assert (xs + ys)[0] == xs[0];
      assert (xs + ys)[1..] == xs[1..] + ys;
      PrefixAppend(xs[1..], ys);
      calc {
        Prefix(xs + ys);
        xs[0] + "+" + Prefix(xs[1..] + ys);
        xs[0] + "+" + (Prefix(xs[1..]) + Prefix(ys));
        (xs[0] + "+" + Prefix(xs[1..])) + Prefix(ys);
      }
    }
  }

  /** Which modifier names an event lists; none of them holds a plus sign. */
  lemma ModifierNames(e: KeyEvent)
    ensures "Ctrl" in Modifiers(e) <==> e.ctrl
    ensures "Alt" in Modifiers(e) <==> e.alt
    ensures "Shift" in Modifiers(e) <==> e.shift
    ensures "Meta" in Modifiers(e) <==> e.meta
    ensures forall i :: 0 <= i < |Modifiers(e)| ==> '+' !in Modifiers(e)[i]
  {
    var c: seq<string> := if e.ctrl then ["Ctrl"] else [];
    var a: seq<string> := if e.alt then ["Alt"] else [];
    var s: seq<string> := if e.shift then ["Shift"] else [];
    var m: seq<string> := if e.meta then ["Meta"] else [];
    var mods := c + a + s + m;
    assert Modifiers(e) == mods;
    assert "Ctrl"[0] != "Alt"[0] && "Ctrl"[0] != "Shift"[0] && "Ctrl"[0] != "Meta"[0];
    assert "Alt"[0] != "Shift"[0] && "Alt"[0] != "Meta"[0] && "Shift"[0] != "Meta"[0];
    forall i | 0 <= i < |mods|
      ensures '+' !in mods[i]
    {
      assert mods[i] in mods;
      assert mods[i] in c || mods[i] in a || mods[i] in s || mods[i] in m;
    }
  }

  /** Splitting names-with-plus-signs followed by a plus-free key at '+'
      gives the names and then the key. */
  lemma {:induction false} SplitPrefix(names: seq<string>, key: string)
    requires forall i :: 0 <= i < |names| ==> '+' !in names[i]
    requires '+' !in key
    ensures SplitOn(Prefix(names) + key, '+') == names + [key]
  {
    if names == [] {
      SplitNone(key, '+');
      assert Prefix(names) + key == key;
    } else {
      SplitPrefix(names[1..], key);
      assert Prefix(names) + key == names[0] + ['+'] + (Prefix(names[1..]) + key);
      SplitCons(names[0], '+', Prefix(names[1..]) + key);
      assert names == [names[0]] + names[1..];
    }
  }

  /** A recorded combination read back: the key and the four flags. */
  datatype Combo = Combo(key: string, ctrl: bool, alt: bool, shift: bool, meta: bool)

  /** The redirect handler's parse: split at '+', pop the last piece as the
      key (an empty piece reads as empty), look the modifiers up among the
      rest. */
  function ParseCombo(combo: string): Combo
  {
    var parts := SplitOn(combo, '+');
    var key := parts[|parts| - 1];
    var mods := parts[..|parts| - 1];
    Combo(key, "Ctrl" in mods, "Alt" in mods, "Shift" in mods, "Meta" in mods)
  }

  /** Upper-casing a single character never turns it into a plus sign. */
  lemma ShownKeyHasNoPlus(key: string)
    requires '+' !in key
    ensures '+' !in ShownKey(key)
  {
    if |key| == 1 {
      UpperEach(key);
      assert ShownKey(key) == [UpperChar(key[0])];
    }
  }

  /** Reading back what the recorder wrote recovers the key as shown and the
      four modifier flags, whenever the key itself has no plus sign. */
  lemma ParseFormat(e: KeyEvent)
    requires '+' !in e.key
    ensures ParseCombo(FormatCombo(e)) == Combo(ShownKey(e.key), e.ctrl, e.alt, e.shift, e.meta)
  {
    FormatIsPrefix(e);
    ShownKeyHasNoPlus(e.key);
    ModifierNames(e);
    var mods := Modifiers(e);
    SplitPrefix(mods, ShownKey(e.key));
    var parts := mods + [ShownKey(e.key)];
    assert parts[..|parts| - 1] == mods;
  }

  /** The redirect handler's test: the key in either case and every
      modifier flag as recorded. */
  predicate Matches(e: KeyEvent, c: Combo)
  {
    (Upper(e.key) == Upper(c.key) || e.key == c.key) &&
    e.ctrl == c.ctrl && e.alt == c.alt && e.shift == c.shift && e.meta == c.meta
  }

  /** The second way of matching adds nothing: a press matches exactly when
      the keys agree ignoring case and the flags agree. */
  lemma MatchesIgnoringCase(e: KeyEvent, c: Combo)
    ensures Matches(e, c) <==>
      (Upper(e.key) == Upper(c.key) &&
       e.ctrl == c.ctrl && e.alt == c.alt && e.shift == c.shift && e.meta == c.meta)
  {
  }

  /** Pressing again the keys that were recorded fires the redirect. */
  lemma RecordedComboMatches(e: KeyEvent)
    requires '+' !in e.key
    ensures Matches(e, ParseCombo(FormatCombo(e)))
  {
    ParseFormat(e);
    UpperIdempotent(e.key);
  }

  /** A press with different modifier flags never fires it. */
  lemma ModifiersMustAgree(e: KeyEvent, recorded: KeyEvent)
    requires '+' !in recorded.key
    requires Modifiers(e) != Modifiers(recorded)
    ensures !Matches(e, ParseCombo(FormatCombo(recorded)))
  {
    ParseFormat(recorded);
  }

  /** The redirect listener is installed only with a key other than "None"
      and a non-empty address. */
  predicate RedirectEnabled(redirectKey: string, redirectUrl: string)
  {
    redirectKey != "None" && redirectUrl != ""
  }

  /** The address the browser is sent to: as stored when it starts with
      "http", otherwise behind "https://". */
  function NormaliseUrl(url: string): (r: string)
    ensures StartsWith(r, "http")
    ensures StartsWith(url, "http") ==> r == url
    ensures !StartsWith(url, "http") ==> r == "https://" + url
  {
    if StartsWith(url, "http") then url else "https://" + url
  }

  /** Normalising twice is normalising once. */
  lemma NormaliseIdempotent(url: string)
    ensures NormaliseUrl(NormaliseUrl(url)) == NormaliseUrl(url)
  {
  }

  /** Where one key press sends the browser, if anywhere. */
  function RedirectTarget(redirectKey: string, redirectUrl: string, e: KeyEvent): (r: Option<string>)
    ensures r.Some? <==> RedirectEnabled(redirectKey, redirectUrl) && Matches(e, ParseCombo(redirectKey))
    ensures r.Some? ==> StartsWith(r.value, "http")
  {
    if RedirectEnabled(redirectKey, redirectUrl) && Matches(e, ParseCombo(redirectKey)) then Some(NormaliseUrl(redirectUrl))
    else None
  }

  /** With the default key "None" or no address nothing ever redirects. */
  lemma DisabledNeverRedirects(redirectKey: string, redirectUrl: string, e: KeyEvent)
    requires redirectKey == "None" || redirectUrl == ""
    ensures RedirectTarget(redirectKey, redirectUrl, e) == None
  {
  }

  /** `localStorage.getItem(name) || fallback`: a missing or empty value
      gives the fallback. */
  function StoredOr(stored: Option<string>, fallback: string): (r: string)
    ensures stored.Some? && stored.value != "" ==> r == stored.value
    ensures stored.None? || stored == Some("") ==> r == fallback
  {
    if stored.Some? && stored.value != "" then stored.value else fallback
  }

  /** The modifier keys the recorder displays while a key is held. */
  datatype Pressed = Pressed(ctrl: bool, alt: bool, shift: bool, meta: bool)

  /** The key-binding recorder of the settings panel. */
  class KeybindRecorder {
    var isRecording: bool
    var pressed: Pressed
    var currentKey: string
    /** The values passed to `onChange`, oldest first. */
    var changes: seq<string>

    constructor(initialKey: string)
      ensures !isRecording && pressed == Pressed(false, false, false, false)
      ensures changes == []
      ensures initialKey != "" ==> currentKey == initialKey
      ensures initialKey == "" ==> currentKey == "None"
    {
      isRecording := false;
      pressed := Pressed(false, false, false, false);
      currentKey := StoredOr(Some(initialKey), "None");
      changes := [];
    }

    /** `startRecording()` */
    method StartRecording()
      modifies this
      ensures isRecording && pressed == Pressed(false, false, false, false)
      ensures currentKey == old(currentKey) && changes == old(changes)
    {
      isRecording := true;
      pressed := Pressed(false, false, false, false);
    }

    /** `cancelRecording()` */
    method CancelRecording()
      modifies this
      ensures !isRecording && pressed == old(pressed)
      ensures currentKey == old(currentKey) && changes == old(changes)
    {
      isRecording := false;
    }

    /** `handleKeyDown(e)`: while recording, show the held modifiers; a
        modifier on its own changes nothing more; any other key completes
        the combination, reports it once and stops recording. */
    method HandleKeyDown(e: KeyEvent)
      modifies this
      ensures !old(isRecording) ==>
        isRecording == old(isRecording) && pressed == old(pressed) &&
        currentKey == old(currentKey) && changes == old(changes)
      ensures old(isRecording) ==> pressed == Pressed(e.ctrl, e.alt, e.shift, e.meta)
      ensures old(isRecording) && IsModifierKey(e.key) ==>
        isRecording && currentKey == old(currentKey) && changes == old(changes)
      ensures old(isRecording) && !IsModifierKey(e.key) ==>
        !isRecording && currentKey == FormatCombo(e) && changes == old(changes) + [FormatCombo(e)]
    {
      if !isRecording {
        return;
      }
      pressed := Pressed(e.ctrl, e.alt, e.shift, e.meta);
      if IsModifierKey(e.key) {
        return;
      }
      var keyCombo := "";
      if e.ctrl {
        keyCombo := keyCombo + "Ctrl+";
      }
      ghost var c := keyCombo;
      assert c == if e.ctrl then "Ctrl+" else "";
      if e.alt {
        keyCombo := keyCombo + "Alt+";
      }
      ghost var ca := keyCombo;
      assert ca == c + (if e.alt then "Alt+" else "");
      if e.shift {
        keyCombo := keyCombo + "Shift+";
      }
      ghost var cas := keyCombo;
      assert cas == ca + (if e.shift then "Shift+" else "");
      if e.meta {
        keyCombo := keyCombo + "Meta+";
      }
      assert keyCombo == cas + (if e.meta then "Meta+" else "");
      keyCombo := keyCombo + (if |e.key| == 1 then Upper(e.key) else e.key);
      currentKey := keyCombo;
      changes := changes + [keyCombo];
      isRecording := false;
    }
  }

  /** The Konami code, key by key. */
  const KonamiCode: seq<string> := ["ArrowUp", "ArrowUp", "ArrowDown", "ArrowDown", "ArrowLeft",
                                    "ArrowRight", "ArrowLeft", "ArrowRight", "b", "a"]

  /** One key press added to the buffer, dropping the oldest key beyond the
      length of the code. */
  function Push(buffer: seq<string>, key: string): (r: seq<string>)
    ensures |buffer| <= |KonamiCode| ==> |r| <= |KonamiCode|
    ensures |buffer| < |KonamiCode| ==> r == buffer + [key]
  {
    var updated := buffer + [key];
    if |updated| > |KonamiCode| then updated[1..] else updated
  }

  /** The buffer after the keys `keys`, pressed in order from an empty one. */
  function Buffer(keys: seq<string>): seq<string>
  {
    if keys == [] then [] else Push(Buffer(keys[..|keys| - 1]), keys[|keys| - 1])
  }

  function Min(a: int, b: int): int
  {
    if a < b then a else b
  }

  /** The buffer holds the most recent keys, at most as many as the code
      has, in the order they were pressed. */
  lemma {:induction false} BufferIsLatestKeys(keys: seq<string>)
    ensures Buffer(keys) == keys[|keys| - Min(|keys|, |KonamiCode|)..]
  {
    if keys != [] {
      var init := keys[..|keys| - 1];
      BufferIsLatestKeys(init);
      var b := Buffer(init);
      var updated := b + [keys[|keys| - 1]];
      assert updated == keys[|init| - Min(|init|, |KonamiCode|)..];
      if |updated| > |KonamiCode| {
        assert updated[1..] == keys[|keys| - |KonamiCode|..];
      }
    }
  }

  /** The buffer spells the code, letters in either case. */
  predicate IsKonami(buffer: seq<string>)
  {
    |buffer| == |KonamiCode| && forall i :: 0 <= i < |buffer| ==> Lower(buffer[i]) == Lower(KonamiCode[i])
  }

  /** The code is recognised exactly when the last ten keys spell it. */
  lemma KonamiAfterKeys(keys: seq<string>)
    ensures IsKonami(Buffer(keys)) <==>
      (|keys| >= |KonamiCode| && IsKonami(keys[|keys| - |KonamiCode|..]))
  {
    BufferIsLatestKeys(keys);
    if |keys| >= |KonamiCode| {
      assert Buffer(keys) == keys[|keys| - |KonamiCode|..];
    } else {
      assert |Buffer(keys)| < |KonamiCode|;
    }
  }

  /** The Konami listener's state: the recent keys and the hidden switch. */
  class KonamiTracker {
    var sequence: seq<string>
    var activated: bool

    /** The switch starts as stored, on only for the text "true". */
    constructor(stored: Option<string>)
      ensures sequence == [] && activated == (stored == Some("true"))
    {
      sequence := [];
      activated := stored == Some("true");
    }

    /** A key press while the panel is open: the key joins the window, and
        the switch turns on when the window spells the code. Once on, it
        stays on. */
    method HandleKeyDown(isOpen: bool, key: string)
      modifies this
      ensures !isOpen ==> sequence == old(sequence) && activated == old(activated)
      ensures isOpen ==>
        sequence == Push(old(sequence), key) && activated == (old(activated) || IsKonami(sequence))
      ensures old(activated) ==> activated
      ensures |old(sequence)| <= |KonamiCode| ==> |sequence| <= |KonamiCode|
    {
      if !isOpen {
        return;
      }
      var updatedSequence := sequence + [key];
      if |updatedSequence| > |KonamiCode| {
        updatedSequence := updatedSequence[1..];
      }
      sequence := updatedSequence;
      var isKonamiCode := |updatedSequence| == |KonamiCode| &&
        forall i :: 0 <= i < |updatedSequence| ==> Lower(updatedSequence[i]) == Lower(KonamiCode[i]);
      if isKonamiCode && !activated {
        activated := true;
      }
    }
  }

  /** An entry of a dropdown: the stored value and the label shown. */
  datatype DropdownOption = DropdownOption(value: string, text: string)

  /** `options.find(option => option.value === value)?.label || value`. */
  function CurrentLabel(options: seq<DropdownOption>, value: string): (r: string)
    ensures (forall i :: 0 <= i < |options| ==> options[i].value != value) ==> r == value
    ensures forall i :: (0 <= i < |options| && options[i].value == value &&
                         (forall j :: 0 <= j < i ==> options[j].value != value)) ==>
                        r == (if options[i].text != "" then options[i].text else value)
  {
    if options == [] then value
    else if options[0].value == value then (if options[0].text != "" then options[0].text else value)
    else CurrentLabel(options[1..], value)
  }

  /** The three size classes of the countdown. */
  const SizeClasses: set<string> := {"text-7xl", "text-8xl", "text-9xl"}

  /** The page as the font-size setting sees it: the size multiplier on the
      root element and the class lists of the elements in document order. */
  class Page {
    var multiplier: Option<string>
    var elements: seq<set<string>>

    constructor(initial: seq<set<string>>)
      ensures multiplier == None && elements == initial
    {
      multiplier := None;
      elements := initial;
    }

    /** `applyFontSize(size)` as written: the multiplier follows the size,
        and the element `querySelector('.text-8xl')` finds, if any, trades
        classes. */
    method ApplyFontSize(size: string)
      modifies this
      ensures multiplier == Multiplier(size, old(multiplier))
      ensures elements == ApplyFontSizeClasses(old(elements), size)
    {
      if size == "small" {
        multiplier := Some("0.85");
      } else if size == "medium" {
        multiplier := Some("1");
      } else if size == "large" {
        multiplier := Some("1.2");
      }
      var found := FirstWith(elements, "text-8xl");
      if found.Some? {
        var i := found.value;
        elements := elements[i := CountdownClasses(elements[i], size)];
      }
    }
  }

  /** `--font-size-multiplier` after choosing `size`; any other size leaves it. */
  function Multiplier(size: string, previous: Option<string>): Option<string>
  {
    if size == "small" then Some("0.85")
    else if size == "medium" then Some("1")
    else if size == "large" then Some("1.2")
    else previous
  }

  /** `document.querySelector('.' + c)`: the first element carrying `c`. */
  function FirstWith(elements: seq<set<string>>, c: string): (r: Option<nat>)
    ensures r.Some? ==>
      r.value < |elements| && c in elements[r.value] &&
      forall j :: 0 <= j < r.value ==> c !in elements[j]
    ensures r.None? ==> forall j :: 0 <= j < |elements| ==> c !in elements[j]
  {
    if elements == [] then None
    else if c in elements[0] then Some(0)
    else match FirstWith(elements[1..], c)
      case Some(i) => Some(i + 1)
      case None => None
  }

  /** The classes the countdown trades for each size. */
  function CountdownClasses(classes: set<string>, size: string): set<string>
  {
    if size == "small" then classes - {"text-8xl"} + {"text-7xl"}
    else if size == "medium" then classes - {"text-7xl", "text-9xl"} + {"text-8xl"}
    else if size == "large" then classes - {"text-8xl"} + {"text-9xl"}
    else classes
  }

  /** The class lists after `applyFontSize(size)`. */
  function ApplyFontSizeClasses(elements: seq<set<string>>, size: string): (r: seq<set<string>>)
    ensures |r| == |elements|
  {
    match FirstWith(elements, "text-8xl")
    case Some(i) => elements[i := CountdownClasses(elements[i], size)]
    case None => elements
  }

  /** Choosing a small or a large size takes the "text-8xl" class off the
      countdown, and with it the handle the next choice looks for: on a
      page whose countdown is the only sized element, choosing small and
      then large leaves the countdown small. */
  lemma SmallThenLargeStaysSmall()
    ensures var page := [{"countdown", "text-8xl"}];
      ApplyFontSizeClasses(ApplyFontSizeClasses(page, "small"), "large") == [{"countdown", "text-7xl"}]
  {
    var page := [{"countdown", "text-8xl"}];
    var small := ApplyFontSizeClasses(page, "small");
    assert small[0] == {"countdown", "text-7xl"};
    assert "text-8xl" !in small[0];
  }

  /** After a first change away from medium no later choice reaches the
      countdown, when it is the only element that ever carries a size. */
  lemma StuckAfterLeavingMedium(elements: seq<set<string>>, size: string)
    requires forall j :: 0 <= j < |elements| ==> "text-8xl" !in elements[j]
    ensures ApplyFontSizeClasses(elements, size) == elements
  {
  }
}
