/** The settings panel of the bell-plus timer: the theme test, the stored
    defaults, the single-key redirect with its "press any key" listening
    mode, and the twelve-hour clock flag shared with the timer through the
    browser's storage. */
module SettingsPlus {
  import opened JsText
  import opened Timing
  import Settings

  /** Storage keys. */
  const ThemeKey := "bell-timer-theme"
  const FontSizeKey := "bell-timer-font-size"
  const RedirectKeyKey := "bell-timer-redirect-key"
  const RedirectUrlKey := "bell-timer-redirect-url"
  const ClockKey := "bell-timer-12hour-clock"

  /** `theme.includes('light')`. */
  predicate IsLightTheme(theme: string)
  {
    Contains(theme, "light")
  }

  /** A theme named exactly "light" is light, and "dark" is not: on the
      panel's own two themes the test agrees with the uploaded redesign's
      `theme === 'light'`. */
  lemma ThemeTestOnPanelThemes()
    ensures IsLightTheme("light")
    ensures !IsLightTheme("dark")
  {
    assert StartsWith("light", "light");
    if IsLightTheme("dark") {
      ContainsHasChars("dark", "light", 0);
    }
  }

  /** Any theme name containing "light" counts, so the test is wider than
      equality. */
  lemma LightThemeByContainment(before: string, after: string)
    ensures IsLightTheme(before + "light" + after)
  {
    var theme := before + "light" + after;
    assert theme[|before|..|before| + 5] == "light";
    assert OccursAt(theme, "light", |before|);
    ContainsAt(theme, "light");
  }

  /** `localStorage.getItem(key)`. */
  function Get(storage: map<string, string>, key: string): Option<string>
  {
    if key in storage then Some(storage[key]) else None
  }

  /** `use12Hour.toString()`. */
  function BoolText(b: bool): string
  {
    if b then "true" else "false"
  }

  /** `getItem(...) === 'true'`. */
  function ReadFlag(stored: Option<string>): bool
  {
    stored == Some("true")
  }

  /** A written flag reads back as written. */
  lemma FlagRoundTrip(b: bool)
    ensures ReadFlag(Some(BoolText(b))) == b
  {
  }

  /** The panel's state: the redirect settings and the clock flag, with the
      browser's storage and the page address the redirect sets. */
  class Panel {
    var isOpen: bool
    var theme: string
    var fontSize: string
    var redirectKey: string
    var redirectUrl: string
    var listeningForKey: bool
    var use12HourClock: bool
    var storage: map<string, string>
    var location: Option<string>

    /** The initial state: each stored value, or its default when missing or
        empty; the clock flag starts off until the mount effect reads it. */
    constructor(stored: map<string, string>)
      ensures !isOpen && !listeningForKey && !use12HourClock
      ensures theme == Settings.StoredOr(Get(stored, ThemeKey), "dark")
      ensures fontSize == Settings.StoredOr(Get(stored, FontSizeKey), "medium")
      ensures redirectKey == Settings.StoredOr(Get(stored, RedirectKeyKey), "F8")
      ensures redirectUrl == Settings.StoredOr(Get(stored, RedirectUrlKey), "https://google.com")
      ensures storage == stored && location == None
    {
      isOpen := false;
      theme := Settings.StoredOr(Get(stored, ThemeKey), "dark");
      fontSize := Settings.StoredOr(Get(stored, FontSizeKey), "medium");
      redirectKey := Settings.StoredOr(Get(stored, RedirectKeyKey), "F8");
      redirectUrl := Settings.StoredOr(Get(stored, RedirectUrlKey), "https://google.com");
      listeningForKey := false;
      use12HourClock := false;
      storage := stored;
      location := None;
    }

    /** The panel opens or closes. */
    method SetOpen(open: bool)
      modifies this
      ensures isOpen == open
      ensures redirectKey == old(redirectKey) && redirectUrl == old(redirectUrl)
      ensures listeningForKey == old(listeningForKey) && use12HourClock == old(use12HourClock)
      ensures theme == old(theme) && fontSize == old(fontSize)
      ensures storage == old(storage) && location == old(location)
    {
      isOpen := open;
    }

    /** The mount effect: the clock flag is on exactly when stored as "true". */
    method LoadClockFormat()
      modifies this
      ensures use12HourClock == ReadFlag(Get(storage, ClockKey))
      ensures isOpen == old(isOpen) && redirectKey == old(redirectKey) && redirectUrl == old(redirectUrl)
      ensures listeningForKey == old(listeningForKey)
      ensures theme == old(theme) && fontSize == old(fontSize)
      ensures storage == old(storage) && location == old(location)
    {
      use12HourClock := ReadFlag(Get(storage, ClockKey));
    }

    /** `handleClockFormatChange(use12Hour)`: the flag and its stored text. */
    method ChangeClockFormat(use12Hour: bool)
      modifies this
      ensures use12HourClock == use12Hour
      ensures storage == old(storage)[ClockKey := BoolText(use12Hour)]
      ensures isOpen == old(isOpen) && redirectKey == old(redirectKey) && redirectUrl == old(redirectUrl)
      ensures listeningForKey == old(listeningForKey)
      ensures theme == old(theme) && fontSize == old(fontSize) && location == old(location)
    {
      use12HourClock := use12Hour;
      storage := storage[ClockKey := BoolText(use12Hour)];
    }

    /** `handleThemeChange(newTheme)` */
    method ChangeTheme(newTheme: string)
      modifies this
      ensures theme == newTheme && storage == old(storage)[ThemeKey := newTheme]
      ensures isOpen == old(isOpen) && redirectKey == old(redirectKey) && redirectUrl == old(redirectUrl)
      ensures listeningForKey == old(listeningForKey) && use12HourClock == old(use12HourClock)
      ensures fontSize == old(fontSize) && location == old(location)
    {
      theme := newTheme;
      storage := storage[ThemeKey := newTheme];
    }

    /** `handleFontSizeChange(newSize)` */
    method ChangeFontSize(newSize: string)
      modifies this
      ensures fontSize == newSize && storage == old(storage)[FontSizeKey := newSize]
      ensures isOpen == old(isOpen) && redirectKey == old(redirectKey) && redirectUrl == old(redirectUrl)
      ensures listeningForKey == old(listeningForKey) && use12HourClock == old(use12HourClock)
      ensures theme == old(theme) && location == old(location)
    {
      fontSize := newSize;
      storage := storage[FontSizeKey := newSize];
    }

    /** The redirect address field's `onChange`. */
    method ChangeRedirectUrl(url: string)
      modifies this
      ensures redirectUrl == url && storage == old(storage)[RedirectUrlKey := url]
      ensures isOpen == old(isOpen) && redirectKey == old(redirectKey)
      ensures listeningForKey == old(listeningForKey) && use12HourClock == old(use12HourClock)
      ensures theme == old(theme) && fontSize == old(fontSize) && location == old(location)
    {
      redirectUrl := url;
      storage := storage[RedirectUrlKey := url];
    }

    /** The shortcut button: the next key press will be recorded. */
    method StartListening()
      modifies this
      ensures listeningForKey
      ensures isOpen == old(isOpen) && redirectKey == old(redirectKey) && redirectUrl == old(redirectUrl)
      ensures use12HourClock == old(use12HourClock)
      ensures theme == old(theme) && fontSize == old(fontSize)
      ensures storage == old(storage) && location == old(location)
    {
      listeningForKey := true;
    }

    /** The redirect listener, installed only while the panel is open and a
        key is set. While listening, the press becomes the new key, is
        stored, ends the listening and never redirects; otherwise a press of
        exactly the key, case and all, sends the browser to the address as
        stored. */
    method HandleKeyDown(key: string)
      modifies this
      ensures isOpen == old(isOpen) && redirectUrl == old(redirectUrl)
      ensures use12HourClock == old(use12HourClock) && theme == old(theme) && fontSize == old(fontSize)
      ensures !(old(redirectKey) != "" && isOpen) ==>
        redirectKey == old(redirectKey) && listeningForKey == old(listeningForKey) &&
        storage == old(storage) && location == old(location)
      ensures old(redirectKey) != "" && isOpen && old(listeningForKey) ==>
        redirectKey == key && !listeningForKey &&
        storage == old(storage)[RedirectKeyKey := key] && location == old(location)
      ensures old(redirectKey) != "" && isOpen && !old(listeningForKey) ==>
        redirectKey == old(redirectKey) && !listeningForKey && storage == old(storage) &&
        location == (if RedirectFires(key, old(redirectKey)) then Some(redirectUrl) else old(location))
    {
      if redirectKey == "" || !isOpen {
        return;
      }
      if listeningForKey {
        redirectKey := key;
        listeningForKey := false;
        storage := storage[RedirectKeyKey := key];
        return;
      }
      if RedirectFires(key, redirectKey) {
        location := Some(redirectUrl);
      }
    }
  }

  /** `e.key === redirectKey`: the bell-plus panel's redirect test. */
  predicate RedirectFires(key: string, stored: string)
  {
    key == stored
  }

  /** The clock flag the panel writes is the flag the timer reads: after a
      change, the timer's check of the same storage sees the new value. */
  lemma ClockFlagReachesTimer(storage: map<string, string>, use12Hour: bool)
    ensures ReadFlag(Get(storage[ClockKey := BoolText(use12Hour)], ClockKey)) == use12Hour
  {
  }

  /** The redirect compares keys exactly: a letter in the other case does
      not fire it, while the main timer's redirect, given the same stored
      key and a press with no modifier held, does fire; and every press that
      fires here fires there too. */
  lemma RedirectIsCaseSensitive(key: string, stored: string)
    requires '+' !in stored
    ensures var press := Settings.KeyEvent(key, false, false, false, false);
      RedirectFires(key, stored) ==> Settings.Matches(press, Settings.ParseCombo(stored))
    ensures var press := Settings.KeyEvent(key, false, false, false, false);
      key != stored && Upper(key) == Upper(stored) ==>
        !RedirectFires(key, stored) && Settings.Matches(press, Settings.ParseCombo(stored))
  {
    SplitNone(stored, '+');
    assert Settings.ParseCombo(stored) == Settings.Combo(stored, false, false, false, false);
  }
}
