/** The tab icon of the redesigned timer: a rounded square whose fill colour
    tells how much time is left, flashing in the last half minute, grey
    outside school hours. Module-level caches skip writes to the page when
    nothing seems to have changed. An icon is identified by its fill colour;
    the page's `link[rel="icon"]` elements are the sequence `icons`, in
    document order. */
module Favicon {
  import opened Timing

  const Green: string := "#8B9A71"
  const Yellow: string := "#E9C164"
  const Orange: string := "#fdb580"
  const RedBright: string := "#e02f58"
  const RedDark: string := "#6E2032"
  const Gray: string := "#4a4a4a"

  /** `timeLeftMinutes + (timeLeftSeconds / 60)` */
  function TotalMinutes(m: int, s: int): real
  {
    m as real + s as real / 60.0
  }

  /** The fill colour `createDynamicFavicon(timeLeftMinutes, isFlashing)` draws. */
  function DynamicColor(timeLeftMinutes: real, isFlashing: bool): string
  {
    if timeLeftMinutes > 10.0 then Green
    else if timeLeftMinutes > 6.0 then Yellow
    else if timeLeftMinutes > 2.0 then Orange
    else if isFlashing then RedBright
    else RedDark
  }

  /** The bands read on whole seconds `60 m + s`: above ten minutes green,
      above six yellow, above two orange, red from two minutes down. */
  lemma BandsBySeconds(m: int, s: int, flashing: bool)
    ensures var c := DynamicColor(TotalMinutes(m, s), flashing);
      var x := 60 * m + s;
      (c == Green <==> x > 600) &&
      (c == Yellow <==> 360 < x <= 600) &&
      (c == Orange <==> 120 < x <= 360) &&
      ((c == RedBright || c == RedDark) <==> x <= 120)
  {
    var t := TotalMinutes(m, s);
    assert t * 60.0 == (60 * m + s) as real;
  }

  /** Flashing changes the colour exactly in the red band. */
  lemma FlashOnlyInRed(t: real)
    ensures DynamicColor(t, true) != DynamicColor(t, false) <==> t <= 2.0
    ensures t <= 2.0 ==> DynamicColor(t, true) == RedBright && DynamicColor(t, false) == RedDark
  {
  }

  /** `shouldFlash`: no whole minute left, under 30 seconds, on even seconds. */
  predicate ShouldFlash(m: int, s: int)
  {
    m == 0 && s < 30 && JsRem(s, 2) == 0
  }

  /** `totalMinutes.toFixed(1)` for `60 m + s` seconds, as tenths of a
      minute: six seconds to a tenth, halves rounded up. */
  function TimeKey(totalSeconds: int): int
  {
    (totalSeconds + 3) / 6
  }

  /** The cached key starts as `(-1).toFixed(1)`, which no time left shares. */
  lemma InitialKeyUnmatched(totalSeconds: int)
    requires totalSeconds >= 0
    ensures TimeKey(totalSeconds) != TimeKey(-60)
  {
  }

  /** Pointing the first icon link at a colour, or adding a link when there
      is none. */
  function WriteIcon(icons: seq<string>, color: string): (r: seq<string>)
    ensures |r| > 0 && r[0] == color
    ensures |icons| > 0 ==> |r| == |icons| && r[1..] == icons[1..]
    ensures |icons| == 0 ==> r == [color]
  {
    if |icons| > 0 then icons[0 := color] else [color]
  }

  /** The icon the browser shows: the first link's colour. */
  function ShownIcon(icons: seq<string>): Option<string>
  {
    if |icons| > 0 then Some(icons[0]) else None
  }

  /** The module-level caches and the icon links. */
  datatype IconState = IconState(lastIsFlashing: bool, lastTimeKey: int,
                                 lastSolidColor: Option<string>, icons: seq<string>)

  /** `setFavicon(color)`: skipped when the colour equals the cached solid colour. */
  function SetFaviconState(st: IconState, color: string): (r: IconState)
    ensures r.lastSolidColor == Some(color)
    ensures r.lastIsFlashing == st.lastIsFlashing && r.lastTimeKey == st.lastTimeKey
    ensures st.lastSolidColor == Some(color) ==> r == st
    ensures st.lastSolidColor != Some(color) ==> ShownIcon(r.icons) == Some(color)
  {
    if st.lastSolidColor == Some(color) then st
    else st.(icons := WriteIcon(st.icons, color), lastSolidColor := Some(color))
  }

  /** `updateFavicon(m, s, isOutsideSchoolHours)` */
  function UpdateFaviconState(st: IconState, m: int, s: int, outside: bool): IconState
  {
    if outside then SetFaviconState(st, Gray)
    else
      var key := TimeKey(60 * m + s);
      var flash := ShouldFlash(m, s);
      if key != st.lastTimeKey || flash != st.lastIsFlashing then
        st.(icons := WriteIcon(st.icons, DynamicColor(TotalMinutes(m, s), flash)),
            lastTimeKey := key, lastIsFlashing := flash)
      else st
  }

  /** Inside school hours the icon links are rewritten exactly when the
      rounded time or the flash flag differs from the cache, and both caches
      then hold the new values; the solid-colour cache is never touched. */
  lemma DynamicUpdateRule(st: IconState, m: int, s: int)
    ensures var r := UpdateFaviconState(st, m, s, false);
      var key, flash := TimeKey(60 * m + s), ShouldFlash(m, s);
      r.lastSolidColor == st.lastSolidColor &&
      (key != st.lastTimeKey || flash != st.lastIsFlashing <==> r != st) &&
      (r != st ==> ShownIcon(r.icons) == Some(DynamicColor(TotalMinutes(m, s), flash)) &&
                   r.lastTimeKey == key && r.lastIsFlashing == flash)
  {
    var r := UpdateFaviconState(st, m, s, false);
    var key, flash := TimeKey(60 * m + s), ShouldFlash(m, s);
    if key != st.lastTimeKey || flash != st.lastIsFlashing {
      assert r.lastTimeKey != st.lastTimeKey || r.lastIsFlashing != st.lastIsFlashing;
    }
  }

  /** A repeated call changes nothing. */
  lemma UpdateIdempotent(st: IconState, m: int, s: int, outside: bool)
    ensures UpdateFaviconState(UpdateFaviconState(st, m, s, outside), m, s, outside) == UpdateFaviconState(st, m, s, outside)
  {
  }

  /** Outside school hours the icon is grey whatever the time left, unless
      the grey write is skipped; the time caches are kept. */
  lemma OutsideIsGray(st: IconState, m: int, s: int)
    ensures var r := UpdateFaviconState(st, m, s, true);
      r.lastSolidColor == Some(Gray) && r.lastTimeKey == st.lastTimeKey &&
      (st.lastSolidColor != Some(Gray) ==> ShownIcon(r.icons) == Some(Gray))
  {
  }

  /** The caches right after the module loads, on a page with links `icons`. */
  function Initial(icons: seq<string>): IconState
  {
    IconState(false, TimeKey(-60), None, icons)
  }

  /** Going grey, then showing a countdown, then going grey again leaves the
      countdown's colour up: the second grey write is skipped because the
      solid-colour cache still says grey. */
  lemma StaleGrayAsWritten()
    ensures var st1 := UpdateFaviconState(Initial([]), 0, 0, true);
      var st2 := UpdateFaviconState(st1, 30, 0, false);
      var st3 := UpdateFaviconState(st2, 0, 0, true);
      ShownIcon(st1.icons) == Some(Gray) && ShownIcon(st2.icons) == Some(Green) &&
      ShownIcon(st3.icons) == Some(Green)
  {
    var st1 := UpdateFaviconState(Initial([]), 0, 0, true);
    assert st1.icons == [Gray];
    var st2 := UpdateFaviconState(st1, 30, 0, false);
    assert TimeKey(1800) == 300;
    assert DynamicColor(TotalMinutes(30, 0), false) == Green;
    assert st2.icons == [Green];
  }

  /** The colour a call means to show. */
  function IntendedColor(m: int, s: int, outside: bool): string
  {
    if outside then Gray else DynamicColor(TotalMinutes(m, s), ShouldFlash(m, s))
  }

  /** A corrected cache: one entry recording the colour last written, shared
      by both kinds of update, so a write is skipped only when the page
      already shows that colour. */
  function UpdateFaviconCached(lastColor: Option<string>, icons: seq<string>, m: int, s: int, outside: bool)
    : (r: (Option<string>, seq<string>))
  {
    var c := IntendedColor(m, s, outside);
    if lastColor == Some(c) then (lastColor, icons) else (Some(c), WriteIcon(icons, c))
  }

  /** With the corrected cache, as long as the cache agrees with the page,
      every call leaves the intended colour showing and the cache still
      agreeing. */
  lemma CachedShowsIntended(lastColor: Option<string>, icons: seq<string>, m: int, s: int, outside: bool)
    requires lastColor.Some? ==> ShownIcon(icons) == lastColor
    ensures var r := UpdateFaviconCached(lastColor, icons, m, s, outside);
      ShownIcon(r.1) == Some(IntendedColor(m, s, outside)) && r.0 == ShownIcon(r.1)
  {
  }

  /** The module's caches and the page's icon links, updated in place. */
  class IconCache {
    var lastIsFlashing: bool
    var lastTimeKey: int
    var lastSolidColor: Option<string>
    var icons: seq<string>

    constructor(links: seq<string>)
      ensures lastIsFlashing == false && lastTimeKey == TimeKey(-60)
      ensures lastSolidColor == None && icons == links
    {
      lastIsFlashing := false;
      lastTimeKey := TimeKey(-60);
      lastSolidColor := None;
      icons := links;
    }

    function State(): IconState
      reads this
    {
      IconState(lastIsFlashing, lastTimeKey, lastSolidColor, icons)
    }

    /** `setFavicon(color)` */
    method SetFavicon(color: string)
      modifies this
      ensures State() == SetFaviconState(old(State()), color)
    {
      if lastSolidColor == Some(color) {
        return;
      }
      if |icons| > 0 {
        icons := icons[0 := color];
      } else {
        icons := icons + [color];
      }
      lastSolidColor := Some(color);
    }

    /** `updateFavicon(timeLeftMinutes, timeLeftSeconds, isOutsideSchoolHours)` */
    method UpdateFavicon(m: int, s: int, outside: bool)
      modifies this
      ensures State() == UpdateFaviconState(old(State()), m, s, outside)
    {
      if outside {
        SetFavicon(Gray);
        return;
      }
      var totalMinutes := TotalMinutes(m, s);
      var shouldFlash := m == 0 && s < 30 && JsRem(s, 2) == 0;
      var key := TimeKey(60 * m + s);
      if key != lastTimeKey || shouldFlash != lastIsFlashing {
        var color := DynamicColor(totalMinutes, shouldFlash);
        if |icons| > 0 {
          icons := icons[0 := color];
        } else {
          icons := icons + [color];
        }
        lastTimeKey := key;
        lastIsFlashing := shouldFlash;
      }
    }
  }
}
