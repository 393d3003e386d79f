/** The tab icon of the uploaded copy of the timer: the same colour bands
    as the redesigned one, but no caches, so every call rewrites the icon,
    and a flash rule without the even-second test. */
module FaviconLatest {
  import opened Timing
  import Favicon

  /** `shouldFlash`: no whole minute left and under 30 seconds. */
  predicate ShouldFlash(m: int, s: int)
  {
    m == 0 && s < 30
  }

  /** The colour `updateFavicon(m, s, isOutsideSchoolHours)` puts on the page. */
  function IconColor(m: int, s: int, outside: bool): string
  {
    if outside then Favicon.Gray else Favicon.DynamicColor(Favicon.TotalMinutes(m, s), ShouldFlash(m, s))
  }

  /** Both `updateFavicon` and `setFavicon` point the first icon link at the
      new colour, or add a link when there is none; the shown icon is then
      that colour whatever was shown before. */
  function UpdateFaviconLinks(icons: seq<string>, m: int, s: int, outside: bool): (r: seq<string>)
    ensures ShownIcon(r) == Some(IconColor(m, s, outside))
    ensures |icons| > 0 ==> |r| == |icons| && r[1..] == icons[1..]
    ensures |icons| == 0 ==> |r| == 1
  {
    Favicon.WriteIcon(icons, IconColor(m, s, outside))
  }

  function ShownIcon(icons: seq<string>): Option<string>
  {
    Favicon.ShownIcon(icons)
  }

  /** The icon shown depends on the last call only: no earlier call leaves
      a trace on it. */
  lemma LastCallDecides(icons: seq<string>, m1: int, s1: int, o1: bool, m2: int, s2: int, o2: bool)
    ensures ShownIcon(UpdateFaviconLinks(UpdateFaviconLinks(icons, m1, s1, o1), m2, s2, o2)) ==
            ShownIcon(UpdateFaviconLinks(icons, m2, s2, o2))
  {
  }

  /** Outside school hours the icon is grey whatever the time left. */
  lemma OutsideIsGray(m: int, s: int)
    ensures IconColor(m, s, true) == Favicon.Gray
  {
  }

  /** This flash rule holds wherever the redesigned one does, and also on
      the odd seconds of the last half minute. */
  lemma FlashRuleWider(m: int, s: int)
    ensures Favicon.ShouldFlash(m, s) ==> ShouldFlash(m, s)
    ensures ShouldFlash(m, s) && !Favicon.ShouldFlash(m, s) <==> m == 0 && s < 30 && JsRem(s, 2) != 0
  {
  }

  /** The two copies pick the same colour except on an odd second of the
      last half minute, where this one shows the bright red and the
      redesigned one the dark red. */
  lemma ColorsAgreeWithRedesign(m: int, s: int, outside: bool)
    ensures IconColor(m, s, outside) != Favicon.IntendedColor(m, s, outside) <==>
      !outside && m == 0 && s < 30 && JsRem(s, 2) != 0
    ensures IconColor(m, s, outside) != Favicon.IntendedColor(m, s, outside) ==>
      IconColor(m, s, outside) == Favicon.RedBright && Favicon.IntendedColor(m, s, outside) == Favicon.RedDark
  {
    if !outside && m == 0 && s < 30 {
      assert Favicon.TotalMinutes(m, s) <= 2.0 by {
        assert s as real / 60.0 < 1.0;
      }
    }
  }

  /** The page's icon links, in document order. */
  class Icons {
    var links: seq<string>

    constructor(initial: seq<string>)
      ensures links == initial
    {
      links := initial;
    }

    /** `setFavicon(color)` */
    method SetFavicon(color: string)
      modifies this
      ensures links == Favicon.WriteIcon(old(links), color)
    {
      if |links| > 0 {
        links := links[0 := color];
      } else {
        links := links + [color];
      }
    }

    /** `updateFavicon(timeLeftMinutes, timeLeftSeconds, isOutsideSchoolHours)` */
    method UpdateFavicon(m: int, s: int, outside: bool)
      modifies this
      ensures links == UpdateFaviconLinks(old(links), m, s, outside)
    {
      if outside {
        SetFavicon(Favicon.Gray);
        return;
      }
      var shouldFlash := m == 0 && s < 30;
      var color := Favicon.DynamicColor(Favicon.TotalMinutes(m, s), shouldFlash);
      if |links| > 0 {
        links := links[0 := color];
      } else {
        links := links + [color];
      }
    }
  }
}
