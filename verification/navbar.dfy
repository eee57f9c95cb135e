/** The page's navigation bar hides while the reader scrolls down past the top
    of the page and reappears as soon as they scroll up. */
module Navbar {

  /** The two pieces of state the scroll handler reads and writes. */
  datatype Nav = Nav(visible: bool, lastScrollY: real)

  /** Initial state: visible, last scroll position 0. */
  const InitialNav: Nav := Nav(true, 0.0)

  /** Below this scroll offset the bar is always shown. */
  const HideThreshold: real := 100.0

  /** `handleScroll`: hide when the page moved down and is past the threshold,
      otherwise show; then remember the position. */
  function OnScroll(nav: Nav, scrollY: real): (r: Nav)
    ensures r.lastScrollY == scrollY
    ensures !r.visible <==> scrollY > nav.lastScrollY && scrollY > HideThreshold
  {
    if scrollY > nav.lastScrollY && scrollY > HideThreshold then Nav(false, scrollY)
    else Nav(true, scrollY)
  }

  /** Scrolling up (or not moving), or being near the top, always shows the bar;
      the previous visibility plays no part. */
  lemma ShowRules(nav: Nav, scrollY: real)
    ensures scrollY <= nav.lastScrollY ==> OnScroll(nav, scrollY).visible
    ensures scrollY <= HideThreshold ==> OnScroll(nav, scrollY).visible
    ensures OnScroll(nav, scrollY) == OnScroll(nav.(visible := !nav.visible), scrollY)
  {
  }

  /** A run of scroll events. */
  function Scrolls(nav: Nav, ys: seq<real>): (r: Nav)
    decreases |ys|
  {
    if ys == [] then nav else Scrolls(OnScroll(nav, ys[0]), ys[1..])
  }

  /** After a run of scroll events the handler remembers the last position, and
      the bar is hidden exactly when that last event moved down past the
      threshold from the position before it. */
  lemma {:induction false} ScrollsDependOnLastStep(nav: Nav, ys: seq<real>)
    requires |ys| > 0
    ensures Scrolls(nav, ys).lastScrollY == ys[|ys| - 1]
    ensures var before := if |ys| == 1 then nav.lastScrollY else ys[|ys| - 2];
            !Scrolls(nav, ys).visible <==> ys[|ys| - 1] > before && ys[|ys| - 1] > HideThreshold
    decreases |ys|
  {
    if |ys| > 1 {
      ScrollsDependOnLastStep(OnScroll(nav, ys[0]), ys[1..]);
      assert ys[1..][|ys[1..]| - 1] == ys[|ys| - 1];
      if |ys| > 2 {
        assert ys[1..][|ys[1..]| - 2] == ys[|ys| - 2];
      }
    }
  }

  /** From the page's initial state the first scroll event hides the bar
      exactly when it lands past the threshold. */
  lemma FirstScrollFromTop(scrollY: real)
    ensures !OnScroll(InitialNav, scrollY).visible <==> scrollY > HideThreshold
    ensures OnScroll(InitialNav, scrollY).lastScrollY == scrollY
  {
  }
}
