/**
 The sliding navigation bar: the active tab found from the path, the pill
 indicator that hides when no tab matches, the hide-on-scroll-down rule and
 the short stretch animation when the active tab changes. Scroll positions
 are whole pixels; the 300 ms timer is the `AnimationEnded` call.
 */
module Navbar {
  import Lists

  datatype Tab = Tab(id: string, title: string)

  const Tabs: seq<Tab> := [
    Tab("/", "Home"), Tab("/feed", "Feed"), Tab("/network", "Network"),
    Tab("/chat", "Chat"), Tab("/roadmaps", "Roadmaps"), Tab("/quiz", "Quiz")
  ]

  function HasId(pathname: string): Tab -> bool {
    (t: Tab) => t.id == pathname
  }

  /** The index of the tab whose id is the path, or -1 when none is. */
  function ActiveIndex(pathname: string): (i: int)
    ensures -1 <= i < |Tabs|
    ensures i == -1 <==> forall k :: 0 <= k < |Tabs| ==> Tabs[k].id != pathname
    ensures 0 <= i ==> Tabs[i].id == pathname
  {
    Lists.FirstIndex(Tabs, HasId(pathname))
  }

  /** No two tabs share a path. */
  lemma TabIdsDistinct()
    ensures forall a, b :: 0 <= a < b < |Tabs| ==> Tabs[a].id != Tabs[b].id
  {
    forall a, b | 0 <= a < b < |Tabs| ensures Tabs[a].id != Tabs[b].id {
      var x, y := Tabs[a].id, Tabs[b].id;
      if |x| == |y| {
        assert |x| == 5 && x[1] != y[1];
      }
    }
  }

  /** Each tab's own path selects that tab. */
  lemma ActiveIndexOfTabs()
    ensures forall k :: 0 <= k < |Tabs| ==> ActiveIndex(Tabs[k].id) == k
  {
    TabIdsDistinct();
    forall k | 0 <= k < |Tabs| ensures ActiveIndex(Tabs[k].id) == k {
      var i := ActiveIndex(Tabs[k].id);
      assert HasId(Tabs[k].id)(Tabs[k]);
    }
  }

  /** A path below a tab's path selects no tab. */
  lemma NestedPathHasNoTab()
    ensures ActiveIndex("/quiz/play") == -1
  {
    forall k | 0 <= k < |Tabs| ensures Tabs[k].id != "/quiz/play" {
      assert |Tabs[k].id| < |"/quiz/play"|;
    }
  }

  /** The indicator is hidden exactly when no tab is active. */
  function IndicatorOpacity(activeIndex: int): (o: int)
    ensures o == 0 <==> activeIndex == -1
    ensures o == 0 || o == 1
  {
    if activeIndex == -1 then 0 else 1
  }

  /** The slot the indicator sits in: the active tab, or the first slot when none is. */
  function IndicatorSlot(activeIndex: int): (s: int)
    ensures activeIndex == -1 ==> s == 0
    ensures activeIndex != -1 ==> s == activeIndex
  {
    if activeIndex == -1 then 0 else activeIndex
  }

  /** The bar stays shown unless the page scrolled down and is past the first 100 pixels. */
  function ShownAfterScroll(lastScrollY: int, scrollY: int): (v: bool)
    ensures !v <==> lastScrollY < scrollY && 100 < scrollY
    ensures scrollY <= 100 ==> v
    ensures scrollY <= lastScrollY ==> v
  {
    !(scrollY > lastScrollY && scrollY > 100)
  }

  class SlidingNavbar {
    var pathname: string
    var isVisible: bool
    var isAnimating: bool
    var lastScrollY: int
    var prevIndex: int

    constructor (pathname: string)
      ensures this.pathname == pathname && isVisible && !isAnimating
      ensures lastScrollY == 0 && prevIndex == ActiveIndex(pathname)
    {
      this.pathname := pathname;
      isVisible := true;
      isAnimating := false;
      lastScrollY := 0;
      prevIndex := ActiveIndex(pathname);
    }

    /** `handleScroll`: visibility from the direction and depth, then remember the position. */
    method OnScroll(scrollY: int)
      modifies this
      ensures isVisible == ShownAfterScroll(old(lastScrollY), scrollY)
      ensures lastScrollY == scrollY
      ensures pathname == old(pathname) && isAnimating == old(isAnimating) && prevIndex == old(prevIndex)
    {
      isVisible := ShownAfterScroll(lastScrollY, scrollY);
      lastScrollY := scrollY;
    }

    /**
     A new path: when the active index differs from the remembered one the
     stretch animation starts and the index is remembered; otherwise nothing
     changes.
     */
    method Navigate(newPathname: string)
      modifies this
      ensures pathname == newPathname
      ensures ActiveIndex(newPathname) != old(prevIndex) ==> isAnimating && prevIndex == ActiveIndex(newPathname)
      ensures ActiveIndex(newPathname) == old(prevIndex) ==> isAnimating == old(isAnimating) && prevIndex == old(prevIndex)
      ensures isVisible == old(isVisible) && lastScrollY == old(lastScrollY)
    {
      pathname := newPathname;
      var activeIndex := ActiveIndex(pathname);
      if prevIndex != activeIndex {
        isAnimating := true;
        prevIndex := activeIndex;
      }
    }

    /** The animation timer fires. */
    method AnimationEnded()
      modifies this
      ensures !isAnimating
      ensures pathname == old(pathname) && isVisible == old(isVisible)
      ensures lastScrollY == old(lastScrollY) && prevIndex == old(prevIndex)
    {
      isAnimating := false;
    }
  }
}
