/** The page's class-list state and the three handlers that change it: the
    scroll tracker, the menu toggle and the theme toggle. Each CSS class the
    script adds or removes is a boolean flag. */
module PageInteractions {
  import opened Wrappers
  import opened Text

  /** A section counts as current from this many pixels above its top. */
  const SectionBias := 150
  /** The header turns sticky once the page is scrolled further than this. */
  const StickyThreshold := 100

  /** A section's layout and `id` attribute, read again on every scroll. */
  datatype Section = Section(offsetTop: int, offsetHeight: int, id: Option<string>)

  /** Which of the optional elements the page has, and each nav link's `href`
      attribute (absent attributes are `None`). */
  datatype Elements = Elements(
    menuIcon: bool,
    navbar: bool,
    header: bool,
    darkModeIcon: bool,
    linkHrefs: seq<Option<string>>)

  /** The flags the handlers change: `bx-x` on the menu icon, `active` on the
      navbar, `sticky` on the header, `bx-sun` on the theme icon, `dark-mode`
      on the body, and `active` on each nav link. */
  datatype PageState = PageState(
    menuIconX: bool,
    navbarActive: bool,
    headerSticky: bool,
    sunIcon: bool,
    darkMode: bool,
    linkActive: seq<bool>)

  /** The scroll offset lies in the section's interval, shifted up by the bias. */
  predicate InSection(sec: Section, top: int) {
    var offset := sec.offsetTop - SectionBias;
    top >= offset && top < offset + sec.offsetHeight
  }

  /** The string `includes` searches for once this id has been stored: an
      absent `id` attribute is `null`, which `includes` converts to "null". */
  function IdText(id: Option<string>): string {
    match id
    case Some(s) => s
    case None => "null"
  }

  /** The value `currentSectionId` holds after the scan over `sections`:
      the id of the last section containing `top`, or "" when none does. */
  function CurrentSectionId(sections: seq<Section>, top: int): string
    decreases |sections|
  {
    if |sections| == 0 then ""
    else if InSection(sections[|sections| - 1], top) then IdText(sections[|sections| - 1].id)
    else CurrentSectionId(sections[..|sections| - 1], top)
  }

  /** When no section contains the offset, the current id stays "". */
  lemma {:induction false} NoMatchGivesEmptyId(sections: seq<Section>, top: int)
    requires forall k :: 0 <= k < |sections| ==> !InSection(sections[k], top)
    ensures CurrentSectionId(sections, top) == ""
    decreases |sections|
  {
    if |sections| > 0 {
      NoMatchGivesEmptyId(sections[..|sections| - 1], top);
    }
  }

  /** When several sections contain the offset, the last of them wins. */
  lemma {:induction false} LastMatchWins(sections: seq<Section>, top: int, k: nat)
    requires k < |sections| && InSection(sections[k], top)
    requires forall j :: k < j < |sections| ==> !InSection(sections[j], top)
    ensures CurrentSectionId(sections, top) == IdText(sections[k].id)
    decreases |sections|
  {
    if k < |sections| - 1 {
      LastMatchWins(sections[..|sections| - 1], top, k);
    }
  }

  /** The index of the first nav link that has no `href`, or the number of
      links when every one has one. */
  function FirstMissingHref(hrefs: seq<Option<string>>): (m: nat)
    ensures m <= |hrefs|
    ensures forall j :: 0 <= j < m ==> hrefs[j].Some?
    ensures m < |hrefs| ==> hrefs[m].None?
    decreases |hrefs|
  {
    if |hrefs| == 0 || hrefs[0].None? then 0
    else 1 + FirstMissingHref(hrefs[1..])
  }

  /** Every nav link has an `href`, so the scroll handler runs to its end;
      otherwise `null.includes` throws at the first link without one. */
  predicate ScrollCompletes(dom: Elements) {
    FirstMissingHref(dom.linkHrefs) == |dom.linkHrefs|
  }

  /** The link flags after the link loop: each link before the first one
      without an `href` is active iff its `href` includes `cur`; that link
      has lost `active` when the loop throws; the links after it keep theirs. */
  function LinkFlags(hrefs: seq<Option<string>>, cur: string, prev: seq<bool>): (r: seq<bool>)
    requires |prev| == |hrefs|
    ensures |r| == |hrefs|
  {
    var m := FirstMissingHref(hrefs);
    seq(|hrefs|, j requires 0 <= j < |hrefs| =>
      if j < m then Includes(hrefs[j].value, cur)
      else if j == m then false
      else prev[j])
  }

  /** The page state after one scroll event at offset `top`. */
  function Scroll(dom: Elements, st: PageState, sections: seq<Section>, top: int): PageState
    requires |st.linkActive| == |dom.linkHrefs|
  {
    var done := ScrollCompletes(dom);
    var closeMenu := done && dom.menuIcon && dom.navbar;
    st.(
      linkActive := LinkFlags(dom.linkHrefs, CurrentSectionId(sections, top), st.linkActive),
      headerSticky := if done && dom.header then top > StickyThreshold else st.headerSticky,
      menuIconX := if closeMenu then false else st.menuIconX,
      navbarActive := if closeMenu then false else st.navbarActive)
  }

  /** The page state after a click on the menu icon. Without a navbar the icon
      flips and then `navbar.classList` throws; without an icon there is no handler. */
  function MenuClick(dom: Elements, st: PageState): PageState {
    if !dom.menuIcon then st
    else st.(
      menuIconX := !st.menuIconX,
      navbarActive := if dom.navbar then !st.navbarActive else st.navbarActive)
  }

  /** The page state after a click on the theme icon; without the icon there is no handler. */
  function ThemeClick(dom: Elements, st: PageState): PageState {
    if !dom.darkModeIcon then st
    else st.(sunIcon := !st.sunIcon, darkMode := !st.darkMode)
  }

  /** After a completed scroll, a link is active iff its `href` includes the id
      of the last section containing the offset. */
  lemma LinkActiveIffHrefIncludesSectionId(
    dom: Elements, st: PageState, sections: seq<Section>, top: int, k: nat, j: nat)
    requires |st.linkActive| == |dom.linkHrefs| && ScrollCompletes(dom)
    requires k < |sections| && InSection(sections[k], top)
    requires forall i :: k < i < |sections| ==> !InSection(sections[i], top)
    requires j < |dom.linkHrefs|
    ensures dom.linkHrefs[j].Some?
    ensures Scroll(dom, st, sections, top).linkActive[j]
        <==> Includes(dom.linkHrefs[j].value, IdText(sections[k].id))
  {
    LastMatchWins(sections, top, k);
  }

  /** After a completed scroll in which no section contains the offset, the
      current id is "" and so every link is active. */
  lemma NoSectionActivatesEveryLink(dom: Elements, st: PageState, sections: seq<Section>, top: int)
    requires |st.linkActive| == |dom.linkHrefs| && ScrollCompletes(dom)
    requires forall k :: 0 <= k < |sections| ==> !InSection(sections[k], top)
    ensures forall j :: 0 <= j < |dom.linkHrefs| ==> Scroll(dom, st, sections, top).linkActive[j]
  {
    NoMatchGivesEmptyId(sections, top);
    forall j | 0 <= j < |dom.linkHrefs|
      ensures Scroll(dom, st, sections, top).linkActive[j]
    {
      IncludesEmpty(dom.linkHrefs[j].value);
    }
  }

  /** After a completed scroll on a page with a header, the header is sticky
      iff the offset exceeds the threshold, whatever it was before. */
  lemma StickyIffPastThreshold(dom: Elements, st: PageState, sections: seq<Section>, top: int)
    requires |st.linkActive| == |dom.linkHrefs| && ScrollCompletes(dom) && dom.header
    ensures Scroll(dom, st, sections, top).headerSticky <==> top > StickyThreshold
  {
  }

  /** After a completed scroll on a page with icon and navbar, the menu is closed. */
  lemma ScrollClosesMenu(dom: Elements, st: PageState, sections: seq<Section>, top: int)
    requires |st.linkActive| == |dom.linkHrefs| && ScrollCompletes(dom)
    requires dom.menuIcon && dom.navbar
    ensures !Scroll(dom, st, sections, top).menuIconX
    ensures !Scroll(dom, st, sections, top).navbarActive
  {
  }

  /** A scroll that throws at the link at index `m` has cleared that link's
      flag and left the later links, the header and the menu as they were. */
  lemma ScrollStopsAtLinkWithoutHref(dom: Elements, st: PageState, sections: seq<Section>, top: int, m: nat)
    requires |st.linkActive| == |dom.linkHrefs|
    requires m < |dom.linkHrefs| && dom.linkHrefs[m].None?
    requires forall j :: 0 <= j < m ==> dom.linkHrefs[j].Some?
    ensures !Scroll(dom, st, sections, top).linkActive[m]
    ensures forall j :: m < j < |dom.linkHrefs| ==> Scroll(dom, st, sections, top).linkActive[j] == st.linkActive[j]
    ensures Scroll(dom, st, sections, top).headerSticky == st.headerSticky
    ensures Scroll(dom, st, sections, top).menuIconX == st.menuIconX
    ensures Scroll(dom, st, sections, top).navbarActive == st.navbarActive
  {
  }

  /** A scroll never touches the theme. */
  lemma ScrollKeepsTheme(dom: Elements, st: PageState, sections: seq<Section>, top: int)
    requires |st.linkActive| == |dom.linkHrefs|
    ensures Scroll(dom, st, sections, top).sunIcon == st.sunIcon
    ensures Scroll(dom, st, sections, top).darkMode == st.darkMode
    ensures |Scroll(dom, st, sections, top).linkActive| == |st.linkActive|
  {
  }

  /** Scrolling twice to the same offset gives the state of scrolling once. */
  lemma ScrollIdempotent(dom: Elements, st: PageState, sections: seq<Section>, top: int)
    requires |st.linkActive| == |dom.linkHrefs|
    ensures var once := Scroll(dom, st, sections, top);
      Scroll(dom, once, sections, top) == once
  {
  }

  /** On a page with every element and every `href`, a scroll forgets the
      menu, header and link state it started from: two states that agree on
      the theme end up equal. */
  lemma ScrollForgetsPriorState(dom: Elements, st1: PageState, st2: PageState, sections: seq<Section>, top: int)
    requires dom.menuIcon && dom.navbar && dom.header && ScrollCompletes(dom)
    requires |st1.linkActive| == |dom.linkHrefs| && |st2.linkActive| == |dom.linkHrefs|
    requires st1.sunIcon == st2.sunIcon && st1.darkMode == st2.darkMode
    ensures Scroll(dom, st1, sections, top) == Scroll(dom, st2, sections, top)
  {
  }

  /** Opening or closing the menu before a completed scroll makes no difference. */
  lemma ScrollIgnoresMenuClick(dom: Elements, st: PageState, sections: seq<Section>, top: int)
    requires |st.linkActive| == |dom.linkHrefs| && ScrollCompletes(dom) && dom.navbar
    ensures Scroll(dom, MenuClick(dom, st), sections, top) == Scroll(dom, st, sections, top)
  {
  }

  /** With icon and navbar, a menu click flips both flags and nothing else. */
  lemma MenuClickFlipsBoth(dom: Elements, st: PageState)
    requires dom.menuIcon && dom.navbar
    ensures MenuClick(dom, st).menuIconX == !st.menuIconX
    ensures MenuClick(dom, st).navbarActive == !st.navbarActive
    ensures MenuClick(dom, st).(menuIconX := st.menuIconX, navbarActive := st.navbarActive) == st
  {
  }

  /** Two menu clicks restore the state they started from. */
  lemma MenuClickTwiceIsIdentity(dom: Elements, st: PageState)
    ensures MenuClick(dom, MenuClick(dom, st)) == st
  {
  }

  /** A menu click keeps the icon and navbar flags in agreement when both exist. */
  lemma MenuClickKeepsFlagsInStep(dom: Elements, st: PageState)
    requires dom.navbar && st.menuIconX == st.navbarActive
    ensures MenuClick(dom, st).menuIconX == MenuClick(dom, st).navbarActive
  {
  }

  /** With the theme icon, a theme click flips icon and body flag and nothing else. */
  lemma ThemeClickFlipsBoth(dom: Elements, st: PageState)
    requires dom.darkModeIcon
    ensures ThemeClick(dom, st).sunIcon == !st.sunIcon
    ensures ThemeClick(dom, st).darkMode == !st.darkMode
    ensures ThemeClick(dom, st).(sunIcon := st.sunIcon, darkMode := st.darkMode) == st
  {
  }

  /** Two theme clicks restore the state they started from. */
  lemma ThemeClickTwiceIsIdentity(dom: Elements, st: PageState)
    ensures ThemeClick(dom, ThemeClick(dom, st)) == st
  {
  }

  /** The page: the elements it was loaded with and their class flags. */
  class Page {
    const dom: Elements
    var menuIconX: bool
    var navbarActive: bool
    var headerSticky: bool
    var sunIcon: bool
    var darkMode: bool
    /** The `active` flag of each nav link, in document order. */
    const linkActive: array<bool>

    /** One flag per nav link. */
    ghost predicate Valid()
      reads this
    {
      linkActive.Length == |dom.linkHrefs|
    }

    function State(): PageState
      reads this, linkActive
    {
      PageState(menuIconX, navbarActive, headerSticky, sunIcon, darkMode, linkActive[..])
    }

    /** The page as the markup delivers it. */
    constructor (dom: Elements, init: PageState)
      requires |init.linkActive| == |dom.linkHrefs|
      ensures Valid() && this.dom == dom && State() == init && fresh(linkActive)
    {
      this.dom := dom;
      menuIconX, navbarActive, headerSticky := init.menuIconX, init.navbarActive, init.headerSticky;
      sunIcon, darkMode := init.sunIcon, init.darkMode;
      linkActive := new bool[|init.linkActive|](j requires 0 <= j < |init.linkActive| => init.linkActive[j]);
    }

    /** The menu icon's click handler. */
    method OnMenuClick()
      requires Valid()
      modifies this
      ensures Valid()
      ensures State() == MenuClick(dom, old(State()))
    {
      if dom.menuIcon {
        menuIconX := !menuIconX;
        if dom.navbar {
          navbarActive := !navbarActive;
        }
      }
    }

    /** The theme icon's click handler. */
    method OnThemeClick()
      requires Valid()
      modifies this
      ensures Valid()
      ensures State() == ThemeClick(dom, old(State()))
    {
      if dom.darkModeIcon {
        sunIcon := !sunIcon;
        darkMode := !darkMode;
      }
    }

    /** The scroll handler, with the sections' current layout and the scroll
        offset; `completed` is false when it throws at a link without `href`. */
    method OnScroll(sections: seq<Section>, top: int) returns (completed: bool)
      requires Valid()
      modifies this, linkActive
      ensures Valid()
      ensures completed == ScrollCompletes(dom)
      ensures State() == Scroll(dom, old(State()), sections, top)
    {
      var currentSectionId := "";
      var i := 0;
      while i < |sections|
        invariant 0 <= i <= |sections|
        invariant currentSectionId == CurrentSectionId(sections[..i], top)
      {
        var sec := sections[i];
        var offset := sec.offsetTop - SectionBias;
        var height := sec.offsetHeight;
        if top >= offset && top < offset + height {
          currentSectionId := IdText(sec.id);
        }
        assert sections[..i + 1][..i] == sections[..i];
        i := i + 1;
      }
      assert sections[..i] == sections;

      var j := 0;
      while j < linkActive.Length
        invariant 0 <= j <= linkActive.Length
        invariant forall k :: 0 <= k < j ==> dom.linkHrefs[k].Some?
        invariant forall k :: 0 <= k < j ==> linkActive[k] == Includes(dom.linkHrefs[k].value, currentSectionId)
        invariant forall k :: j <= k < linkActive.Length ==> linkActive[k] == old(linkActive[k])
        invariant unchanged(`menuIconX, `navbarActive, `headerSticky, `sunIcon, `darkMode)
      {
        linkActive[j] := false;
        match dom.linkHrefs[j] {
          case None =>
            assert FirstMissingHref(dom.linkHrefs) == j;
            assert linkActive[..] == LinkFlags(dom.linkHrefs, currentSectionId, old(linkActive[..]));
            return false;
          case Some(href) =>
            if Includes(href, currentSectionId) {
              linkActive[j] := true;
            }
        }
        j := j + 1;
      }
      assert linkActive[..] == LinkFlags(dom.linkHrefs, currentSectionId, old(linkActive[..]));

      if dom.header {
        headerSticky := top > StickyThreshold;
      }
      if dom.menuIcon && dom.navbar {
        menuIconX := false;
        navbarActive := false;
      }
      completed := true;
    }
  }
}
