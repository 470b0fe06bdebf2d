/** The navigation bar: the section that is active while scrolling, the
    links' active flag, the mobile menu and the theme-dependent classes. */
module Navbar {
  import opened Wrappers

  datatype NavItem = NavItem(name: string, href: string)

  const Navigation: seq<NavItem> := [
    NavItem("Home", "#home"),
    NavItem("About", "#about"),
    NavItem("Education", "#education"),
    NavItem("Projects", "#projects"),
    NavItem("Contact", "#contact")
  ]

  /** The section is looked up this far below the top of the viewport. */
  const ScrollOffset := 100

  /** `s.substring(1)`: everything after the first character, and "" for "". */
  function DropFirst(s: string): (r: string)
    ensures |s| >= 1 ==> s == [s[0]] + r
    ensures |s| == 0 ==> r == ""
  {
    if |s| >= 1 then s[1..] else ""
  }

  /** The offsets of a section element on the page. */
  datatype Box = Box(offsetTop: int, offsetHeight: int)

  /** The section of `item` exists on the page and its interval holds `pos`. */
  predicate SectionMatches(item: NavItem, elements: map<string, Box>, pos: int)
  {
    var id := DropFirst(item.href);
    id in elements && elements[id].offsetTop <= pos < elements[id].offsetTop + elements[id].offsetHeight
  }

  /** `items[k]` matches and no earlier item does. */
  ghost predicate IsFirstMatch(items: seq<NavItem>, k: int, elements: map<string, Box>, pos: int)
  {
    0 <= k < |items| && SectionMatches(items[k], elements, pos) &&
    forall j | 0 <= j < k :: !SectionMatches(items[j], elements, pos)
  }

  /** `navigation.find(...)`: the first item whose section holds `pos`. */
  function FindSection(items: seq<NavItem>, elements: map<string, Box>, pos: int): (r: Option<NavItem>)
    ensures r.Some? ==> exists k :: IsFirstMatch(items, k, elements, pos) && items[k] == r.value
    ensures r.None? <==> forall k | 0 <= k < |items| :: !SectionMatches(items[k], elements, pos)
  {
    if |items| == 0 then None
    else if SectionMatches(items[0], elements, pos) then
      assert IsFirstMatch(items, 0, elements, pos);
      Some(items[0])
    else
      var r := FindSection(items[1..], elements, pos);
      if r.Some? then
        assert forall k | IsFirstMatch(items[1..], k, elements, pos) ::
          IsFirstMatch(items, k + 1, elements, pos) && items[k + 1] == items[1..][k];
        r
      else
        assert forall k | 1 <= k < |items| :: items[k] == items[1..][k - 1];
        r
  }

  /** A first match is unique, so the one `FindSection` reports is the one. */
  lemma FirstMatchUnique(items: seq<NavItem>, elements: map<string, Box>, pos: int, k: int, m: int)
    requires IsFirstMatch(items, k, elements, pos) && IsFirstMatch(items, m, elements, pos)
    ensures k == m
  {
  }

  /** A link is active when the active section is its href without '#'. */
  predicate IsActive(activeSection: string, item: NavItem)
    ensures |item.href| >= 1 && item.href[0] == '#' ==>
              (IsActive(activeSection, item) <==> item.href == "#" + activeSection)
  {
    activeSection == DropFirst(item.href)
  }

  /** The section ids of the five links are distinct and non-empty. */
  lemma SectionIdsDistinct()
    ensures forall i | 0 <= i < |Navigation| :: DropFirst(Navigation[i].href) != ""
    ensures forall i, j | 0 <= i < j < |Navigation| :: DropFirst(Navigation[i].href) != DropFirst(Navigation[j].href)
  {
    assert DropFirst("#home") == "home";
    assert DropFirst("#about") == "about";
    assert DropFirst("#education") == "education";
    assert DropFirst("#projects") == "projects";
    assert DropFirst("#contact") == "contact";
  }

  /** Whatever the active section, at most one link is active. */
  lemma AtMostOneActive(activeSection: string, i: int, j: int)
    requires 0 <= i < |Navigation| && 0 <= j < |Navigation|
    requires IsActive(activeSection, Navigation[i]) && IsActive(activeSection, Navigation[j])
    ensures i == j
  {
    SectionIdsDistinct();
  }

  /** The initial active section "" makes no link active. */
  lemma NoneActiveInitially(i: int)
    requires 0 <= i < |Navigation|
    ensures !IsActive("", Navigation[i])
  {
    SectionIdsDistinct();
  }

  /** The scroll-dependent state of the bar and its mobile menu. */
  class NavbarState {
    var isOpen: bool
    var activeSection: string

    constructor ()
      ensures !isOpen && activeSection == ""
    {
      isOpen := false;
      activeSection := "";
    }

    /** The scroll handler: the first section holding `scrollY + 100`
        becomes active; when none holds it the active section stays. */
    method HandleScroll(scrollY: int, elements: map<string, Box>)
      modifies this`activeSection
      ensures var found := FindSection(Navigation, elements, scrollY + ScrollOffset);
              (found.Some? ==> activeSection == DropFirst(found.value.href)) &&
              (found.None? ==> activeSection == old(activeSection))
    {
      var found := FindSection(Navigation, elements, scrollY + ScrollOffset);
      if found.Some? {
        activeSection := DropFirst(found.value.href);
      }
    }

    /** The menu button. */
    method ToggleMenu()
      modifies this`isOpen
      ensures isOpen == !old(isOpen)
    {
      isOpen := !isOpen;
    }

    /** A click on a link: only a mobile link closes the menu. */
    method LinkClick(isMobile: bool)
      modifies this`isOpen
      ensures isMobile ==> !isOpen
      ensures !isMobile ==> isOpen == old(isOpen)
    {
      if isMobile {
        isOpen := false;
      }
    }
  }

  /** After a scroll that lands in a section, exactly the link of the first
      matching section is active. */
  lemma ActiveAfterScroll(elements: map<string, Box>, pos: int, i: int)
    requires 0 <= i < |Navigation|
    requires FindSection(Navigation, elements, pos).Some?
    ensures IsActive(DropFirst(FindSection(Navigation, elements, pos).value.href), Navigation[i])
            <==> IsFirstMatch(Navigation, i, elements, pos)
  {
    var found := FindSection(Navigation, elements, pos);
    var k :| IsFirstMatch(Navigation, k, elements, pos) && Navigation[k] == found.value;
    if IsActive(DropFirst(found.value.href), Navigation[i]) {
      AtMostOneActive(DropFirst(found.value.href), i, k);
    }
    if IsFirstMatch(Navigation, i, elements, pos) {
      FirstMatchUnique(Navigation, elements, pos, i, k);
    }
  }

  datatype ThemeClasses = ThemeClasses(active: string, inactive: string, container: string)

  const DarkClasses := ThemeClasses(
    "text-white bg-blue-500/10 border border-blue-400/30",
    "text-gray-300 hover:text-white hover:bg-gray-800/20 border border-transparent hover:border-gray-700/30",
    "bg-gray-900/80 border-gray-700 shadow-lg shadow-gray-900/30")

  const LightClasses := ThemeClasses(
    "text-gray-900 bg-blue-400/10 border border-blue-300/30",
    "text-gray-600 hover:text-gray-900 hover:bg-gray-200/20 border border-transparent hover:border-gray-200/30",
    "bg-white/80 border-gray-200 shadow-lg shadow-gray-200/30")

  /** The link and container classes: the dark set exactly under the dark theme. */
  function GetThemeClasses(theme: string): (c: ThemeClasses)
    ensures c == DarkClasses <==> theme == "dark"
    ensures c == LightClasses <==> theme != "dark"
  {
    assert |DarkClasses.active| != |LightClasses.active|;
    if theme == "dark" then DarkClasses else LightClasses
  }
}
