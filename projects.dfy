/** The projects section: the project list, the cycling border colours and
    the two layouts, a desktop grid in declared order and a mobile stack of
    sticky cards in reverse order. */
module Projects {

  datatype Project = Project(title: string, link: string, category: string)

  const AllProjects: seq<Project> := [
    Project("AlKian Agency", "https://alkian.sa/", "Landing Page"),
    Project("Al-Berwaz IPTV", "https://al-berwaz.com/", "E-commerce"),
    Project("Interactive Cafe Menu", "https://t-menu.netlify.app/", "Web App"),
    Project("Interactive Restaurant Menu", "https://pi-menu.netlify.app/", "Web App"),
    Project("Coupon Palace", "https://coupon-palace.netlify.app/", "Web App"),
    Project("FitTrackerPro", "https://fit-trackerpro.netlify.app/", "Web App")
  ]

  const BorderColors: seq<string> := [
    "border-blue-500/50 hover:border-blue-500",
    "border-purple-500/50 hover:border-purple-500",
    "border-emerald-500/50 hover:border-emerald-500",
    "border-pink-500/50 hover:border-pink-500",
    "border-amber-500/50 hover:border-amber-500",
    "border-teal-500/50 hover:border-teal-500"
  ]

  /** The border colour of the card at `index`, cycling through the six. */
  function GetBorderColor(index: nat): (c: string)
    ensures c in BorderColors
  {
    BorderColors[index % |BorderColors|]
  }

  /** The six colours are pairwise distinct. */
  lemma BorderColorsDistinct(i: nat, j: nat)
    requires i < j < |BorderColors|
    ensures BorderColors[i] != BorderColors[j]
  {
    FirstColorTags();
    LastColorTags();
    PurplePinkTags();
  }

  // Helper lemmas for the verifier, with no counterpart in the source: the
  // characters after `border-` that tell the six colours apart.
  lemma FirstColorTags()
    ensures BorderColors[0][7] == 'b' && BorderColors[1][7] == 'p' && BorderColors[2][7] == 'e'
  {
  }

  lemma LastColorTags()
    ensures BorderColors[3][7] == 'p' && BorderColors[4][7] == 'a' && BorderColors[5][7] == 't'
  {
  }

  lemma PurplePinkTags()
    ensures BorderColors[1][8] == 'u' && BorderColors[3][8] == 'i'
  {
  }

  /** The colours repeat every six cards. */
  lemma BorderColorPeriodic(index: nat)
    ensures GetBorderColor(index + 6) == GetBorderColor(index)
  {
  }

  /** Neighbouring cards never share a colour. */
  lemma NeighboursDiffer(index: nat)
    ensures GetBorderColor(index) != GetBorderColor(index + 1)
  {
    var a, b := index % 6, (index + 1) % 6;
    if a < b {
      BorderColorsDistinct(a, b);
    } else {
      assert a == 5 && b == 0;
      BorderColorsDistinct(b, a);
    }
  }

  /** A grid card: the project and its border colour. */
  datatype DesktopCard = DesktopCard(project: Project, borderColor: string)

  /** The desktop grid: the projects in declared order, coloured by index. */
  function DesktopCards(ps: seq<Project>): (cards: seq<DesktopCard>)
    ensures |cards| == |ps|
    ensures forall i | 0 <= i < |ps| :: cards[i] == DesktopCard(ps[i], GetBorderColor(i))
  {
    seq(|ps|, i requires 0 <= i < |ps| => DesktopCard(ps[i], GetBorderColor(i)))
  }

  /** `[...ps].reverse()`: a reversed copy. */
  function Reverse(ps: seq<Project>): (r: seq<Project>)
    ensures |r| == |ps|
    ensures forall i | 0 <= i < |ps| :: r[i] == ps[|ps| - 1 - i]
  {
    if |ps| == 0 then [] else Reverse(ps[1..]) + [ps[0]]
  }

  lemma ReverseInvolutive(ps: seq<Project>)
    ensures Reverse(Reverse(ps)) == ps
  {
  }

  /** A sticky list item of the mobile stack; offsets are in vh. */
  datatype MobileItem = MobileItem(project: Project, borderColor: string, topVh: nat, paddingTopVh: nat)

  /** The mobile stack: the reversed list, each item coloured and offset by
      its position in the reversed list. */
  function MobileItems(ps: seq<Project>): (items: seq<MobileItem>)
    ensures |items| == |ps|
    ensures forall i | 0 <= i < |ps| ::
              items[i] == MobileItem(Reverse(ps)[i], GetBorderColor(i), i * 4, i * 4)
  {
    var rev := Reverse(ps);
    seq(|ps|, i requires 0 <= i < |ps| => MobileItem(rev[i], GetBorderColor(i), i * 4, i * 4))
  }

  /** Reading the mobile stack from the bottom gives the desktop order, and
      each project's mobile colour is the one of the mirrored index. */
  lemma MobileMirrorsDesktop(ps: seq<Project>, k: nat)
    requires k < |ps|
    ensures MobileItems(ps)[|ps| - 1 - k].project == DesktopCards(ps)[k].project
    ensures MobileItems(ps)[|ps| - 1 - k].borderColor == GetBorderColor(|ps| - 1 - k)
  {
  }

  /** Later items sit lower: the sticky offsets strictly increase. */
  lemma StickyOffsetsIncrease(ps: seq<Project>, i: nat, j: nat)
    requires i < j < |ps|
    ensures MobileItems(ps)[i].topVh < MobileItems(ps)[j].topVh
  {
  }

  /** The list items are keyed by title, and the titles are distinct. */
  lemma TitlesDistinct(i: nat, j: nat)
    requires i < j < |AllProjects|
    ensures AllProjects[i].title != AllProjects[j].title
  {
    var lens := [13, 14, 21, 27, 13, 13];
    assert forall k | 0 <= k < |AllProjects| :: |AllProjects[k].title| == lens[k];
    if lens[i] == lens[j] {
      assert AllProjects[0].title[0] == 'A';
      assert AllProjects[4].title[0] == 'C';
      assert AllProjects[5].title[0] == 'F';
    }
  }
}
