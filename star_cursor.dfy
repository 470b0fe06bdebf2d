/** The star trail that follows the mouse on desktop screens: a throttled
    move handler appends three stars per accepted move, and a delayed step
    trims the trail to its newest twelve. */
module StarCursor {

  const StarCharacters: seq<char> := ['\U{2726}', '\U{22C6}']

  datatype ColorSet = ColorSet(light: string, dark: string, shadowLight: string, shadowDark: string)

  const Colors: seq<ColorSet> := [
    ColorSet("text-blue-500", "text-blue-300", "59,130,246", "147,197,253"),
    ColorSet("text-purple-500", "text-purple-300", "168,85,247", "216,180,254"),
    ColorSet("text-pink-500", "text-pink-300", "236,72,153", "249,168,212"),
    ColorSet("text-emerald-500", "text-emerald-300", "16,185,129", "110,231,183"),
    ColorSet("text-yellow-500", "text-yellow-300", "234,179,8", "253,224,71")
  ]

  const BatchSize := 3
  const TrailLength := 12
  const ThrottleMs := 50
  const DesktopMinWidth := 768

  datatype Star = Star(id: int, x: real, y: real, ch: char, size: real, colorIndex: int)

  /** The five `Math.random()` draws behind one star, each in [0, 1). */
  datatype Draws = Draws(dx: real, dy: real, charPick: real, size: real, colorPick: real)

  predicate Unit(r: real)
  {
    0.0 <= r < 1.0
  }

  predicate ValidDraws(d: Draws)
  {
    Unit(d.dx) && Unit(d.dy) && Unit(d.charPick) && Unit(d.size) && Unit(d.colorPick)
  }

  /** `Math.floor(r * n)` for a draw `r` lands in [0, n). */
  function Pick(r: real, n: nat): (k: int)
    requires Unit(r) && n > 0
    ensures 0 <= k < n
  {
    var k := (r * n as real).Floor;
    assert k as real <= r * n as real < n as real;
    k
  }

  /** Every star the component can hold: a valid colour index, one of the
      two characters, and a size in [0.7, 1.0). */
  predicate WellFormed(s: Star)
  {
    0 <= s.colorIndex < |Colors| && s.ch in StarCharacters && 0.7 <= s.size < 1.0
  }

  /** The `i`-th star created at time `now` around the pointer. */
  function MakeStar(now: int, i: nat, clientX: real, clientY: real, d: Draws): (s: Star)
    requires ValidDraws(d)
    ensures WellFormed(s) && s.id == now + i
    ensures clientX - 10.0 <= s.x < clientX + 10.0 && clientY - 10.0 <= s.y < clientY + 10.0
  {
    Star(now + i,
         clientX + (d.dx - 0.5) * 20.0,
         clientY + (d.dy - 0.5) * 20.0,
         StarCharacters[Pick(d.charPick, |StarCharacters|)],
         d.size * 0.3 + 0.7,
         Pick(d.colorPick, |Colors|))
  }

  /** The batch of three stars one accepted move creates. */
  function NewStars(now: int, clientX: real, clientY: real, draws: seq<Draws>): (batch: seq<Star>)
    requires |draws| == BatchSize && forall d | d in draws :: ValidDraws(d)
    ensures |batch| == BatchSize
    ensures forall i | 0 <= i < BatchSize :: batch[i].id == now + i && WellFormed(batch[i])
  {
    seq(BatchSize, i requires 0 <= i < BatchSize => MakeStar(now, i, clientX, clientY, draws[i]))
  }

  /** The ids within one batch are distinct. */
  lemma BatchIdsDistinct(now: int, clientX: real, clientY: real, draws: seq<Draws>, i: int, j: int)
    requires |draws| == BatchSize && forall d | d in draws :: ValidDraws(d)
    requires 0 <= i < j < BatchSize
    ensures NewStars(now, clientX, clientY, draws)[i].id != NewStars(now, clientX, clientY, draws)[j].id
  {
  }

  /** The trim step: keep the newest twelve stars when there are more. */
  function Trimmed(stars: seq<Star>): (r: seq<Star>)
    ensures |stars| > TrailLength ==> |r| == TrailLength
    ensures |stars| <= TrailLength ==> r == stars
    ensures |r| <= |stars| && r == stars[|stars| - |r|..]
  {
    if |stars| > TrailLength then stars[|stars| - TrailLength..] else stars
  }

  lemma TrimIdempotent(stars: seq<Star>)
    ensures Trimmed(Trimmed(stars)) == Trimmed(stars)
  {
  }

  /** The move handler runs when it never ran (`lastCall` is 0) or when more
      than 50 ms have passed since it last ran. */
  predicate Accepts(lastCall: int, now: int)
    ensures lastCall == 0 ==> Accepts(lastCall, now)
    ensures lastCall != 0 && now <= lastCall + ThrottleMs ==> !Accepts(lastCall, now)
  {
    lastCall == 0 || now - lastCall > ThrottleMs
  }

  /** Waiting longer never turns an accepted move away. */
  lemma AcceptsLater(lastCall: int, now: int, later: int)
    requires Accepts(lastCall, now) && now <= later
    ensures Accepts(lastCall, later)
  {
  }

  /** The star component: whether the screen counts as desktop, the trail,
      the pointer position and the throttle's `lastCall`. `handled` records
      the times of the moves the current handler accepted. */
  class StarField {
    var isDesktop: bool
    var stars: seq<Star>
    var mouseX: real
    var mouseY: real
    var lastCall: int
    ghost var handled: seq<int>

    ghost predicate Valid()
      reads this
    {
      (forall s | s in stars :: WellFormed(s)) &&
      (handled == [] ==> lastCall == 0) &&
      (handled != [] ==> lastCall == handled[|handled| - 1]) &&
      (forall i | 0 <= i < |handled| :: handled[i] > 0) &&
      (forall i, j | 0 <= i < j < |handled| :: handled[j] - handled[i] > ThrottleMs)
    }

    /** Before the first resize check the component is not on desktop. */
    constructor ()
      ensures Valid() && !isDesktop && stars == [] && lastCall == 0 && handled == []
      ensures mouseX == 0.0 && mouseY == 0.0
    {
      isDesktop := false;
      stars := [];
      mouseX, mouseY := 0.0, 0.0;
      lastCall := 0;
      handled := [];
    }

    /** A window width reading (on mount and on resize). A change of the
        desktop flag re-installs the move handler, whose `lastCall` starts
        at 0 again. */
    method Resize(width: int)
      requires Valid()
      modifies this
      ensures Valid()
      ensures isDesktop <==> width >= DesktopMinWidth
      ensures stars == old(stars) && mouseX == old(mouseX) && mouseY == old(mouseY)
      ensures isDesktop != old(isDesktop) ==> lastCall == 0 && handled == []
      ensures isDesktop == old(isDesktop) ==> lastCall == old(lastCall) && handled == old(handled)
    {
      var desktop := width >= DesktopMinWidth;
      if desktop != isDesktop {
        isDesktop := desktop;
        lastCall := 0;
        handled := [];
      }
    }

    /** A mouse move at time `now`. Off desktop no handler is installed;
        on desktop the throttle decides, and an accepted move records the
        pointer, appends a batch of three stars after the existing ones and
        sets `lastCall` to `now`. */
    method MouseMove(now: int, clientX: real, clientY: real, draws: seq<Draws>) returns (accepted: bool)
      requires Valid()
      requires now > 0
      requires |draws| == BatchSize && forall d | d in draws :: ValidDraws(d)
      modifies this
      ensures Valid()
      ensures accepted <==> old(isDesktop) && Accepts(old(lastCall), now)
      ensures accepted ==>
                stars == old(stars) + NewStars(now, clientX, clientY, draws) &&
                lastCall == now && handled == old(handled) + [now] &&
                mouseX == clientX && mouseY == clientY && isDesktop == old(isDesktop)
      ensures !accepted ==> unchanged(this)
    {
      accepted := isDesktop && (lastCall == 0 || now - lastCall > ThrottleMs);
      if accepted {
        mouseX, mouseY := clientX, clientY;
        stars := stars + NewStars(now, clientX, clientY, draws);
        lastCall := now;
        handled := handled + [now];
        assert forall i | 0 <= i < |handled| - 1 :: handled[i] <= old(lastCall);
      }
    }

    /** The delayed trim of the trail. */
    method TrimStars()
      requires Valid()
      modifies this`stars
      ensures Valid()
      ensures stars == Trimmed(old(stars))
    {
      if |stars| > TrailLength {
        stars := stars[|stars| - TrailLength..];
      }
    }
  }

  /** The colour class of a star: the dark variant exactly under the dark theme. */
  function StarColor(theme: string, colorIndex: int): (c: string)
    requires 0 <= colorIndex < |Colors|
    ensures c == Colors[colorIndex].dark <==> theme == "dark"
    ensures c == Colors[colorIndex].light <==> theme != "dark"
  {
    if theme == "dark" then Colors[colorIndex].dark else Colors[colorIndex].light
  }

  /** The glow colour of a star: the dark variant exactly under the dark theme. */
  function StarShadow(theme: string, colorIndex: int): (c: string)
    requires 0 <= colorIndex < |Colors|
    ensures c == Colors[colorIndex].shadowDark <==> theme == "dark"
    ensures c == Colors[colorIndex].shadowLight <==> theme != "dark"
  {
    if theme == "dark" then Colors[colorIndex].shadowDark else Colors[colorIndex].shadowLight
  }

  /** One rendered star: its character, colour class and glow colour. */
  function RenderStar(theme: string, s: Star): (r: (char, string, string))
    requires WellFormed(s)
    ensures r.0 == s.ch && r.1 == StarColor(theme, s.colorIndex) && r.2 == StarShadow(theme, s.colorIndex)
  {
    (s.ch, StarColor(theme, s.colorIndex), StarShadow(theme, s.colorIndex))
  }

  /** What is rendered: nothing off desktop, otherwise one coloured
      character per star, in trail order. */
  function Rendered(isDesktop: bool, theme: string, stars: seq<Star>): (r: seq<(char, string, string)>)
    requires forall i | 0 <= i < |stars| :: WellFormed(stars[i])
    ensures !isDesktop ==> r == []
    ensures isDesktop ==> |r| == |stars|
    ensures isDesktop ==>
              forall i | 0 <= i < |stars| :: r[i] == RenderStar(theme, stars[i])
  {
    if !isDesktop then []
    else seq(|stars|, i requires 0 <= i < |stars| => RenderStar(theme, stars[i]))
  }
}
