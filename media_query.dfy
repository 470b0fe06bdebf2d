/** Media-query strings for the site's breakpoints, what they match, and
    the state of the hooks that follow them. */
module MediaQuery {
  import opened Text

  datatype Breakpoint = Sm | Md | Lg | Xl | Xxl

  /** The `breakpoints` table, as written. */
  function Value(b: Breakpoint): string
  {
    match b
    case Sm => "640px"
    case Md => "768px"
    case Lg => "1024px"
    case Xl => "1280px"
    case Xxl => "1536px"
  }

  /** The pixel width each entry of the table denotes. */
  function Width(b: Breakpoint): nat
  {
    match b
    case Sm => 640
    case Md => 768
    case Lg => 1024
    case Xl => 1280
    case Xxl => 1536
  }

  function Pixels(px: nat): string
  {
    NatToString(px) + "px"
  }

  // Helper lemmas for the verifier, with no counterpart in the source: the
  // decimal renderings of the widths in use, one fact per lemma.
  lemma Dec639() ensures NatToString(639) == "639" { assert NatToString(63) == "63"; }
  lemma Dec640() ensures NatToString(640) == "640" { assert NatToString(64) == "64"; }
  lemma Dec768() ensures NatToString(768) == "768" { assert NatToString(76) == "76"; }
  lemma Dec1023() ensures NatToString(1023) == "1023" { Dec102(); }
  lemma Dec1024() ensures NatToString(1024) == "1024" { Dec102(); }
  lemma Dec102() ensures NatToString(102) == "102" { assert NatToString(10) == "10"; }
  lemma Dec1280() ensures NatToString(1280) == "1280" { assert NatToString(128) == "128"; }
  lemma Dec1536() ensures NatToString(1536) == "1536" { assert NatToString(153) == "153"; }

  /** Each table entry is its width written in decimal, followed by "px". */
  lemma ValueIsWidth(b: Breakpoint)
    ensures Value(b) == Pixels(Width(b))
  {
    match b
    case Sm => Dec640();
    case Md => Dec768();
    case Lg => Dec1024();
    case Xl => Dec1280();
    case Xxl => Dec1536();
  }

  function Rank(b: Breakpoint): nat
  {
    match b
    case Sm => 0
    case Md => 1
    case Lg => 2
    case Xl => 3
    case Xxl => 4
  }

  /** sm < md < lg < xl < 2xl. */
  lemma WidthsAscending(a: Breakpoint, b: Breakpoint)
    requires Rank(a) < Rank(b)
    ensures Width(a) < Width(b)
  {
  }

  /** The structure of a width query. */
  datatype Query = MinWidth(px: nat) | MaxWidth(px: nat) | And(left: Query, right: Query)

  /** The query written in CSS media-query syntax. */
  function Render(q: Query): string
  {
    match q
    case MinWidth(px) => "(min-width: " + Pixels(px) + ")"
    case MaxWidth(px) => "(max-width: " + Pixels(px) + ")"
    case And(l, r) => Render(l) + " and " + Render(r)
  }

  /** Whether a viewport `width` pixels wide satisfies the query. */
  predicate Matches(q: Query, width: int)
  {
    match q
    case MinWidth(px) => width >= px
    case MaxWidth(px) => width <= px
    case And(l, r) => Matches(l, width) && Matches(r, width)
  }

  datatype Bound = Min | Max

  /** `useBreakpoint(b, t)`; `t` defaults to `Min` in the source. */
  function BreakpointQuery(b: Breakpoint, t: Bound): (q: string)
    ensures t == Min ==> q == Render(MinWidth(Width(b)))
    ensures t == Max ==> q == Render(MaxWidth(Width(b)))
  {
    ValueIsWidth(b);
    if t == Min then "(min-width: " + Value(b) + ")" else "(max-width: " + Value(b) + ")"
  }

  /** A min-breakpoint query holds from the breakpoint upwards, a max one up
      to and including it. */
  lemma BreakpointQueryMeaning(b: Breakpoint, width: int)
    ensures Matches(MinWidth(Width(b)), width) <==> width >= Width(b)
    ensures Matches(MaxWidth(Width(b)), width) <==> width <= Width(b)
  {
  }

  const MobileQuery: string := "(max-width: 639px)"
  const TabletQuery: string := "(min-width: 640px) and (max-width: 1023px)"
  const DesktopQuery: string := "(min-width: 1024px)"

  const Mobile: Query := MaxWidth(639)
  const Tablet: Query := And(MinWidth(640), MaxWidth(1023))
  const Desktop: Query := MinWidth(1024)

  /** The three fixed query strings are the renderings of these structures. */
  lemma MobileQueryRenders()
    ensures Render(Mobile) == MobileQuery
  {
    Dec639();
  }

  lemma TabletQueryRenders()
    ensures Render(Tablet) == TabletQuery
  {
    var lower, upper := Render(MinWidth(640)), Render(MaxWidth(1023));
    TabletLowerRenders();
    TabletUpperRenders();
    TabletJoin(lower, upper);
  }

  // Helper lemmas for the verifier, with no counterpart in the source: the
  // two halves of the tablet query and their join, proved apart.
  lemma TabletLowerRenders()
    ensures Render(MinWidth(640)) == "(min-width: 640px)"
  {
    Dec640();
  }

  lemma TabletUpperRenders()
    ensures Render(MaxWidth(1023)) == "(max-width: 1023px)"
  {
    Dec1023();
  }

  lemma TabletJoin(lower: string, upper: string)
    requires lower == "(min-width: 640px)" && upper == "(max-width: 1023px)"
    ensures lower + " and " + upper == TabletQuery
  {
  }

  lemma DesktopQueryRenders()
    ensures Render(Desktop) == DesktopQuery
  {
    Dec1024();
  }

  /** Every integer width matches exactly one of mobile, tablet and desktop. */
  lemma DevicePartition(width: int)
    ensures Matches(Mobile, width) || Matches(Tablet, width) || Matches(Desktop, width)
    ensures !(Matches(Mobile, width) && Matches(Tablet, width))
    ensures !(Matches(Tablet, width) && Matches(Desktop, width))
    ensures !(Matches(Mobile, width) && Matches(Desktop, width))
  {
  }

  /** The state of `useMediaQuery`: false until the query is evaluated. */
  class MediaQueryState {
    var matches: bool

    constructor ()
      ensures !matches
    {
      matches := false;
    }

    /** The evaluation on mount and every change event. */
    method Update(eventMatches: bool)
      modifies this
      ensures matches == eventMatches
    {
      matches := eventMatches;
    }
  }

  /** The state of `useMediaQueries`: one flag per query. */
  class MediaQueriesState {
    var matches: array<bool>

    /** Before evaluation every flag is false. */
    constructor (count: nat)
      ensures fresh(matches)
      ensures matches.Length == count
      ensures forall i | 0 <= i < count :: !matches[i]
    {
      matches := new bool[count](_ => false);
    }

    /** The initial evaluation of all queries replaces the flags. */
    method SetAll(current: seq<bool>)
      modifies this
      ensures fresh(matches)
      ensures matches[..] == current
    {
      matches := new bool[|current|](i requires 0 <= i < |current| => current[i]);
    }

    /** A change event for query `index`: the flags are copied and only the
        copy's entry `index` changes. */
    method HandleChange(index: nat, eventMatches: bool)
      requires index < matches.Length
      modifies this
      ensures fresh(matches)
      ensures matches.Length == old(matches.Length)
      ensures matches[index] == eventMatches
      ensures forall i | 0 <= i < matches.Length && i != index :: matches[i] == old(matches[i])
    {
      var prev := matches;
      var next := new bool[prev.Length];
      var k := 0;
      while k < prev.Length
        invariant 0 <= k <= prev.Length
        invariant forall i | 0 <= i < k :: next[i] == prev[i]
      {
        next[k] := prev[k];
        k := k + 1;
      }
      next[index] := eventMatches;
      matches := next;
    }
  }
}
