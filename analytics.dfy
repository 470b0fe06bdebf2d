/** Analytics rules: the scroll-depth tracker, which reports each threshold
    at most once, and the fixed action-to-event-name mappings. */
module Analytics {
  import opened Wrappers
  import opened Text

  // ------------------------------------------------------------ scroll depth

  /** The thresholds, in percent of the scrollable height. */
  const ScrollDepths: seq<nat> := [25, 50, 75, 90]

  const ScrollDepthEvent := "scroll_depth"
  const InteractionCategory := "interaction"

  datatype ScrollEvent = ScrollEvent(action: string, category: string, eventLabel: string, value: nat)

  /** The event sent when depth `d` is first reached. */
  function ScrollEventFor(d: nat): ScrollEvent
  {
    ScrollEvent(ScrollDepthEvent, InteractionCategory, "Scrolled " + NatToString(d) + "%", d)
  }

  function Events(ds: seq<nat>): (es: seq<ScrollEvent>)
    ensures |es| == |ds|
    ensures forall i | 0 <= i < |ds| :: es[i] == ScrollEventFor(ds[i])
  {
    seq(|ds|, i requires 0 <= i < |ds| => ScrollEventFor(ds[i]))
  }

  lemma EventsAppend(a: seq<nat>, b: seq<nat>)
    ensures Events(a + b) == Events(a) + Events(b)
  {
  }

  predicate StrictlyAscending(s: seq<nat>)
  {
    forall i, j | 0 <= i < j < |s| :: s[i] < s[j]
  }

  predicate Distinct(s: seq<nat>)
  {
    forall i, j | 0 <= i < j < |s| :: s[i] != s[j]
  }

  /** The thresholds of `depths` that one scroll at `pct` reports, in list
      order: those reached and not tracked before. */
  function NewlyReached(tracked: seq<nat>, pct: real, depths: seq<nat>): (r: seq<nat>)
    ensures forall d | d in r :: d in depths && d !in tracked && d as real <= pct
    ensures forall d | d in depths && d !in tracked && d as real <= pct :: d in r
    decreases |depths|
  {
    if depths == [] then []
    else
      var d := depths[|depths| - 1];
      var before := NewlyReached(tracked, pct, depths[..|depths| - 1]);
      assert forall x | x in depths :: x in depths[..|depths| - 1] || x == d;
      if pct >= d as real && d !in tracked then before + [d] else before
  }

  /** Over a strictly ascending threshold list, the newly reported depths
      come out strictly ascending too. */
  lemma {:induction false} NewlyReachedAscending(tracked: seq<nat>, pct: real, depths: seq<nat>)
    requires StrictlyAscending(depths)
    ensures StrictlyAscending(NewlyReached(tracked, pct, depths))
    decreases |depths|
  {
    if depths != [] {
      var init := depths[..|depths| - 1];
      var before := NewlyReached(tracked, pct, init);
      NewlyReachedAscending(tracked, pct, init);
      var d := depths[|depths| - 1];
      forall x | x in before ensures x < d {
        var i :| 0 <= i < |init| && init[i] == x;
      }
      var r := NewlyReached(tracked, pct, depths);
      if r != before {
        assert r == before + [d];
        forall i, j | 0 <= i < j < |r| ensures r[i] < r[j] {
          if j == |before| {
            assert r[i] in before;
          } else {
            assert r[i] == before[i] && r[j] == before[j];
          }
        }
      }
    }
  }

  lemma ThresholdsAscending()
    ensures StrictlyAscending(ScrollDepths)
  {
  }

  /** The tracker's state after handling one scroll at `pct`. */
  function Step(tracked: seq<nat>, pct: real): seq<nat>
  {
    tracked + NewlyReached(tracked, pct, ScrollDepths)
  }

  /** A valid record of reported depths: thresholds only, each once. */
  ghost predicate WellTracked(tracked: seq<nat>)
  {
    Distinct(tracked) && forall d | d in tracked :: d in ScrollDepths
  }

  lemma StepKeepsWellTracked(tracked: seq<nat>, pct: real)
    requires WellTracked(tracked)
    ensures WellTracked(Step(tracked, pct))
    ensures forall d | d in ScrollDepths && d as real <= pct :: d in Step(tracked, pct)
  {
    var added := NewlyReached(tracked, pct, ScrollDepths);
    NewlyReachedAscending(tracked, pct, ScrollDepths);
    var s := Step(tracked, pct);
    forall i, j | 0 <= i < j < |s| ensures s[i] != s[j] {
      if j >= |tracked| && i < |tracked| {
        assert s[j] in added;
      } else if i >= |tracked| {
        assert s[i] == added[i - |tracked|] && s[j] == added[j - |tracked|];
      }
    }
  }

  /** The tracker's state after a whole sequence of scrolls. */
  function Run(tracked: seq<nat>, pcts: seq<real>): seq<nat>
    decreases |pcts|
  {
    if pcts == [] then tracked else Run(Step(tracked, pcts[0]), pcts[1..])
  }

  /** Whatever the sequence of scroll percentages, every threshold is
      reported at most once, only thresholds are reported, the record only
      grows, and every threshold some scroll reached has been reported. */
  lemma {:induction false} RunReportsEachThresholdOnce(tracked: seq<nat>, pcts: seq<real>)
    requires WellTracked(tracked)
    ensures WellTracked(Run(tracked, pcts))
    ensures tracked <= Run(tracked, pcts)
    ensures forall p, d | p in pcts && d in ScrollDepths && d as real <= p :: d in Run(tracked, pcts)
    decreases |pcts|
  {
    if pcts != [] {
      var next := Step(tracked, pcts[0]);
      StepKeepsWellTracked(tracked, pcts[0]);
      RunReportsEachThresholdOnce(next, pcts[1..]);
      forall p, d | p in pcts && d in ScrollDepths && d as real <= p
        ensures d in Run(tracked, pcts)
      {
        if p != pcts[0] {
          assert p in pcts[1..];
        } else {
          assert d in next;
        }
      }
    }
  }

  /** The scroll listener installed by `initScrollTracking`, with the depths
      reported so far and the analytics events it has sent. */
  class ScrollTracker {
    var trackedDepths: seq<nat>
    var sent: seq<ScrollEvent>

    ghost predicate Valid()
      reads this
    {
      WellTracked(trackedDepths) && sent == Events(trackedDepths)
    }

    constructor ()
      ensures Valid() && trackedDepths == [] && sent == []
    {
      trackedDepths := [];
      sent := [];
    }

    /** `calculateScrollDepth` for a scroll at percentage `pct`: every
        threshold reached and not yet tracked is recorded and reported, in
        threshold order. */
    method CalculateScrollDepth(pct: real)
      requires Valid()
      modifies this
      ensures Valid()
      ensures trackedDepths == Step(old(trackedDepths), pct)
      ensures sent == old(sent) + Events(NewlyReached(old(trackedDepths), pct, ScrollDepths))
      ensures forall d | d in ScrollDepths && d as real <= pct :: d in trackedDepths
    {
      ghost var start := trackedDepths;
      var k := 0;
      while k < |ScrollDepths|
        invariant 0 <= k <= |ScrollDepths|
        invariant trackedDepths == start + NewlyReached(start, pct, ScrollDepths[..k])
        invariant sent == Events(trackedDepths)
      {
        var depth := ScrollDepths[k];
        ScrollStep(start, pct, k, trackedDepths);
        if pct >= depth as real && depth !in trackedDepths {
          EventsAppend(trackedDepths, [depth]);
          trackedDepths := trackedDepths + [depth];
          sent := sent + [ScrollEventFor(depth)];
        }
        k := k + 1;
      }
      assert ScrollDepths[..k] == ScrollDepths;
      EventsAppend(start, NewlyReached(start, pct, ScrollDepths));
      StepKeepsWellTracked(start, pct);
    }
  }

  /** One threshold further along: the newly reached list grows by that
      threshold exactly when it is reached and not yet tracked, and it is
      tracked after the first k thresholds only if it was tracked before. */
  lemma ScrollStep(start: seq<nat>, pct: real, k: nat, tracked: seq<nat>)
    requires k < |ScrollDepths|
    requires tracked == start + NewlyReached(start, pct, ScrollDepths[..k])
    ensures var d := ScrollDepths[k];
      var after := start + NewlyReached(start, pct, ScrollDepths[..k + 1]);
      && (pct >= d as real && d !in tracked ==> after == tracked + [d])
      && (!(pct >= d as real && d !in tracked) ==> after == tracked)
  {
    var d := ScrollDepths[k];
    var before := NewlyReached(start, pct, ScrollDepths[..k]);
    assert ScrollDepths[..k + 1][..k] == ScrollDepths[..k];
    assert d !in ScrollDepths[..k];
    assert d in tracked <==> d in start;
    if pct >= d as real && d !in start {
      assert start + (before + [d]) == tracked + [d];
    }
  }

  /** The labels of the four scroll events. */
  lemma ScrollLabels()
    ensures ScrollEventFor(25).eventLabel == "Scrolled 25%"
    ensures ScrollEventFor(50).eventLabel == "Scrolled 50%"
    ensures ScrollEventFor(75).eventLabel == "Scrolled 75%"
    ensures ScrollEventFor(90).eventLabel == "Scrolled 90%"
  {
  }

  // ---------------------------------------------------------- event names

  datatype FormAction = Start | Complete | Failed

  datatype FormEvent = FormEvent(action: string, category: string, eventLabel: string, errorMessage: Option<string>)

  function FormEventName(a: FormAction): string
  {
    match a
    case Start => "form_start"
    case Complete => "form_complete"
    case Failed => "form_error"
  }

  /** `trackFormInteraction`: the event for a form action, in category "form". */
  function TrackFormInteraction(formName: string, a: FormAction, errorMessage: Option<string>): (e: FormEvent)
    ensures e.category == "form" && e.eventLabel == formName && e.errorMessage == errorMessage
    ensures e.action == FormEventName(a)
  {
    FormEvent(FormEventName(a), "form", formName, errorMessage)
  }

  /** Different form actions send different events, all prefixed "form_". */
  lemma FormEventNamesDistinct(a: FormAction, b: FormAction)
    ensures FormEventName(a) == FormEventName(b) <==> a == b
    ensures FormEventName(a)[..5] == "form_"
  {
  }

  /** `trackProjectInteraction`'s event name: a view for "view", a click for
      anything else. */
  function ProjectEventName(action: string): (name: string)
    ensures name == "project_view" <==> action == "view"
    ensures name == "project_click" <==> action != "view"
  {
    if action == "view" then "project_view" else "project_click"
  }
}
