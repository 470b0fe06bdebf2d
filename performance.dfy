/** Web-vitals rating and the values the performance observers report: the
    threshold classifier, the running CLS total, and the LCP/FID values. */
module Performance {
  import opened Wrappers

  datatype Rating = Good | NeedsImprovement | Poor

  /** Worse ratings rank higher. */
  function Rank(r: Rating): nat
  {
    match r
    case Good => 0
    case NeedsImprovement => 1
    case Poor => 2
  }

  // Thresholds: the "good" limits are the configured constants; the
  // "needs-improvement" limits are written into the classifier.
  const LcpGood: real := 2500.0
  const LcpNeedsImprovement: real := 4000.0
  const FidGood: real := 100.0
  const FidNeedsImprovement: real := 300.0
  const ClsGood: real := 0.1
  const ClsNeedsImprovement: real := 0.25

  /** The three bands of one metric: up to `good`, then up to
      `needsImprovement`, then above. */
  function Classify(value: real, good: real, needsImprovement: real): (r: Rating)
    ensures r == Good <==> value <= good
    ensures good <= needsImprovement ==> (r == Poor <==> needsImprovement < value)
  {
    if value <= good then Good else if value <= needsImprovement then NeedsImprovement else Poor
  }

  /** `getRating`: LCP, FID and CLS by their two limits; any other metric
      is rated good. */
  function GetRating(name: string, value: real): (r: Rating)
    ensures r == Good <==> name !in {"LCP", "FID", "CLS"} || value <= Limits(name).value.0
    ensures r == Poor <==> name in {"LCP", "FID", "CLS"} && Limits(name).value.1 < value
  {
    if name == "LCP" then Classify(value, LcpGood, LcpNeedsImprovement)
    else if name == "FID" then Classify(value, FidGood, FidNeedsImprovement)
    else if name == "CLS" then Classify(value, ClsGood, ClsNeedsImprovement)
    else Good
  }

  /** The two limits of a known metric. */
  function Limits(name: string): Option<(real, real)>
  {
    if name == "LCP" then Some((LcpGood, LcpNeedsImprovement))
    else if name == "FID" then Some((FidGood, FidNeedsImprovement))
    else if name == "CLS" then Some((ClsGood, ClsNeedsImprovement))
    else None
  }

  /** Each metric's rating, stated by its limits: good up to and including
      the first, needs-improvement up to and including the second, poor
      above; unknown metrics are good. */
  lemma RatingByLimits(name: string, value: real)
    ensures Limits(name).None? ==> GetRating(name, value) == Good
    ensures Limits(name).Some? ==>
              var (good, ni) := Limits(name).value;
              good < ni &&
              (GetRating(name, value) == Good <==> value <= good) &&
              (GetRating(name, value) == NeedsImprovement <==> good < value <= ni) &&
              (GetRating(name, value) == Poor <==> ni < value)
  {
  }

  /** For a fixed metric a larger value never gets a better rating. */
  lemma RatingMonotone(name: string, v: real, w: real)
    requires v <= w
    ensures Rank(GetRating(name, v)) <= Rank(GetRating(name, w))
  {
  }

  /** Boundary values take the better rating. */
  lemma BoundariesRateBetter()
    ensures GetRating("LCP", 2500.0) == Good && GetRating("LCP", 4000.0) == NeedsImprovement
    ensures GetRating("FID", 100.0) == Good && GetRating("FID", 300.0) == NeedsImprovement
    ensures GetRating("CLS", 0.1) == Good && GetRating("CLS", 0.25) == NeedsImprovement
  {
  }

  /** What `reportWebVital` computes for a metric value. */
  datatype Report = Report(name: string, value: real, rating: Rating)

  /** The report keeps the metric's name and value, and it is poor only for
      a known metric above its second limit. */
  function ReportWebVital(name: string, value: real): (r: Report)
    ensures r.name == name && r.value == value
    ensures r.rating == Good <==> Limits(name).None? || value <= Limits(name).value.0
    ensures r.rating == Poor <==> Limits(name).Some? && Limits(name).value.1 < value
  {
    Report(name, value, GetRating(name, value))
  }

  // -------------------------------------------------------------------- CLS

  /** A layout-shift entry: its value may be absent. */
  datatype LayoutShift = LayoutShift(value: Option<real>, hadRecentInput: bool)

  /** JavaScript truthiness of an optional number. */
  predicate Truthy(x: Option<real>)
  {
    x.Some? && x.value != 0.0
  }

  /** The entries the observer adds: no recent input and a truthy value. */
  predicate Counted(e: LayoutShift)
  {
    !e.hadRecentInput && Truthy(e.value)
  }

  function ShiftValue(e: LayoutShift): real
  {
    if Counted(e) then e.value.value else 0.0
  }

  /** The sum of the counted values of `entries`. */
  function ShiftSum(entries: seq<LayoutShift>): real
    decreases |entries|
  {
    if entries == [] then 0.0 else ShiftSum(entries[..|entries| - 1]) + ShiftValue(entries[|entries| - 1])
  }

  lemma {:induction false} ShiftSumAppend(a: seq<LayoutShift>, b: seq<LayoutShift>)
    ensures ShiftSum(a + b) == ShiftSum(a) + ShiftSum(b)
    decreases |b|
  {
    if b != [] {
      assert (a + b)[..|a + b| - 1] == a + b[..|b| - 1];
      ShiftSumAppend(a, b[..|b| - 1]);
    } else {
      assert a + b == a;
    }
  }

  /** Entries with recent input or a falsy value do not change the total. */
  lemma IgnoredEntryAddsNothing(a: seq<LayoutShift>, e: LayoutShift, b: seq<LayoutShift>)
    requires !Counted(e)
    ensures ShiftSum(a + [e] + b) == ShiftSum(a + b)
  {
    ShiftSumAppend(a + [e], b);
    ShiftSumAppend(a, b);
    assert (a + [e])[..|a|] == a;
  }

  /** The CLS observer: the running total across every batch and the
      reports it has made. */
  class ClsObserver {
    var clsValue: real
    var reports: seq<Report>
    ghost var seen: seq<LayoutShift>

    ghost predicate Valid()
      reads this
    {
      clsValue == ShiftSum(seen)
    }

    constructor ()
      ensures Valid() && clsValue == 0.0 && seen == [] && reports == []
    {
      clsValue := 0.0;
      reports := [];
      seen := [];
    }

    /** One batch: add each counted entry's value, then report the total. */
    method OnEntries(entries: seq<LayoutShift>)
      requires Valid()
      modifies this
      ensures Valid() && seen == old(seen) + entries
      ensures clsValue == old(clsValue) + ShiftSum(entries)
      ensures reports == old(reports) + [ReportWebVital("CLS", clsValue)]
    {
      var i := 0;
      while i < |entries|
        invariant 0 <= i <= |entries|
        invariant clsValue == old(clsValue) + ShiftSum(entries[..i])
        invariant seen == old(seen) && reports == old(reports)
      {
        var e := entries[i];
        assert entries[..i + 1][..i] == entries[..i];
        if !e.hadRecentInput && e.value.Some? && e.value.value != 0.0 {
          clsValue := clsValue + e.value.value;
        }
        i := i + 1;
      }
      assert entries[..i] == entries;
      ShiftSumAppend(seen, entries);
      seen := seen + entries;
      reports := reports + [ReportWebVital("CLS", clsValue)];
    }
  }

  // -------------------------------------------------------------- LCP, FID

  datatype LcpEntry = LcpEntry(renderTime: Option<real>, loadTime: Option<real>)

  /** The LCP value of one batch: only its last entry counts, as its render
      time if truthy, else its load time if truthy, else 0. An empty batch
      reports nothing. */
  function LcpValue(entries: seq<LcpEntry>): (r: Option<real>)
    ensures r.Some? <==> entries != []
    ensures entries != [] && Truthy(entries[|entries| - 1].renderTime) ==>
              r == entries[|entries| - 1].renderTime
    ensures entries != [] && !Truthy(entries[|entries| - 1].renderTime) && Truthy(entries[|entries| - 1].loadTime) ==>
              r == entries[|entries| - 1].loadTime
    ensures entries != [] && !Truthy(entries[|entries| - 1].renderTime) && !Truthy(entries[|entries| - 1].loadTime) ==>
              r == Some(0.0)
  {
    if entries == [] then None
    else
      var last := entries[|entries| - 1];
      Some(if Truthy(last.renderTime) then last.renderTime.value
           else if Truthy(last.loadTime) then last.loadTime.value
           else 0.0)
  }

  /** Earlier entries of a batch never affect the LCP value. */
  lemma LcpUsesLastEntryOnly(earlier: seq<LcpEntry>, last: LcpEntry)
    ensures LcpValue(earlier + [last]) == LcpValue([last])
  {
  }

  datatype FidEntry = FidEntry(startTime: real, processingStart: Option<real>)

  /** FID values of one entry: its delay when its processing start is truthy. */
  function FidValue(e: FidEntry): seq<real>
  {
    if Truthy(e.processingStart) then [e.processingStart.value - e.startTime] else []
  }

  /** The FID values reported for one batch, in entry order: the delay of
      each entry whose processing start is truthy. */
  function FidValues(entries: seq<FidEntry>): seq<real>
    decreases |entries|
  {
    if entries == [] then [] else FidValue(entries[0]) + FidValues(entries[1..])
  }

  /** Every reported value is the delay of a truthy entry; all-truthy
      batches report one value per entry and all-falsy ones nothing. */
  lemma {:induction false} FidValuesFromTruthyEntries(entries: seq<FidEntry>)
    ensures var r := FidValues(entries);
      && |r| <= |entries|
      && (forall x | x in r ::
            exists e | e in entries :: Truthy(e.processingStart) && x == e.processingStart.value - e.startTime)
      && ((forall e | e in entries :: Truthy(e.processingStart)) ==> |r| == |entries|)
      && ((forall e | e in entries :: !Truthy(e.processingStart)) ==> r == [])
    decreases |entries|
  {
    if entries != [] {
      FidValuesFromTruthyEntries(entries[1..]);
      assert forall x | x in entries[1..] :: x in entries;
    }
  }

  /** The values of two consecutive runs of entries are the values of the
      first run followed by those of the second: every truthy entry is
      reported, in entry order. */
  lemma {:induction false} FidValuesAppend(a: seq<FidEntry>, b: seq<FidEntry>)
    ensures FidValues(a + b) == FidValues(a) + FidValues(b)
    decreases |a|
  {
    if a == [] {
      assert a + b == b;
    } else {
      assert (a + b)[0] == a[0] && (a + b)[1..] == a[1..] + b;
      FidValuesAppend(a[1..], b);
    }
  }

  /** A single entry reports its delay exactly when its processing start is
      truthy. */
  lemma FidValuesSingle(e: FidEntry)
    ensures FidValues([e]) == FidValue(e)
  {
    assert [e][1..] == [];
  }

  lemma FidStep(entries: seq<FidEntry>, i: nat)
    requires i < |entries|
    ensures FidValues(entries[..i + 1]) == FidValues(entries[..i]) + FidValue(entries[i])
  {
    FidValuesAppend(entries[..i], [entries[i]]);
    FidValuesSingle(entries[i]);
    assert entries[..i + 1] == entries[..i] + [entries[i]];
  }

  /** The reports of a run of values of one metric, in order. */
  function Reports(name: string, values: seq<real>): seq<Report>
    decreases |values|
  {
    if values == [] then []
    else Reports(name, values[..|values| - 1]) + [ReportWebVital(name, values[|values| - 1])]
  }

  lemma {:induction false} ReportsIndex(name: string, values: seq<real>)
    ensures |Reports(name, values)| == |values|
    ensures forall i | 0 <= i < |values| :: Reports(name, values)[i] == ReportWebVital(name, values[i])
    decreases |values|
  {
    if values != [] {
      ReportsIndex(name, values[..|values| - 1]);
    }
  }

  /** The FID observer's callback for one batch: `forEach` entry with a
      truthy processing start, report its delay. */
  method OnFidEntries(entries: seq<FidEntry>) returns (reports: seq<Report>)
    ensures |reports| == |FidValues(entries)|
    ensures forall i | 0 <= i < |reports| :: reports[i] == ReportWebVital("FID", FidValues(entries)[i])
  {
    ghost var values: seq<real> := [];
    reports := [];
    var i := 0;
    while i < |entries|
      invariant 0 <= i <= |entries|
      invariant values == FidValues(entries[..i])
      invariant reports == Reports("FID", values)
    {
      var entry := entries[i];
      FidStep(entries, i);
      if entry.processingStart.Some? && entry.processingStart.value != 0.0 {
        var value := entry.processingStart.value - entry.startTime;
        assert FidValue(entry) == [value];
        ghost var before := values;
        reports := reports + [ReportWebVital("FID", value)];
        values := values + [value];
        assert values[..|values| - 1] == before;
      } else {
        assert FidValue(entry) == [];
      }
      i := i + 1;
    }
    assert entries[..i] == entries;
    ReportsIndex("FID", values);
  }
}
