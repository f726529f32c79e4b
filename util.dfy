/** The region finder, the region summation and the day-slicing transform. */
module Util {
  import opened Constants
  import opened Types

  // ---------------------------------------------------------------------------
  // findRegions
  // ---------------------------------------------------------------------------

  /** What the region finder carries after a prefix of the events: the regions
      emitted so far and the left bound the next rule evaluation will use. */
  datatype FoldState<S> = FoldState(regions: seq<Region<S>>, leftBound: DataPoint<S>)

  /** The region finder run over a non-empty event sequence: the first event is
      the initial left bound, and every later event is handed to the rule once,
      together with the left bound carried up to it. */
  function Scan<S>(events: seq<DataPoint<S>>, rule: Rule<S>): (st: FoldState<S>)
    requires |events| >= 1
    ensures |st.regions| <= |events| - 1
    decreases |events|
  {
    if |events| == 1 then FoldState([], events[0])
    else
      var prev := Scan(events[..|events| - 1], rule);
      var current := events[|events| - 1];
      var (isRegion, newLeftBound) := rule(prev.leftBound, current);
      FoldState(prev.regions + (if isRegion then [Region(prev.leftBound, current)] else []),
                newLeftBound)
  }

  /** The regions the rule finds in `events`; none for fewer than two events. */
  function RegionsOf<S>(events: seq<DataPoint<S>>, rule: Rule<S>): (regions: seq<Region<S>>)
    ensures |events| <= 1 ==> regions == []
    ensures |events| >= 1 ==> |regions| <= |events| - 1
  {
    if |events| == 0 then [] else Scan(events, rule).regions
  }

  /** The left bound in effect when the rule is evaluated at index `i`
      (for i == |events|, the bound left after the last evaluation). */
  function BoundBefore<S>(events: seq<DataPoint<S>>, rule: Rule<S>, i: int): DataPoint<S>
    requires 1 <= i <= |events|
  {
    Scan(events[..i], rule).leftBound
  }

  /** The indices, in increasing order, at which the rule reported a region. */
  ghost function EmittedAt<S>(events: seq<DataPoint<S>>, rule: Rule<S>): seq<int>
    requires |events| >= 1
    decreases |events|
  {
    if |events| == 1 then []
    else
      EmittedAt(events[..|events| - 1], rule)
      + (if rule(BoundBefore(events, rule, |events| - 1), events[|events| - 1]).0
         then [|events| - 1] else [])
  }

  /** Walks the events once, carrying a left bound, and collects the regions the
      rule reports. */
  method FindRegions<S>(events: seq<DataPoint<S>>, rule: Rule<S>) returns (regions: seq<Region<S>>)
    ensures regions == RegionsOf(events, rule)
  {
    regions := [];
    if |events| == 0 {
      return;
    }
    var leftBound := events[0];
    var i := 1;
    while i < |events|
      invariant 1 <= i <= |events|
      invariant FoldState(regions, leftBound) == Scan(events[..i], rule)
    {
      assert events[..i + 1][..i] == events[..i];
      var current := events[i];
      var (isRegion, newLeftBound) := rule(leftBound, current);
      if isRegion {
        regions := regions + [Region(leftBound, current)];
      }
      leftBound := newLeftBound;
      i := i + 1;
    }
    assert events[..i] == events;
  }

  /** The first rule evaluation sees the first event as left bound, and each
      evaluation's second component is the left bound of the next one. */
  lemma BoundAdvances<S>(events: seq<DataPoint<S>>, rule: Rule<S>, i: int)
    requires 1 <= i < |events|
    ensures BoundBefore(events, rule, 1) == events[0]
    ensures BoundBefore(events, rule, i + 1) == rule(BoundBefore(events, rule, i), events[i]).1
  {
    assert events[..i + 1][..i] == events[..i];
  }

  /** A run of events on which the rule reports nothing and keeps the left bound
      leaves the fold state as it was before the run. */
  lemma {:induction false} RunKeepsState<S>(events: seq<DataPoint<S>>, rule: Rule<S>, i: int, j: int)
    requires 1 <= i <= j <= |events|
    requires forall k :: i <= k < j ==>
      rule(BoundBefore(events, rule, i), events[k]) == (false, BoundBefore(events, rule, i))
    ensures Scan(events[..j], rule) == Scan(events[..i], rule)
    decreases j - i
  {
    if i < j {
      RunKeepsState(events, rule, i, j - 1);
      assert events[..j][..j - 1] == events[..j - 1];
      assert events[..j][j - 1] == events[j - 1];
    }
  }

  /** At index `i` the rule reports a region, and `r` is that region: the left
      bound carried to `i` paired with the event at `i`. */
  ghost predicate ReportsAt<S>(events: seq<DataPoint<S>>, rule: Rule<S>, i: int, r: Region<S>)
  {
    && 1 <= i < |events|
    && rule(BoundBefore(events, rule, i), events[i]).0
    && r == Region(BoundBefore(events, rule, i), events[i])
  }

  /** Evaluations up to index |p| are the same in `p` and in any extension of it. */
  lemma ReportsAtPrefix<S>(events: seq<DataPoint<S>>, rule: Rule<S>, n: int, i: int, r: Region<S>)
    requires 1 <= n <= |events| && ReportsAt(events[..n], rule, i, r)
    ensures ReportsAt(events, rule, i, r)
  {
    assert events[..n][..i] == events[..i];
  }

  lemma RuleAtPrefix<S>(events: seq<DataPoint<S>>, rule: Rule<S>, n: int, i: int)
    requires 1 <= i < n <= |events|
    ensures BoundBefore(events[..n], rule, i) == BoundBefore(events, rule, i)
    ensures events[..n][i] == events[i]
  {
    assert events[..n][..i] == events[..i];
  }

  lemma EmittedAtStep<S>(events: seq<DataPoint<S>>, rule: Rule<S>)
    requires |events| >= 2
    ensures var n := |events|;
      var emitted := rule(BoundBefore(events, rule, n - 1), events[n - 1]).0;
      && EmittedAt(events, rule) == EmittedAt(events[..n - 1], rule) + (if emitted then [n - 1] else [])
      && Scan(events, rule).regions == Scan(events[..n - 1], rule).regions
           + (if emitted then [Region(BoundBefore(events, rule, n - 1), events[n - 1])] else [])
  {
  }

  /** The reporting indices lie in 1 .. |events|-1 and strictly increase. */
  lemma {:induction false} EmittedAtIncreasing<S>(events: seq<DataPoint<S>>, rule: Rule<S>)
    requires |events| >= 1
    ensures forall k :: 0 <= k < |EmittedAt(events, rule)| ==> 1 <= EmittedAt(events, rule)[k] < |events|
    ensures forall k, j :: 0 <= k < j < |EmittedAt(events, rule)| ==>
      EmittedAt(events, rule)[k] < EmittedAt(events, rule)[j]
    decreases |events|
  {
    if |events| >= 2 {
      EmittedAtIncreasing(events[..|events| - 1], rule);
      EmittedAtStep(events, rule);
    }
  }

  /** The rule, evaluated at index `i`, reports a region. */
  ghost predicate RuleReportsAt<S>(events: seq<DataPoint<S>>, rule: Rule<S>, i: int)
  {
    1 <= i < |events| && rule(BoundBefore(events, rule, i), events[i]).0
  }

  /** Every index at which the rule reports a region is a reporting index. */
  lemma {:induction false} EmittedAtComplete<S>(events: seq<DataPoint<S>>, rule: Rule<S>)
    requires |events| >= 1
    ensures forall i :: RuleReportsAt(events, rule, i) ==> i in EmittedAt(events, rule)
    decreases |events|
  {
    var n := |events|;
    if n >= 2 {
      var p := events[..n - 1];
      EmittedAtComplete(p, rule);
      EmittedAtStep(events, rule);
      forall i | RuleReportsAt(events, rule, i)
        ensures i in EmittedAt(events, rule)
      {
        if i < n - 1 {
          RuleAtPrefix(events, rule, n - 1, i);
          assert RuleReportsAt(p, rule, i);
          assert i in EmittedAt(p, rule);
        }
      }
    }
  }

  /** The k-th region is the one reported at the k-th reporting index. */
  lemma {:induction false} RegionsAtReportingIndices<S>(events: seq<DataPoint<S>>, rule: Rule<S>)
    requires |events| >= 1
    ensures |EmittedAt(events, rule)| == |Scan(events, rule).regions|
    ensures forall k :: 0 <= k < |EmittedAt(events, rule)| ==>
      ReportsAt(events, rule, EmittedAt(events, rule)[k], Scan(events, rule).regions[k])
    decreases |events|
  {
    var n := |events|;
    if n >= 2 {
      var p := events[..n - 1];
      RegionsAtReportingIndices(p, rule);
      EmittedAtStep(events, rule);
      var prs, pidx := Scan(p, rule).regions, EmittedAt(p, rule);
      var rs, idx := Scan(events, rule).regions, EmittedAt(events, rule);
      forall k | 0 <= k < |idx|
        ensures ReportsAt(events, rule, idx[k], rs[k])
      {
        if k < |pidx| {
          assert idx[k] == pidx[k] && rs[k] == prs[k];
          ReportsAtPrefix(events, rule, n - 1, pidx[k], prs[k]);
        }
      }
    }
  }

  /** The rule is evaluated once at every index 1 .. |events|-1; the k-th region
      is the one reported at the k-th reporting index, the reporting indices
      strictly increase, and every index at which the rule reports a region is
      one of them. */
  lemma RegionsAtEmittedIndices<S>(events: seq<DataPoint<S>>, rule: Rule<S>)
    requires |events| >= 1
    ensures |EmittedAt(events, rule)| == |Scan(events, rule).regions|
    ensures forall k :: 0 <= k < |EmittedAt(events, rule)| ==>
      ReportsAt(events, rule, EmittedAt(events, rule)[k], Scan(events, rule).regions[k])
    ensures forall k, j :: 0 <= k < j < |EmittedAt(events, rule)| ==>
      EmittedAt(events, rule)[k] < EmittedAt(events, rule)[j]
    ensures forall i :: RuleReportsAt(events, rule, i) ==> i in EmittedAt(events, rule)
  {
    RegionsAtReportingIndices(events, rule);
    EmittedAtIncreasing(events, rule);
    EmittedAtComplete(events, rule);
  }

  /** Every region the rule finds satisfies whatever the rule guarantees of the
      pairs for which it reports a region. */
  lemma RegionsSatisfy<S>(events: seq<DataPoint<S>>, rule: Rule<S>, p: (DataPoint<S>, DataPoint<S>) -> bool)
    requires forall l, r :: rule(l, r).0 ==> p(l, r)
    ensures forall k :: 0 <= k < |RegionsOf(events, rule)| ==>
      p(RegionsOf(events, rule)[k].left, RegionsOf(events, rule)[k].right)
  {
    if |events| >= 1 {
      RegionsAtEmittedIndices(events, rule);
    }
  }

  /** A rule whose new left bound is always one of its two arguments, and the
      right one whenever it reports a region. */
  ghost predicate ClosesOnRight<S(!new)>(rule: Rule<S>)
  {
    forall l, r :: (rule(l, r).1 == l || rule(l, r).1 == r) && (rule(l, r).0 ==> rule(l, r).1 == r)
  }

  /** Regions that are each forward in time and pairwise non-overlapping in order:
      a region ends no later than any later region starts. */
  ghost predicate Disjoint<S>(regions: seq<Region<S>>)
  {
    && (forall k :: 0 <= k < |regions| ==> regions[k].left.timestamp <= regions[k].right.timestamp)
    && (forall k, j :: 0 <= k < j < |regions| ==> regions[k].right.timestamp <= regions[j].left.timestamp)
  }

  /** Every region lies inside [lo, hi]. */
  ghost predicate Within<S>(regions: seq<Region<S>>, lo: int, hi: int)
  {
    forall k :: 0 <= k < |regions| ==> lo <= regions[k].left.timestamp && regions[k].right.timestamp <= hi
  }

  lemma AppendDisjoint<S>(regions: seq<Region<S>>, r: Region<S>, lo: int)
    requires Disjoint(regions) && Within(regions, lo, r.left.timestamp)
    requires lo <= r.left.timestamp <= r.right.timestamp
    ensures Disjoint(regions + [r]) && Within(regions + [r], lo, r.right.timestamp)
  {
  }

  lemma {:induction false} ScanBounds<S(!new)>(events: seq<DataPoint<S>>, rule: Rule<S>)
    requires |events| >= 1 && Sorted(events) && ClosesOnRight(rule)
    ensures events[0].timestamp <= Scan(events, rule).leftBound.timestamp <= events[|events| - 1].timestamp
    ensures Disjoint(Scan(events, rule).regions)
    ensures Within(Scan(events, rule).regions, events[0].timestamp, Scan(events, rule).leftBound.timestamp)
    ensures 0 <= SumOf(Scan(events, rule).regions)
                 <= Scan(events, rule).leftBound.timestamp - events[0].timestamp
  {
    var n := |events|;
    if n > 1 {
      var p := events[..n - 1];
      assert Sorted(p);
      ScanBounds(p, rule);
      var prev := Scan(p, rule);
      var e := events[n - 1];
      assert p[0] == events[0];
      assert prev.leftBound.timestamp <= p[n - 2].timestamp <= e.timestamp;
      var st := Scan(events, rule);
      var res := rule(prev.leftBound, e);
      assert res.1 == prev.leftBound || res.1 == e;
      assert st.leftBound == res.1;
      if res.0 {
        assert res.1 == e;
        var r := Region(prev.leftBound, e);
        assert st.regions == prev.regions + [r];
        AppendDisjoint(prev.regions, r, events[0].timestamp);
        SumOfSnoc(prev.regions, r);
      } else {
        assert st.regions == prev.regions;
      }
    }
  }

  /** For sorted events and a rule that closes on the right, the regions are
      disjoint, lie between the first and the last event, and their durations sum
      to at most the time the events span. */
  lemma RegionsDisjointWithinEvents<S(!new)>(events: seq<DataPoint<S>>, rule: Rule<S>)
    requires |events| >= 1 && Sorted(events) && ClosesOnRight(rule)
    ensures Disjoint(RegionsOf(events, rule))
    ensures Within(RegionsOf(events, rule), events[0].timestamp, events[|events| - 1].timestamp)
    ensures 0 <= SumOf(RegionsOf(events, rule)) <= events[|events| - 1].timestamp - events[0].timestamp
  {
    ScanBounds(events, rule);
  }

  // ---------------------------------------------------------------------------
  // sumRegions
  // ---------------------------------------------------------------------------

  function Duration<S>(r: Region<S>): int
  {
    r.right.timestamp - r.left.timestamp
  }

  /** Total duration of the regions, accumulated from the first to the last. */
  function SumOf<S>(regions: seq<Region<S>>): int
  {
    if regions == [] then 0
    else SumOf(regions[..|regions| - 1]) + Duration(regions[|regions| - 1])
  }

  lemma SumOfSnoc<S>(regions: seq<Region<S>>, r: Region<S>)
    ensures SumOf(regions + [r]) == SumOf(regions) + Duration(r)
  {
    assert (regions + [r])[..|regions|] == regions;
  }

  /** Summation is additive over concatenation. */
  lemma {:induction false} SumOfAppend<S>(a: seq<Region<S>>, b: seq<Region<S>>)
    ensures SumOf(a + b) == SumOf(a) + SumOf(b)
    decreases |b|
  {
    if b != [] {
      var b' := b[..|b| - 1];
      var r := b[|b| - 1];
      assert a + b == (a + b') + [r];
      SumOfSnoc(a + b', r);
      SumOfAppend(a, b');
    } else {
      assert a + b == a;
    }
  }

  method SumRegions<S>(regions: seq<Region<S>>) returns (sum: int)
    ensures sum == SumOf(regions)
  {
    sum := 0;
    for i := 0 to |regions|
      invariant sum == SumOf(regions[..i])
    {
      assert regions[..i + 1][..i] == regions[..i];
      var r := regions[i];
      sum := sum + (r.right.timestamp - r.left.timestamp);
    }
    assert regions[..|regions|] == regions;
  }

  // ---------------------------------------------------------------------------
  // changeTimeScaleToDay1
  // ---------------------------------------------------------------------------

  function DayStart(day: int): int
  {
    (day - 1) * MAX_IN_PERIOD
  }

  lemma DayWindow(day: int)
    ensures DayStart(day) == DayEnd(day) - MAX_IN_PERIOD
  {
  }

  function DayEnd(day: int): int
  {
    day * MAX_IN_PERIOD
  }

  /** The window of `day` includes both of its ends. */
  predicate InDay<S>(e: DataPoint<S>, day: int)
  {
    DayStart(day) <= e.timestamp <= DayEnd(day)
  }

  /** A copy of `e` whose timestamp counts from the start of `day`. */
  function Rebase<S>(e: DataPoint<S>, day: int): DataPoint<S>
  {
    DataPoint(e.state, e.timestamp - DayStart(day))
  }

  /** The events of `day`, rebased, in their original order. */
  function DayEvents<S>(events: seq<DataPoint<S>>, day: int): (kept: seq<DataPoint<S>>)
    ensures |kept| <= |events|
    ensures forall k :: 0 <= k < |kept| ==> 0 <= kept[k].timestamp <= MAX_IN_PERIOD
    decreases |events|
  {
    if events == [] then []
    else
      DayEvents(events[..|events| - 1], day)
      + (if InDay(events[|events| - 1], day) then [Rebase(events[|events| - 1], day)] else [])
  }

  /** Index of the first event inside the window of `day`, if any. */
  function FirstInDay<S>(events: seq<DataPoint<S>>, day: int): (first: Option<int>)
    ensures first.Some? ==>
      && 0 <= first.value < |events|
      && InDay(events[first.value], day)
      && forall j :: 0 <= j < first.value ==> !InDay(events[j], day)
    ensures first.None? ==> forall j :: 0 <= j < |events| ==> !InDay(events[j], day)
    decreases |events|
  {
    if events == [] then None
    else
      var earlier := FirstInDay(events[..|events| - 1], day);
      if earlier.Some? then earlier
      else if InDay(events[|events| - 1], day) then Some(|events| - 1)
      else None
  }

  /** Index of the last event before the start of `day`, if any. */
  function LastBeforeDay<S>(events: seq<DataPoint<S>>, day: int): (last: Option<int>)
    ensures last.Some? ==>
      && 0 <= last.value < |events|
      && events[last.value].timestamp < DayStart(day)
      && forall j :: last.value < j < |events| ==> events[j].timestamp >= DayStart(day)
    ensures last.None? ==> forall j :: 0 <= j < |events| ==> events[j].timestamp >= DayStart(day)
    decreases |events|
  {
    if events == [] then None
    else if events[|events| - 1].timestamp < DayStart(day) then Some(|events| - 1)
    else LastBeforeDay(events[..|events| - 1], day)
  }

  /** The state in effect at the start of `day`: the state of the first event of
      the day if it lies exactly at the day start; otherwise the state of the event
      just before it (the profile's initial state if it is the first event); and
      with no event in the day, the state of the last event before the day (the
      initial state if there is none). */
  function DayStartState<S>(initial: S, events: seq<DataPoint<S>>, day: int): S
  {
    match FirstInDay(events, day)
    case Some(f) =>
      if events[f].timestamp == DayStart(day) then events[f].state
      else if f > 0 then events[f - 1].state
      else initial
    case None =>
      match LastBeforeDay(events, day)
      case Some(j) => events[j].state
      case None => initial
  }

  /** The state carried into `day`: that of the last event before the day start,
      or the initial state if there is none. */
  function CarriedState<S>(initial: S, events: seq<DataPoint<S>>, day: int): S
  {
    match LastBeforeDay(events, day)
    case Some(j) => events[j].state
    case None => initial
  }

  /** On sorted events the inferred state is the carried state, except when the
      first event of the day lies exactly at the day start: then it is the state
      that event sets. */
  lemma DayStartStateIsCarriedState<S>(initial: S, events: seq<DataPoint<S>>, day: int)
    requires Sorted(events)
    ensures DayStartState(initial, events, day) ==
      if FirstInDay(events, day).Some? && events[FirstInDay(events, day).value].timestamp == DayStart(day)
      then events[FirstInDay(events, day).value].state
      else CarriedState(initial, events, day)
  {
    match FirstInDay(events, day)
    case None =>
    case Some(f) =>
      if events[f].timestamp != DayStart(day) {
        if f > 0 {
          assert events[f - 1].timestamp < DayStart(day);
          assert forall j :: f <= j < |events| ==> events[j].timestamp >= DayStart(day);
          assert LastBeforeDay(events, day) == Some(f - 1);
        } else {
          assert forall j :: 0 <= j < |events| ==> events[j].timestamp >= DayStart(day);
        }
      }
  }

  /** How one more sorted event changes the inferred day-start state. */
  lemma DayStartStateSnoc<S>(initial: S, events: seq<DataPoint<S>>, day: int)
    requires |events| >= 1 && Sorted(events)
    ensures var p, e := events[..|events| - 1], events[|events| - 1];
      DayStartState(initial, events, day) ==
        if e.timestamp < DayStart(day) then e.state
        else if InDay(e, day) && FirstInDay(p, day).None? then
          (if e.timestamp > DayStart(day) then (if |p| > 0 then p[|p| - 1].state else initial)
           else e.state)
        else DayStartState(initial, p, day)
  {
    var p, e := events[..|events| - 1], events[|events| - 1];
    if e.timestamp < DayStart(day) {
      assert forall j :: 0 <= j < |p| ==> p[j].timestamp <= e.timestamp;
    }
  }

  /** The state the slicing loop holds after the month events `events`, for any
      order of the events: an event before the day start carries its state
      forward; the first event of the day sets it to its own state when it lies
      exactly at the day start, otherwise to the state of the event just before it. */
  function InferredState<S>(initial: S, events: seq<DataPoint<S>>, day: int): S
    decreases |events|
  {
    if events == [] then initial
    else
      var p, e := events[..|events| - 1], events[|events| - 1];
      var carried := if e.timestamp < DayStart(day) then e.state else InferredState(initial, p, day);
      if InDay(e, day) && FirstInDay(p, day).None? then
        (if e.timestamp > DayStart(day) then (if |p| > 0 then p[|p| - 1].state else carried)
         else e.state)
      else carried
  }

  /** On sorted events the state the loop infers is the closed form `DayStartState`. */
  lemma {:induction false} InferredStateIsDayStartState<S>(initial: S, events: seq<DataPoint<S>>, day: int)
    requires Sorted(events)
    ensures InferredState(initial, events, day) == DayStartState(initial, events, day)
    decreases |events|
  {
    if events != [] {
      var p := events[..|events| - 1];
      assert Sorted(p);
      InferredStateIsDayStartState(initial, p, day);
      DayStartStateSnoc(initial, events, day);
    }
  }

  /** What one more event of the month adds to the slice of the prefix before it. */
  lemma SliceStep<S>(initial: S, events: seq<DataPoint<S>>, i: int, day: int)
    requires 0 <= i < |events|
    ensures DayEvents(events[..i + 1], day)
      == DayEvents(events[..i], day) + (if InDay(events[i], day) then [Rebase(events[i], day)] else [])
    ensures FirstInDay(events[..i + 1], day).None?
      == (FirstInDay(events[..i], day).None? && !InDay(events[i], day))
    ensures InferredState(initial, events[..i + 1], day) ==
      var carried := if events[i].timestamp < DayStart(day) then events[i].state
                     else InferredState(initial, events[..i], day);
      if InDay(events[i], day) && FirstInDay(events[..i], day).None? then
        (if events[i].timestamp > DayStart(day) then (if i > 0 then events[i - 1].state else carried)
         else events[i].state)
      else carried
  {
    assert events[..i + 1][..i] == events[..i];
  }

  /** Slices one day out of a multi-day profile: keeps the events of the day, each
      as a rebased copy, and infers the state in effect at the day start. */
  method ChangeTimeScaleToDay1(monthUsageProfile: Profile<ApplianceState>, day: int)
    returns (initialState: ApplianceState, dayDataPoints: seq<DataPoint<ApplianceState>>)
    requires YEAR_MIN_DAY <= day <= YEAR_MAX_DAY
    ensures dayDataPoints == DayEvents(monthUsageProfile.events, day)
    ensures initialState == InferredState(monthUsageProfile.initial, monthUsageProfile.events, day)
    ensures Sorted(monthUsageProfile.events) ==>
      initialState == DayStartState(monthUsageProfile.initial, monthUsageProfile.events, day)
  {
    var dayEndTS := day * MAX_IN_PERIOD;
    var dayStartTS := dayEndTS - MAX_IN_PERIOD;
    DayWindow(day);
    var allDataPoints := monthUsageProfile.events;
    dayDataPoints := [];
    initialState := monthUsageProfile.initial;
    for i := 0 to |allDataPoints|
      invariant dayDataPoints == DayEvents(allDataPoints[..i], day)
      invariant (dayDataPoints == []) == FirstInDay(allDataPoints[..i], day).None?
      invariant initialState == InferredState(monthUsageProfile.initial, allDataPoints[..i], day)
    {
      SliceStep(monthUsageProfile.initial, allDataPoints, i, day);
      var dp := DataPoint(allDataPoints[i].state, allDataPoints[i].timestamp);
      if dp.timestamp < dayStartTS {
        initialState := dp.state;
      }
      if dayStartTS <= dp.timestamp <= dayEndTS {
        if |dayDataPoints| == 0 {
          if dp.timestamp > dayStartTS {
            initialState := if i > 0 then allDataPoints[i - 1].state else initialState;
          } else {
            initialState := dp.state;
          }
        }
        dp := dp.(timestamp := dp.timestamp - (day - 1) * MAX_IN_PERIOD);
        dayDataPoints := dayDataPoints + [dp];
      }
    }
    assert allDataPoints[..|allDataPoints|] == allDataPoints;
    if Sorted(allDataPoints) {
      InferredStateIsDayStartState(monthUsageProfile.initial, allDataPoints, day);
    }
  }

  /** Slicing distributes over concatenation of the month's events. */
  lemma {:induction false} DayEventsAppend<S>(a: seq<DataPoint<S>>, b: seq<DataPoint<S>>, day: int)
    ensures DayEvents(a + b, day) == DayEvents(a, day) + DayEvents(b, day)
    decreases |b|
  {
    if b != [] {
      var b' := b[..|b| - 1];
      assert a + b == (a + b') + [b[|b| - 1]];
      assert (a + b)[..|a + b| - 1] == a + b';
      DayEventsAppend(a, b', day);
    } else {
      assert a + b == a;
    }
  }

  /** An event is kept exactly when it is the rebased copy of an event of the
      month that lies in the window of the day. */
  lemma {:induction false} DayEventsMembers<S>(events: seq<DataPoint<S>>, day: int, x: DataPoint<S>)
    ensures x in DayEvents(events, day) <==>
      exists j :: 0 <= j < |events| && InDay(events[j], day) && x == Rebase(events[j], day)
    decreases |events|
  {
    if events != [] {
      var p := events[..|events| - 1];
      DayEventsMembers(p, day, x);
      if x in DayEvents(p, day) {
        var j :| 0 <= j < |p| && InDay(p[j], day) && x == Rebase(p[j], day);
        assert events[j] == p[j];
      }
      if exists j :: 0 <= j < |events| && InDay(events[j], day) && x == Rebase(events[j], day) {
        var j :| 0 <= j < |events| && InDay(events[j], day) && x == Rebase(events[j], day);
        if j < |p| {
          assert p[j] == events[j];
        }
      }
    }
  }

  /** Events no later than `t` stay no later than `t` minus the day start. */
  lemma {:induction false} DayEventsBelow<S>(events: seq<DataPoint<S>>, day: int, t: int)
    requires forall j :: 0 <= j < |events| ==> events[j].timestamp <= t
    ensures forall k :: 0 <= k < |DayEvents(events, day)| ==>
      DayEvents(events, day)[k].timestamp <= t - DayStart(day)
    decreases |events|
  {
    if events != [] {
      DayEventsBelow(events[..|events| - 1], day, t);
    }
  }

  /** Slicing a sorted month gives a sorted day. */
  lemma {:induction false} DayEventsSorted<S>(events: seq<DataPoint<S>>, day: int)
    requires Sorted(events)
    ensures Sorted(DayEvents(events, day))
    decreases |events|
  {
    if events != [] {
      var p := events[..|events| - 1];
      assert Sorted(p);
      DayEventsSorted(p, day);
      DayEventsBelow(p, day, events[|events| - 1].timestamp);
    }
  }

  /** An event exactly at the end of day d is kept as minute 1440 of day d. */
  lemma BoundaryEventEndsDay<S>(a: seq<DataPoint<S>>, s: S, b: seq<DataPoint<S>>, d: int)
    ensures DayEvents(a + [DataPoint(s, DayEnd(d))] + b, d)
      == DayEvents(a, d) + [DataPoint(s, MAX_IN_PERIOD)] + DayEvents(b, d)
  {
    var e := DataPoint(s, DayEnd(d));
    DayWindow(d);
    assert [e][..0] == [];
    assert DayEvents([e], d) == [DataPoint(s, MAX_IN_PERIOD)];
    DayEventsAppend(a + [e], b, d);
    DayEventsAppend(a, [e], d);
  }

  /** The same event is kept as minute 0 of day d+1: an event on a day boundary
      belongs to both days. */
  lemma BoundaryEventStartsNextDay<S>(a: seq<DataPoint<S>>, s: S, b: seq<DataPoint<S>>, d: int)
    ensures DayEvents(a + [DataPoint(s, DayEnd(d))] + b, d + 1)
      == DayEvents(a, d + 1) + [DataPoint(s, 0)] + DayEvents(b, d + 1)
  {
    var e := DataPoint(s, DayEnd(d));
    assert DayStart(d + 1) == DayEnd(d);
    assert [e][..0] == [];
    assert DayEvents([e], d + 1) == [DataPoint(s, 0)];
    DayEventsAppend(a + [e], b, d + 1);
    DayEventsAppend(a, [e], d + 1);
  }
}
