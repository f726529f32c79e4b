/** The energy metrics: usage and savings over one day, and usage over one day of
    a multi-day profile. Each metric pads the events with a start-of-day and an
    end-of-day sentinel, finds the regions its rule selects and sums them. */
module Energy {
  import opened Constants
  import opened Types
  import opened Util

  /** The usage event at `timestamp` entering `state`. */
  function GetApplianceStateDataPoint(state: ApplianceState, timestamp: int): (dp: DataPoint<ApplianceState>)
    ensures dp.state == state && dp.timestamp == timestamp
  {
    DataPoint(state, timestamp)
  }

  /** The savings event at `timestamp` entering `state`. */
  function GetEnergySaverApplianceStateDataPoint(state: SaverState, timestamp: int): (dp: DataPoint<SaverState>)
    ensures dp.state == state && dp.timestamp == timestamp
  {
    DataPoint(state, timestamp)
  }

  // ---------------------------------------------------------------------------
  // Region rules
  // ---------------------------------------------------------------------------

  /** Usage: a span is used when it runs from an On bound to the next Off event,
      or to the end-of-day sentinel. While the bound is On and no region closes,
      the On bound is kept, so repeated On events do not split a span. */
  function UsageRule(leftBound: DataPoint<ApplianceState>, rightBound: DataPoint<ApplianceState>)
    : (res: (bool, DataPoint<ApplianceState>))
    ensures res.0 <==> leftBound.state == On && (rightBound.state == Off || rightBound.timestamp == MAX_IN_PERIOD)
    ensures res.1 == if leftBound.state == On && !res.0 then leftBound else rightBound
  {
    assert rightBound.state == On || rightBound.state == Off;
    if leftBound.state == On then
      if rightBound.state == Off then (true, rightBound)
      else if rightBound.state == On && rightBound.timestamp == MAX_IN_PERIOD then (true, rightBound)
      else (false, leftBound)
    else (false, rightBound)
  }

  /** Savings: a span is saved when it runs from an AutoOff bound to the next On
      event, or to the end-of-day sentinel. A manual Off keeps an earlier AutoOff
      bound (except at the sentinel), and an AutoOff after a manual Off keeps the
      Off bound, so manual switch-offs never open a savings span. */
  function SavingsRule(leftBound: DataPoint<SaverState>, rightBound: DataPoint<SaverState>)
    : (res: (bool, DataPoint<SaverState>))
    ensures res.0 <==> leftBound.state == AutoOff
                       && (rightBound.state == SaverOn || rightBound.timestamp == MAX_IN_PERIOD)
    ensures res.1 == if (leftBound.state == SaverOff && rightBound.state == AutoOff)
                        || (leftBound.state == AutoOff && rightBound.state == SaverOff
                            && rightBound.timestamp != MAX_IN_PERIOD)
                     then leftBound else rightBound
  {
    assert rightBound.state == SaverOn || rightBound.state == SaverOff || rightBound.state == AutoOff;
    if leftBound.state == SaverOff && rightBound.state == AutoOff then
      (false, leftBound)
    else if leftBound.state == AutoOff && rightBound.state == SaverOff && rightBound.timestamp == MAX_IN_PERIOD then
      (true, rightBound)
    else if leftBound.state == AutoOff && rightBound.state == AutoOff && rightBound.timestamp == MAX_IN_PERIOD then
      (true, rightBound)
    else if leftBound.state == AutoOff && rightBound.state == SaverOff then
      (false, leftBound)
    else if leftBound.state == AutoOff && rightBound.state == SaverOn then
      (true, rightBound)
    else
      (false, rightBound)
  }

  lemma UsageRuleClosesOnRight()
    ensures ClosesOnRight(UsageRule)
  {
    forall l, r
      ensures UsageRule(l, r).1 == l || UsageRule(l, r).1 == r
      ensures UsageRule(l, r).0 ==> UsageRule(l, r).1 == r
    {
    }
  }

  lemma SavingsRuleClosesOnRight()
    ensures ClosesOnRight(SavingsRule)
  {
    forall l, r
      ensures SavingsRule(l, r).1 == l || SavingsRule(l, r).1 == r
      ensures SavingsRule(l, r).0 ==> SavingsRule(l, r).1 == r
    {
    }
  }

  // ---------------------------------------------------------------------------
  // Sentinel padding
  // ---------------------------------------------------------------------------

  /** The events between a start-of-day sentinel carrying the initial state and an
      end-of-day sentinel carrying the last known state. */
  function Pad<S>(initial: S, events: seq<DataPoint<S>>): (padded: seq<DataPoint<S>>)
    ensures |padded| == |events| + 2
    ensures padded[0] == DataPoint(initial, 0)
    ensures padded[1..|events| + 1] == events
    ensures padded[|events| + 1]
      == DataPoint(if events == [] then initial else events[|events| - 1].state, MAX_IN_PERIOD)
  {
    var withStart := [DataPoint(initial, 0)] + events;
    withStart + [DataPoint(withStart[|withStart| - 1].state, MAX_IN_PERIOD)]
  }

  /** Events of a single day: sorted, each within [0, 1440]. */
  predicate DayTimeline<S>(events: seq<DataPoint<S>>)
  {
    Sorted(events) && forall k :: 0 <= k < |events| ==> 0 <= events[k].timestamp <= MAX_IN_PERIOD
  }

  lemma PadSorted<S>(initial: S, events: seq<DataPoint<S>>)
    requires DayTimeline(events)
    ensures Sorted(Pad(initial, events))
  {
    var padded := Pad(initial, events);
    forall i, j | 0 <= i < j < |padded|
      ensures padded[i].timestamp <= padded[j].timestamp
    {
      if 0 < i && j < |events| + 1 {
        assert padded[i] == events[i - 1] && padded[j] == events[j - 1];
      } else if 0 < i {
        assert padded[i] == events[i - 1];
      } else if j < |events| + 1 {
        assert padded[j] == events[j - 1];
      }
    }
  }

  // ---------------------------------------------------------------------------
  // Metrics
  // ---------------------------------------------------------------------------

  /** Minutes the appliance is on over the day. */
  function EnergyUsage(profile: Profile<ApplianceState>): int
  {
    SumOf(RegionsOf(Pad(profile.initial, profile.events), UsageRule))
  }

  /** Minutes the device kept the appliance off over the day. */
  function EnergySavings(profile: Profile<SaverState>): int
  {
    SumOf(RegionsOf(Pad(profile.initial, profile.events), SavingsRule))
  }

  /** Minutes the appliance is on during `day` of a multi-day profile. */
  function EnergyUsageForDay(monthUsageProfile: Profile<ApplianceState>, day: int): int
  {
    EnergyUsage(Profile(InferredState(monthUsageProfile.initial, monthUsageProfile.events, day),
                        DayEvents(monthUsageProfile.events, day)))
  }

  /** Usage of a day's events lies within the day. */
  lemma UsageWithinDay(profile: Profile<ApplianceState>)
    requires DayTimeline(profile.events)
    ensures 0 <= EnergyUsage(profile) <= MAX_IN_PERIOD
  {
    PadSorted(profile.initial, profile.events);
    UsageRuleClosesOnRight();
    RegionsDisjointWithinEvents(Pad(profile.initial, profile.events), UsageRule);
  }

  /** Savings over a day's events lie within the day. */
  lemma SavingsWithinDay(profile: Profile<SaverState>)
    requires DayTimeline(profile.events)
    ensures 0 <= EnergySavings(profile) <= MAX_IN_PERIOD
  {
    PadSorted(profile.initial, profile.events);
    SavingsRuleClosesOnRight();
    RegionsDisjointWithinEvents(Pad(profile.initial, profile.events), SavingsRule);
  }

  /** Usage of one day of a sorted multi-day profile lies within the day. */
  lemma UsageForDayWithinDay(monthUsageProfile: Profile<ApplianceState>, day: int)
    requires Sorted(monthUsageProfile.events)
    ensures 0 <= EnergyUsageForDay(monthUsageProfile, day) <= MAX_IN_PERIOD
  {
    DayEventsSorted(monthUsageProfile.events, day);
    UsageWithinDay(Profile(InferredState(monthUsageProfile.initial, monthUsageProfile.events, day),
                           DayEvents(monthUsageProfile.events, day)));
  }

  method CalculateEnergyUsageSimple(profile: Profile<ApplianceState>) returns (energyUsage: int)
    ensures energyUsage == EnergyUsage(profile)
    ensures energyUsage == OnTime(Pad(profile.initial, profile.events))
    ensures DayTimeline(profile.events) ==> 0 <= energyUsage <= MAX_IN_PERIOD
  {
    var events := [GetApplianceStateDataPoint(profile.initial, 0)] + profile.events;
    var profileLastEventDataPoint := events[|events| - 1];
    events := events + [GetApplianceStateDataPoint(profileLastEventDataPoint.state, MAX_IN_PERIOD)];
    var regions := FindRegions(events, UsageRule);
    energyUsage := SumRegions(regions);
    UsageIsOnTime(profile);
    if DayTimeline(profile.events) {
      UsageWithinDay(profile);
    }
  }

  method CalculateEnergySavings(profile: Profile<SaverState>) returns (energySavings: int)
    ensures energySavings == EnergySavings(profile)
    ensures DayTimeline(profile.events) ==> 0 <= energySavings <= MAX_IN_PERIOD
    ensures DayTimeline(profile.events) && NoRepeatedAutoOff(Pad(profile.initial, profile.events)) ==>
      energySavings == DeviceOffTime(Pad(profile.initial, profile.events))
  {
    var events := [GetEnergySaverApplianceStateDataPoint(profile.initial, 0)] + profile.events;
    var profileLastEventDataPoint := events[|events| - 1];
    events := events + [GetEnergySaverApplianceStateDataPoint(profileLastEventDataPoint.state, MAX_IN_PERIOD)];
    var regions := FindRegions(events, SavingsRule);
    energySavings := SumRegions(regions);
    if DayTimeline(profile.events) {
      SavingsWithinDay(profile);
      if NoRepeatedAutoOff(Pad(profile.initial, profile.events)) {
        SavingsIsDeviceOffTime(profile);
      }
    }
  }

  /** Slices the day out of the month profile and measures its usage as a
      one-day profile. */
  method CalculateEnergyUsageForDay(monthUsageProfile: Profile<ApplianceState>, day: int)
    returns (energyUsage: int)
    requires YEAR_MIN_DAY <= day <= YEAR_MAX_DAY
    ensures energyUsage == EnergyUsageForDay(monthUsageProfile, day)
    ensures energyUsage == OnTime(Pad(InferredState(monthUsageProfile.initial, monthUsageProfile.events, day),
                                      DayEvents(monthUsageProfile.events, day)))
    ensures Sorted(monthUsageProfile.events) ==> 0 <= energyUsage <= MAX_IN_PERIOD
  {
    var initialState, dayDataPoints := ChangeTimeScaleToDay1(monthUsageProfile, day);
    energyUsage := CalculateEnergyUsageSimple(Profile(initialState, dayDataPoints));
    if Sorted(monthUsageProfile.events) {
      UsageForDayWithinDay(monthUsageProfile, day);
    }
  }

  // ---------------------------------------------------------------------------
  // What the rules select
  // ---------------------------------------------------------------------------

  /** Every usage region starts at an On bound and ends at an Off event or at the
      end-of-day sentinel. */
  lemma UsageRegionsAreOnSpans(events: seq<DataPoint<ApplianceState>>)
    ensures forall k :: 0 <= k < |RegionsOf(events, UsageRule)| ==>
      && RegionsOf(events, UsageRule)[k].left.state == On
      && (RegionsOf(events, UsageRule)[k].right.state == Off
          || RegionsOf(events, UsageRule)[k].right.timestamp == MAX_IN_PERIOD)
  {
    RegionsSatisfy(events, UsageRule,
      (l: DataPoint<ApplianceState>, r: DataPoint<ApplianceState>) =>
        l.state == On && (r.state == Off || r.timestamp == MAX_IN_PERIOD));
  }

  /** Every savings region starts at an AutoOff bound and ends at an On event or
      at the end-of-day sentinel: manual switch-offs contribute nothing. */
  lemma SavingsRegionsAreAutoOffSpans(events: seq<DataPoint<SaverState>>)
    ensures forall k :: 0 <= k < |RegionsOf(events, SavingsRule)| ==>
      && RegionsOf(events, SavingsRule)[k].left.state == AutoOff
      && (RegionsOf(events, SavingsRule)[k].right.state == SaverOn
          || RegionsOf(events, SavingsRule)[k].right.timestamp == MAX_IN_PERIOD)
  {
    RegionsSatisfy(events, SavingsRule,
      (l: DataPoint<SaverState>, r: DataPoint<SaverState>) =>
        l.state == AutoOff && (r.state == SaverOn || r.timestamp == MAX_IN_PERIOD));
  }

  /** Once the bound is On, a run of further On events before the end of the day
      neither reports a region nor moves the bound: repeated On events do not
      split a usage span. */
  lemma OnRunKeepsBound(events: seq<DataPoint<ApplianceState>>, i: int, j: int)
    requires 1 <= i <= j <= |events|
    requires BoundBefore(events, UsageRule, i).state == On
    requires forall k :: i <= k < j ==> events[k].state == On && events[k].timestamp != MAX_IN_PERIOD
    ensures Scan(events[..j], UsageRule) == Scan(events[..i], UsageRule)
  {
    RunKeepsState(events, UsageRule, i, j);
  }

  /** Once the bound is AutoOff, a run of manual Off events before the end of the
      day neither reports a region nor moves the bound: the span stays a device
      switch-off until the appliance is switched on. */
  lemma OffRunKeepsAutoOffBound(events: seq<DataPoint<SaverState>>, i: int, j: int)
    requires 1 <= i <= j <= |events|
    requires BoundBefore(events, SavingsRule, i).state == AutoOff
    requires forall k :: i <= k < j ==> events[k].state == SaverOff && events[k].timestamp != MAX_IN_PERIOD
    ensures Scan(events[..j], SavingsRule) == Scan(events[..i], SavingsRule)
  {
    RunKeepsState(events, SavingsRule, i, j);
  }

  /** Once the bound is a manual Off, a run of AutoOff events neither reports a
      region nor moves the bound: the device getting involved after a manual
      switch-off saves nothing. */
  lemma AutoOffRunKeepsOffBound(events: seq<DataPoint<SaverState>>, i: int, j: int)
    requires 1 <= i <= j <= |events|
    requires BoundBefore(events, SavingsRule, i).state == SaverOff
    requires forall k :: i <= k < j ==> events[k].state == AutoOff
    ensures Scan(events[..j], SavingsRule) == Scan(events[..i], SavingsRule)
  {
    RunKeepsState(events, SavingsRule, i, j);
  }

  // ---------------------------------------------------------------------------
  // What the metrics measure
  // ---------------------------------------------------------------------------

  /** Minutes switched on along a timeline: each span between consecutive events
      counts when the earlier event left the appliance on. */
  function OnTime(events: seq<DataPoint<ApplianceState>>): int
    decreases |events|
  {
    if |events| <= 1 then 0
    else
      var n := |events|;
      OnTime(events[..n - 1])
      + (if events[n - 2].state == On then events[n - 1].timestamp - events[n - 2].timestamp else 0)
  }

  /** On time not yet in a region: from an On left bound up to the latest event. */
  function OpenOnTime(leftBound: DataPoint<ApplianceState>, latest: DataPoint<ApplianceState>): int
  {
    if leftBound.state == On then latest.timestamp - leftBound.timestamp else 0
  }

  /** The usage fold after `events`: an On bound is followed by On events only,
      any other bound is the latest event, and the regions plus the open span
      account for all the on time so far. */
  ghost predicate UsageFoldTracksOnTime(events: seq<DataPoint<ApplianceState>>, st: FoldState<ApplianceState>)
    requires |events| >= 1
  {
    var latest := events[|events| - 1];
    && (st.leftBound.state == On ==> latest.state == On)
    && (st.leftBound.state != On ==> st.leftBound == latest)
    && SumOf(st.regions) + OpenOnTime(st.leftBound, latest) == OnTime(events)
  }

  lemma {:induction false} UsageScanTracksOnTime(events: seq<DataPoint<ApplianceState>>)
    requires |events| >= 1
    ensures UsageFoldTracksOnTime(events, Scan(events, UsageRule))
    decreases |events|
  {
    var n := |events|;
    if n > 1 {
      var p := events[..n - 1];
      UsageScanTracksOnTime(p);
      var prev := Scan(p, UsageRule);
      var e := events[n - 1];
      assert p[n - 2] == events[n - 2];
      var res := UsageRule(prev.leftBound, e);
      var st := Scan(events, UsageRule);
      assert st.leftBound == res.1;
      assert OnTime(events) == OnTime(p)
        + (if events[n - 2].state == On then e.timestamp - events[n - 2].timestamp else 0);
      if res.0 {
        assert st.regions == prev.regions + [Region(prev.leftBound, e)];
        SumOfSnoc(prev.regions, Region(prev.leftBound, e));
      } else {
        assert st.regions == prev.regions;
      }
    }
  }

  /** Usage is exactly the time the appliance is switched on between the start
      and the end of the day, for every profile. */
  lemma UsageIsOnTime(profile: Profile<ApplianceState>)
    ensures EnergyUsage(profile) == OnTime(Pad(profile.initial, profile.events))
  {
    var padded := Pad(profile.initial, profile.events);
    UsageScanTracksOnTime(padded);
  }

  /** Why the appliance is in its current state. Switching on resets it; once the
      appliance is off, the cause of the switch-off (manual or device) persists
      through further off events until it is switched on again. */
  function NextCause(cause: SaverState, event: SaverState): SaverState
  {
    if cause != SaverOn && event != SaverOn then cause else event
  }

  function Cause(events: seq<DataPoint<SaverState>>): SaverState
    requires |events| >= 1
    decreases |events|
  {
    if |events| == 1 then events[0].state
    else NextCause(Cause(events[..|events| - 1]), events[|events| - 1].state)
  }

  /** Minutes the device kept the appliance off along a timeline: each span
      between consecutive events counts when the cause after the earlier event
      is a device switch-off. */
  function DeviceOffTime(events: seq<DataPoint<SaverState>>): int
    decreases |events|
  {
    if |events| <= 1 then 0
    else
      var n := |events|;
      DeviceOffTime(events[..n - 1])
      + (if Cause(events[..n - 1]) == AutoOff then events[n - 1].timestamp - events[n - 2].timestamp else 0)
  }

  /** The savings table with a repeated AutoOff keeping the earlier AutoOff
      bound, as a manual Off after an AutoOff does. */
  function CorrectedSavingsRule(leftBound: DataPoint<SaverState>, rightBound: DataPoint<SaverState>)
    : (res: (bool, DataPoint<SaverState>))
    ensures res.0 == SavingsRule(leftBound, rightBound).0
    ensures res.1 == if (leftBound.state == SaverOff && rightBound.state == AutoOff)
                        || (leftBound.state == AutoOff && rightBound.state != SaverOn
                            && rightBound.timestamp != MAX_IN_PERIOD)
                     then leftBound else rightBound
  {
    if leftBound.state == AutoOff && rightBound.state == AutoOff && rightBound.timestamp != MAX_IN_PERIOD then
      (false, leftBound)
    else
      SavingsRule(leftBound, rightBound)
  }

  /** Savings computed with the corrected table. */
  function CorrectedEnergySavings(profile: Profile<SaverState>): int
  {
    SumOf(RegionsOf(Pad(profile.initial, profile.events), CorrectedSavingsRule))
  }

  /** Device-off time not yet in a region: from an AutoOff left bound up to the
      latest event. */
  function OpenDeviceOffTime(leftBound: DataPoint<SaverState>, latest: DataPoint<SaverState>): int
  {
    if leftBound.state == AutoOff then latest.timestamp - leftBound.timestamp else 0
  }

  /** A timeline sorted by time that ends no later than the end of the day. */
  predicate EndsWithinDay<S>(events: seq<DataPoint<S>>)
  {
    |events| >= 1 && Sorted(events) && events[|events| - 1].timestamp <= MAX_IN_PERIOD
  }

  /** The corrected savings fold after `events`: before the end of the day the
      bound's state is the cause; an AutoOff bound at the end of the day is the
      latest event; the regions plus the open span account for all device-off
      time so far. */
  ghost predicate SavingsFoldTracksDeviceOffTime(events: seq<DataPoint<SaverState>>, st: FoldState<SaverState>)
    requires |events| >= 1
  {
    var latest := events[|events| - 1];
    && (latest.timestamp < MAX_IN_PERIOD ==> st.leftBound.state == Cause(events))
    && (latest.timestamp >= MAX_IN_PERIOD && st.leftBound.state == AutoOff ==>
          st.leftBound.timestamp == latest.timestamp)
    && SumOf(st.regions) + OpenDeviceOffTime(st.leftBound, latest) == DeviceOffTime(events)
  }

  /** One step of the corrected savings fold: given bound `b` after an event
      `latest` whose cause is `cause`, the event `e` keeps the tracking facts,
      and the region it closes plus the new open span grow by exactly the
      device-off time between `latest` and `e`. */
  lemma CorrectedSavingsStep(b: DataPoint<SaverState>, cause: SaverState,
                             latest: DataPoint<SaverState>, e: DataPoint<SaverState>)
    requires latest.timestamp <= e.timestamp <= MAX_IN_PERIOD
    requires latest.timestamp < MAX_IN_PERIOD ==> b.state == cause
    requires latest.timestamp >= MAX_IN_PERIOD && b.state == AutoOff ==> b.timestamp == latest.timestamp
    ensures var res := CorrectedSavingsRule(b, e);
      && (e.timestamp < MAX_IN_PERIOD ==> res.1.state == NextCause(cause, e.state))
      && (e.timestamp >= MAX_IN_PERIOD && res.1.state == AutoOff ==> res.1.timestamp == e.timestamp)
      && (if res.0 then Duration(Region(b, e)) else 0) + OpenDeviceOffTime(res.1, e)
         == OpenDeviceOffTime(b, latest) + (if cause == AutoOff then e.timestamp - latest.timestamp else 0)
  {
  }

  lemma {:induction false} CorrectedSavingsScanTracksDeviceOffTime(events: seq<DataPoint<SaverState>>)
    requires EndsWithinDay(events)
    ensures SavingsFoldTracksDeviceOffTime(events, Scan(events, CorrectedSavingsRule))
    decreases |events|
  {
    var n := |events|;
    if n > 1 {
      var p := events[..n - 1];
      assert p[n - 2] == events[n - 2];
      assert EndsWithinDay(p);
      CorrectedSavingsScanTracksDeviceOffTime(p);
      var prev := Scan(p, CorrectedSavingsRule);
      var e := events[n - 1];
      assert p[n - 2].timestamp <= e.timestamp;
      CorrectedSavingsStep(prev.leftBound, Cause(p), p[n - 2], e);
      var res := CorrectedSavingsRule(prev.leftBound, e);
      var st := Scan(events, CorrectedSavingsRule);
      assert st.leftBound == res.1;
      assert Cause(events) == NextCause(Cause(p), e.state);
      assert DeviceOffTime(events) == DeviceOffTime(p)
        + (if Cause(p) == AutoOff then e.timestamp - p[n - 2].timestamp else 0);
      if res.0 {
        assert st.regions == prev.regions + [Region(prev.leftBound, e)];
        SumOfSnoc(prev.regions, Region(prev.leftBound, e));
      } else {
        assert st.regions == prev.regions;
      }
    }
  }

  /** With the corrected table, savings are exactly the time the device kept the
      appliance switched off, for every day timeline. */
  lemma CorrectedSavingsIsDeviceOffTime(profile: Profile<SaverState>)
    requires DayTimeline(profile.events)
    ensures CorrectedEnergySavings(profile) == DeviceOffTime(Pad(profile.initial, profile.events))
  {
    var padded := Pad(profile.initial, profile.events);
    PadSorted(profile.initial, profile.events);
    CorrectedSavingsScanTracksDeviceOffTime(padded);
  }

  /** No AutoOff event before the end of the day arrives while the device already
      keeps the appliance off. */
  predicate NoRepeatedAutoOff(events: seq<DataPoint<SaverState>>)
  {
    forall i :: 1 <= i < |events| && events[i].state == AutoOff && events[i].timestamp != MAX_IN_PERIOD
      ==> Cause(events[..i]) != AutoOff
  }

  /** Without a repeated AutoOff the table as written folds like the corrected one. */
  lemma {:induction false} SavingsScanAgreesWithCorrected(events: seq<DataPoint<SaverState>>)
    requires EndsWithinDay(events) && NoRepeatedAutoOff(events)
    ensures Scan(events, SavingsRule) == Scan(events, CorrectedSavingsRule)
    decreases |events|
  {
    var n := |events|;
    if n > 1 {
      var p := events[..n - 1];
      assert p[n - 2] == events[n - 2];
      assert EndsWithinDay(p);
      forall i | 1 <= i < |p| && p[i].state == AutoOff && p[i].timestamp != MAX_IN_PERIOD
        ensures Cause(p[..i]) != AutoOff
      {
        assert p[..i] == events[..i];
      }
      SavingsScanAgreesWithCorrected(p);
      var prev := Scan(p, CorrectedSavingsRule);
      var e := events[n - 1];
      assert SavingsRule(prev.leftBound, e) == CorrectedSavingsRule(prev.leftBound, e) by {
        if e.state == AutoOff && e.timestamp != MAX_IN_PERIOD {
          CorrectedSavingsScanTracksDeviceOffTime(p);
          assert p[n - 2].timestamp <= e.timestamp;
          assert prev.leftBound.state == Cause(p) != AutoOff;
        }
      }
    }
  }

  /** As written, savings are the device-off time whenever no AutoOff is repeated. */
  lemma SavingsIsDeviceOffTime(profile: Profile<SaverState>)
    requires DayTimeline(profile.events)
    requires NoRepeatedAutoOff(Pad(profile.initial, profile.events))
    ensures EnergySavings(profile) == DeviceOffTime(Pad(profile.initial, profile.events))
  {
    PadSorted(profile.initial, profile.events);
    SavingsScanAgreesWithCorrected(Pad(profile.initial, profile.events));
    CorrectedSavingsIsDeviceOffTime(profile);
  }

  // ---------------------------------------------------------------------------
  // Worked examples
  // ---------------------------------------------------------------------------

  /** Left on all day with no event, the appliance uses the whole day. */
  lemma UsageAllDayOn()
    ensures EnergyUsage(Profile(On, [])) == MAX_IN_PERIOD
  {
    var padded := Pad(On, []);
    assert padded == [DataPoint(On, 0), DataPoint(On, 1440)];
    assert padded[..1] == [DataPoint(On, 0)];
    assert Scan(padded, UsageRule).regions == [Region(DataPoint(On, 0), DataPoint(On, 1440))];
    SumOfSnoc([], Region(DataPoint(On, 0), DataPoint(On, 1440)));
  }

  /** Left off all day with no event, the appliance uses nothing. */
  lemma UsageAllDayOff()
    ensures EnergyUsage(Profile(Off, [])) == 0
  {
    var padded := Pad(Off, []);
    assert padded == [DataPoint(Off, 0), DataPoint(Off, 1440)];
    assert padded[..1] == [DataPoint(Off, 0)];
    assert Scan(padded, UsageRule).regions == [];
  }

  /** On from the start, off at 50, on at 304, off at 600: 50 + 296 minutes. */
  lemma UsageDocExample()
    ensures EnergyUsage(Profile(On, [DataPoint(Off, 50), DataPoint(On, 304), DataPoint(Off, 600)])) == 50 + 296
  {
    var e0, e1, e2, e3, e4 := DataPoint(On, 0), DataPoint(Off, 50), DataPoint(On, 304), DataPoint(Off, 600), DataPoint(Off, 1440);
    var padded := Pad(On, [e1, e2, e3]);
    assert padded == [e0, e1, e2, e3, e4];
    assert padded[..4] == [e0, e1, e2, e3];
    assert [e0, e1, e2, e3][..3] == [e0, e1, e2];
    assert [e0, e1, e2][..2] == [e0, e1];
    assert [e0, e1][..1] == [e0];
    assert UsageRule(e0, e1) == (true, e1);
    assert Scan([e0, e1], UsageRule) == FoldState([Region(e0, e1)], e1);
    assert UsageRule(e1, e2) == (false, e2);
    assert Scan([e0, e1, e2], UsageRule) == FoldState([Region(e0, e1)], e2);
    assert UsageRule(e2, e3) == (true, e3);
    assert [Region(e0, e1)] + [Region(e2, e3)] == [Region(e0, e1), Region(e2, e3)];
    assert Scan([e0, e1, e2, e3], UsageRule) == FoldState([Region(e0, e1), Region(e2, e3)], e3);
    assert UsageRule(e3, e4) == (false, e4);
    assert Scan(padded, UsageRule) == FoldState([Region(e0, e1), Region(e2, e3)], e4);
    SumOfSnoc([], Region(e0, e1));
    SumOfSnoc([Region(e0, e1)], Region(e2, e3));
  }

  /** On from the start, auto-off at 100, manual off at 150, on at 200: the
      device saved 100 minutes. */
  lemma SavingsExample()
    ensures EnergySavings(Profile(SaverOn, [DataPoint(AutoOff, 100), DataPoint(SaverOff, 150), DataPoint(SaverOn, 200)])) == 100
  {
    var e0, e1, e2, e3, e4 := DataPoint(SaverOn, 0), DataPoint(AutoOff, 100), DataPoint(SaverOff, 150), DataPoint(SaverOn, 200), DataPoint(SaverOn, 1440);
    var padded := Pad(SaverOn, [e1, e2, e3]);
    assert padded == [e0, e1, e2, e3, e4];
    assert padded[..4] == [e0, e1, e2, e3];
    assert [e0, e1, e2, e3][..3] == [e0, e1, e2];
    assert [e0, e1, e2][..2] == [e0, e1];
    assert [e0, e1][..1] == [e0];
    assert Scan([e0, e1], SavingsRule) == FoldState([], e1);
    assert Scan([e0, e1, e2], SavingsRule) == FoldState([], e1);
    assert Scan([e0, e1, e2, e3], SavingsRule) == FoldState([Region(e1, e3)], e3);
    assert Scan(padded, SavingsRule) == FoldState([Region(e1, e3)], e4);
    SumOfSnoc([], Region(e1, e3));
  }

  /** As written, a second AutoOff while the device already keeps the appliance
      off moves the bound without closing a region: on, auto-off at 100, auto-off
      at 200, on at 300 saves 100 minutes, although the device kept the appliance
      off for 200. */
  lemma RepeatedAutoOffLosesSavings()
    ensures var profile := Profile(SaverOn, [DataPoint(AutoOff, 100), DataPoint(AutoOff, 200), DataPoint(SaverOn, 300)]);
      && EnergySavings(profile) == 100
      && DeviceOffTime(Pad(profile.initial, profile.events)) == 200
  {
    var e0, e1, e2, e3, e4 := DataPoint(SaverOn, 0), DataPoint(AutoOff, 100), DataPoint(AutoOff, 200), DataPoint(SaverOn, 300), DataPoint(SaverOn, 1440);
    var padded := Pad(SaverOn, [e1, e2, e3]);
    assert padded == [e0, e1, e2, e3, e4];
    assert padded[..4] == [e0, e1, e2, e3];
    assert [e0, e1, e2, e3][..3] == [e0, e1, e2];
    assert [e0, e1, e2][..2] == [e0, e1];
    assert [e0, e1][..1] == [e0];
    assert Scan([e0, e1], SavingsRule) == FoldState([], e1);
    assert Scan([e0, e1, e2], SavingsRule) == FoldState([], e2);
    assert Scan([e0, e1, e2, e3], SavingsRule) == FoldState([Region(e2, e3)], e3);
    assert Scan(padded, SavingsRule) == FoldState([Region(e2, e3)], e4);
    SumOfSnoc([], Region(e2, e3));
    assert Cause([e0, e1]) == AutoOff;
    assert Cause([e0, e1, e2]) == AutoOff;
    assert Cause([e0, e1, e2, e3]) == SaverOn;
    assert DeviceOffTime([e0, e1]) == 0;
    assert DeviceOffTime([e0, e1, e2]) == 100;
    assert DeviceOffTime([e0, e1, e2, e3]) == 200;
  }

  /** With the corrected table the same profile saves the full 200 minutes. */
  lemma RepeatedAutoOffCorrected()
    ensures CorrectedEnergySavings(Profile(SaverOn, [DataPoint(AutoOff, 100), DataPoint(AutoOff, 200), DataPoint(SaverOn, 300)])) == 200
  {
    var profile := Profile(SaverOn, [DataPoint(AutoOff, 100), DataPoint(AutoOff, 200), DataPoint(SaverOn, 300)]);
    RepeatedAutoOffLosesSavings();
    assert DayTimeline(profile.events);
    CorrectedSavingsIsDeviceOffTime(profile);
  }

  // ---------------------------------------------------------------------------
  // Re-validation of the day profile
  // ---------------------------------------------------------------------------

  const INVALID_TIMESTAMP_IN_EVENT: string := "Invalid Timestamp in one of the event"

  /** The validator's timestamp check: every event timestamp is greater than 0. */
  predicate TimestampsValid<S>(events: seq<DataPoint<S>>)
  {
    forall k :: 0 <= k < |events| ==> events[k].timestamp > 0
  }

  /** Usage for a day as the program computes it: the sliced day profile goes
      through the validating usage entry point, so its rebased timestamps are
      checked again. */
  function EnergyUsageForDayAsWritten(monthUsageProfile: Profile<ApplianceState>, day: int): (r: Result<int>)
    ensures r.Success? ==> r.value == EnergyUsageForDay(monthUsageProfile, day)
    ensures r.Failure? ==> r.error == INVALID_TIMESTAMP_IN_EVENT
  {
    if TimestampsValid(DayEvents(monthUsageProfile.events, day)) then
      Success(EnergyUsageForDay(monthUsageProfile, day))
    else
      Failure(INVALID_TIMESTAMP_IN_EVENT)
  }

  /** A month event exactly at the start of the day is rebased to minute 0, which
      the re-validation rejects. */
  lemma DayStartEventRejected(monthUsageProfile: Profile<ApplianceState>, day: int, j: int)
    requires 0 <= j < |monthUsageProfile.events|
    requires monthUsageProfile.events[j].timestamp == DayStart(day)
    ensures EnergyUsageForDayAsWritten(monthUsageProfile, day) == Failure(INVALID_TIMESTAMP_IN_EVENT)
  {
    var kept := DayEvents(monthUsageProfile.events, day);
    var x := Rebase(monthUsageProfile.events[j], day);
    DayEventsMembers(monthUsageProfile.events, day, x);
    var k :| 0 <= k < |kept| && kept[k] == x;
    assert kept[k].timestamp == 0;
  }

  /** A valid month profile, on from the start and switched off at minute 1440:
      as written, day 2 is rejected. */
  lemma DayStartFindingExample()
    ensures TimestampsValid([DataPoint(Off, 1440)])
    ensures EnergyUsageForDayAsWritten(Profile(On, [DataPoint(Off, 1440)]), 2)
      == Failure(INVALID_TIMESTAMP_IN_EVENT)
  {
    DayStartEventRejected(Profile(On, [DataPoint(Off, 1440)]), 2, 0);
  }

  /** For the same profile the corrected composition reports that the appliance
      was off all of day 2. */
  lemma DayStartFindingCorrected()
    ensures EnergyUsageForDay(Profile(On, [DataPoint(Off, 1440)]), 2) == 0
  {
    var events := [DataPoint(Off, 1440)];
    assert events[..0] == [];
    assert DayEvents(events, 2) == [DataPoint(Off, 0)];
    assert FirstInDay(events, 2) == Some(0);
    assert InferredState(On, events, 2) == Off;
    var padded := Pad(Off, [DataPoint(Off, 0)]);
    assert padded == [DataPoint(Off, 0), DataPoint(Off, 0), DataPoint(Off, 1440)];
    assert padded[..2] == [DataPoint(Off, 0), DataPoint(Off, 0)];
    assert padded[..2][..1] == [DataPoint(Off, 0)];
    assert Scan(padded[..2], UsageRule).regions == [];
  }

  /** Away from the day start the re-validation passes on validated month events,
      and the program computes the corrected usage. */
  lemma AsWrittenAgreesAwayFromDayStart(monthUsageProfile: Profile<ApplianceState>, day: int)
    requires TimestampsValid(monthUsageProfile.events)
    requires forall k :: 0 <= k < |monthUsageProfile.events| ==>
      monthUsageProfile.events[k].timestamp != DayStart(day)
    ensures EnergyUsageForDayAsWritten(monthUsageProfile, day)
      == Success(EnergyUsageForDay(monthUsageProfile, day))
  {
    var kept := DayEvents(monthUsageProfile.events, day);
    forall k | 0 <= k < |kept|
      ensures kept[k].timestamp > 0
    {
      DayEventsMembers(monthUsageProfile.events, day, kept[k]);
    }
  }
}
