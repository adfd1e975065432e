/**
  The session as a reducer: every timer firing and every player action is an
  event applied, one at a time and whole, to the current state.
 */
module Session {
  import opened Plots
  import opened Farm
  import opened FarmProperties

  datatype Event = GrowthTick | PlotClicked(id: int) | BuySeedsPressed | StartRequested

  /** The state once the component has mounted: the timer has been started. */
  function Mount(): (s: State)
    ensures s.wheat == 0 && s.seeds == 5 && s.intervals == 1
    ensures Valid(s)
  {
    StartGrowth(Initial())
  }

  /** Applies one event. Growth ticks arrive only while a timer exists. */
  function Step(s: State, e: Event): (r: State)
    ensures e.GrowthTick? && s.intervals == 0 ==> r == s
    ensures e.StartRequested? && s.intervals != 0 ==> r == s
    ensures !e.StartRequested? ==> r.intervals == s.intervals
    ensures |r.plots| == |s.plots|
  {
    match e
    case GrowthTick => if s.intervals != 0 then Tick(s) else s
    case PlotClicked(id) => Click(s, id)
    case BuySeedsPressed => BuySeeds(s)
    case StartRequested => StartGrowth(s)
  }

  /** Applies a sequence of events in order. */
  function Run(s: State, events: seq<Event>): (r: State)
    ensures |r.plots| == |s.plots|
    decreases |events|
  {
    if |events| == 0 then s else Run(Step(s, events[0]), events[1..])
  }

  lemma StepPreservesValid(s: State, e: Event)
    requires Valid(s)
    ensures Valid(Step(s, e))
  {
    match e
    case GrowthTick => if s.intervals != 0 { TickPreservesValid(s); }
    case PlotClicked(id) => ClickPreservesValid(s, id);
    case BuySeedsPressed => BuySeedsPreservesValid(s);
    case StartRequested => StartGrowthPreservesValid(s);
  }

  lemma {:induction false} RunPreservesValid(s: State, events: seq<Event>)
    requires Valid(s)
    ensures Valid(Run(s, events))
    decreases |events|
  {
    if |events| > 0 {
      StepPreservesValid(s, events[0]);
      RunPreservesValid(Step(s, events[0]), events[1..]);
    }
  }

  /**
    Whatever the player and the timer do from a valid state with the timer
    running (as after mount): both counters stay non-negative, the field keeps
    its 25 plots with their ids, every stage stays in 0..3 with planted
    exactly when past stage 0, and exactly one growth timer exists.
   */
  lemma ReachableInvariant(s: State, events: seq<Event>)
    requires Valid(s) && s.intervals == 1
    ensures Run(s, events).wheat >= 0 && Run(s, events).seeds >= 0
    ensures |Run(s, events).plots| == 25
    ensures forall i :: 0 <= i < 25 ==> Run(s, events).plots[i].id == i
    ensures forall i :: 0 <= i < 25 ==>
      0 <= Run(s, events).plots[i].growthStage <= 3
      && (Run(s, events).plots[i].planted <==> Run(s, events).plots[i].growthStage >= 1)
    ensures Run(s, events).intervals == 1
  {
    var r := Run(s, events);
    RunPreservesValid(s, events);
    RunKeepsTimer(s, events);
    forall i | 0 <= i < 25
      ensures r.plots[i].id == i && WellFormed(r.plots[i])
    {
      assert SameSite(r.plots[i], FreshPlot(i)) && WellFormed(r.plots[i]);
    }
  }

  /** Once started, the timer is never stopped and never duplicated. */
  lemma {:induction false} RunKeepsTimer(s: State, events: seq<Event>)
    requires s.intervals == 1
    ensures Run(s, events).intervals == 1
    decreases |events|
  {
    if |events| > 0 {
      RunKeepsTimer(Step(s, events[0]), events[1..]);
    }
  }

  /** No plot reachable from a valid state ever shows the "Planting..." tooltip. */
  lemma NeverShowsPlanting(s: State, events: seq<Event>, i: int)
    requires Valid(s) && 0 <= i < |s.plots|
    ensures Label(Run(s, events).plots[i]) != Planting
  {
    RunPreservesValid(s, events);
  }

  /** Every state the session reaches after mount keeps the invariant and never shows "Planting...". */
  lemma MountedSession(events: seq<Event>)
    ensures Valid(Run(Mount(), events)) && Run(Mount(), events).intervals == 1
    ensures forall i :: 0 <= i < |Run(Mount(), events).plots| ==>
      Label(Run(Mount(), events).plots[i]) != Planting
  {
    RunPreservesValid(Mount(), events);
    RunKeepsTimer(Mount(), events);
    forall i | 0 <= i < |Run(Mount(), events).plots|
      ensures Label(Run(Mount(), events).plots[i]) != Planting
    {
      NeverShowsPlanting(Mount(), events, i);
    }
  }
}
