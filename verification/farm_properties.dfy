/**
  Properties of the farm transitions: what each click outcome changes and
  leaves alone, how growth accumulates over ticks, and that every transition
  keeps the session invariant.
 */
module FarmProperties {
  import opened Wrappers
  import opened Plots
  import opened Farm

  /** In a valid field the plot with id k sits at index k, and only ids 0..24 exist. */
  lemma FindInGrid(s: State, id: int)
    requires Valid(s)
    ensures Find(s.plots, id) == if 0 <= id < PlotCount then Some(id) else None
  {
    if 0 <= id < PlotCount {
      assert SameSite(s.plots[id], FreshPlot(id));
    } else {
      forall j | 0 <= j < |s.plots|
        ensures s.plots[j].id != id
      {
        assert SameSite(s.plots[j], FreshPlot(j));
      }
    }
  }

  /** Clicking an empty plot with a seed in hand sows it and spends exactly one seed. */
  lemma ClickPlants(s: State, id: int)
    requires Valid(s) && 0 <= id < PlotCount
    requires !s.plots[id].planted && s.seeds > 0
    ensures Click(s, id).seeds == s.seeds - 1
    ensures Click(s, id).wheat == s.wheat && Click(s, id).intervals == s.intervals
    ensures Click(s, id).plots[id] == s.plots[id].(planted := true, growthStage := 1)
    ensures forall j :: 0 <= j < |s.plots| && j != id ==> Click(s, id).plots[j] == s.plots[j]
  {
    FindInGrid(s, id);
  }

  /** Clicking a ripe plot yields exactly three wheat and leaves bare soil. */
  lemma ClickHarvests(s: State, id: int)
    requires Valid(s) && 0 <= id < PlotCount
    requires s.plots[id].planted && s.plots[id].growthStage == 3
    ensures Click(s, id).wheat == s.wheat + 3
    ensures Click(s, id).seeds == s.seeds && Click(s, id).intervals == s.intervals
    ensures Click(s, id).plots[id] == s.plots[id].(planted := false, growthStage := 0)
    ensures forall j :: 0 <= j < |s.plots| && j != id ==> Click(s, id).plots[j] == s.plots[j]
  {
    FindInGrid(s, id);
  }

  /**
    A click changes nothing exactly when the id is not in the field, or the
    plot is neither sowable (empty, seeds in hand) nor ripe.
   */
  lemma ClickIgnoredIff(s: State, id: int)
    requires Valid(s)
    ensures Click(s, id) == s <==>
      || !(0 <= id < PlotCount)
      || (   (s.plots[id].planted || s.seeds == 0)
          && !(s.plots[id].planted && s.plots[id].growthStage == 3))
  {
    FindInGrid(s, id);
    if 0 <= id < PlotCount {
      var p := s.plots[id];
      if !p.planted && s.seeds > 0 {
        assert Click(s, id).plots[id].planted;
      } else if Ripe(p) {
        assert !Click(s, id).plots[id].planted;
      }
    }
  }

  /**
    Exactly one of planting, harvesting or nothing happens per click: a seed
    is spent only when sowing, wheat is gained only when reaping, never both.
   */
  lemma ClickExactlyOne(s: State, id: int)
    requires Valid(s)
    ensures Click(s, id).seeds < s.seeds <==> Classify(s, id).Sowed?
    ensures Click(s, id).wheat > s.wheat <==> Classify(s, id).Reaped?
    ensures Click(s, id) == s <==> Classify(s, id).Ignored?
    ensures !(Click(s, id).seeds < s.seeds && Click(s, id).wheat > s.wheat)
  {
    match Classify(s, id)
    case Sowed(i) =>
      assert Click(s, id).plots[i].planted;
    case Reaped(i) =>
      assert !Click(s, id).plots[i].planted;
    case Ignored =>
  }

  /**
    On a valid field the click agrees with the handler's map over all plots:
    the plot carrying the id goes through the callback, every other plot is kept.
   */
  lemma ClickMatchesMap(s: State, id: int)
    requires Valid(s)
    ensures forall j :: 0 <= j < |s.plots| ==>
      Click(s, id).plots[j] == if s.plots[j].id == id then ClickPlot(s.plots[j], s.seeds) else s.plots[j]
  {
    FindInGrid(s, id);
    forall j | 0 <= j < |s.plots|
      ensures Click(s, id).plots[j] == if s.plots[j].id == id then ClickPlot(s.plots[j], s.seeds) else s.plots[j]
    {
      assert SameSite(s.plots[j], FreshPlot(j));
    }
  }

  lemma TickPreservesValid(s: State)
    requires Valid(s)
    ensures Valid(Tick(s))
  {
    var r := Tick(s);
    forall i | 0 <= i < |r.plots|
      ensures SameSite(r.plots[i], FreshPlot(i)) && WellFormed(r.plots[i])
    {
      assert SameSite(s.plots[i], FreshPlot(i)) && WellFormed(s.plots[i]);
      assert r.plots[i] == Grow(s.plots[i]);
    }
  }

  lemma ClickPreservesValid(s: State, id: int)
    requires Valid(s)
    ensures Valid(Click(s, id))
  {
    var r := Click(s, id);
    forall i | 0 <= i < |r.plots|
      ensures SameSite(r.plots[i], FreshPlot(i)) && WellFormed(r.plots[i])
    {
      assert SameSite(s.plots[i], FreshPlot(i)) && WellFormed(s.plots[i]);
    }
  }

  lemma BuySeedsPreservesValid(s: State)
    requires Valid(s)
    ensures Valid(BuySeeds(s))
  {
  }

  lemma StartGrowthPreservesValid(s: State)
    requires Valid(s)
    ensures Valid(StartGrowth(s))
  {
  }

  /** The shop button is enabled exactly when buying would change the state. */
  lemma BuyEnabledIff(s: State)
    ensures BuyEnabled(s) <==> BuySeeds(s) != s
  {
  }

  /**
    Over n ticks a planted plot climbs one stage per tick until it is ripe and
    then stays ripe; an empty plot does not move; the counters do not change.
   */
  lemma {:induction false} TicksStage(s: State, n: nat, i: int)
    requires Valid(s) && 0 <= i < PlotCount
    ensures Valid(Ticks(s, n))
    ensures Ticks(s, n).wheat == s.wheat && Ticks(s, n).seeds == s.seeds
    ensures s.plots[i].planted ==>
      Ticks(s, n).plots[i] == s.plots[i].(growthStage := Min(s.plots[i].growthStage + n, MaxStage))
    ensures !s.plots[i].planted ==> Ticks(s, n).plots[i] == s.plots[i]
  {
    if n > 0 {
      TicksStage(s, n - 1, i);
      TickPreservesValid(Ticks(s, n - 1));
    }
  }

  function Min(a: int, b: int): int {
    if a < b then a else b
  }

  /**
    The full life of one plot: sow, two ticks, harvest. The plot ends as it
    began, one seed has become three wheat, and a harvest after only one tick
    is ignored.
   */
  lemma SowGrowReap(s: State, id: int)
    requires Valid(s) && 0 <= id < PlotCount
    requires !s.plots[id].planted && s.seeds > 0
    ensures Click(Ticks(Click(s, id), 1), id) == Ticks(Click(s, id), 1)
    ensures Click(Ticks(Click(s, id), 2), id).plots[id] == s.plots[id]
    ensures Click(Ticks(Click(s, id), 2), id).wheat == s.wheat + 3
    ensures Click(Ticks(Click(s, id), 2), id).seeds == s.seeds - 1
  {
    ClickPlants(s, id);
    var sown := Click(s, id);
    ClickPreservesValid(s, id);
    TicksStage(sown, 1, id);
    TicksStage(sown, 2, id);
    ClickIgnoredIff(Ticks(sown, 1), id);
    ClickHarvests(Ticks(sown, 2), id);
    assert SameSite(s.plots[id], FreshPlot(id)) && WellFormed(s.plots[id]);
  }
}
