/**
  The farm economy: the wheat and seed counters, the fixed field of plots and
  the growth timer, with the transitions the player and the timer cause.
 */
module Farm {
  import opened Wrappers
  import opened Plots

  /** The field is GridSide by GridSide plots. */
  const GridSide: int := 5
  const PlotCount: int := GridSide * GridSide

  const InitialWheat: int := 0
  const InitialSeeds: int := 5

  /** Wheat gained by one harvest. */
  const HarvestYield: int := 3
  /** Wheat paid, and seeds received, for one purchase. */
  const SeedPrice: int := 2
  const SeedBatch: int := 3

  /**
    The whole session state. `intervals` counts the live growth timers: the
    source keeps at most one, in a ref that is empty until the first start.
   */
  datatype State = State(wheat: int, seeds: int, plots: seq<Plot>, intervals: nat)

  /** The plot with id `k`, as the initial grid lays it out. */
  function FreshPlot(k: int): Plot {
    Plot(k, k / GridSide, k % GridSide, false, 0)
  }

  /** The initial field, as a reference definition: plot k is fresh plot k. */
  function InitialPlots(): seq<Plot> {
    seq(PlotCount, k => FreshPlot(k))
  }

  /** The session invariant every reachable state keeps. */
  predicate Valid(s: State) {
    && s.wheat >= 0
    && s.seeds >= 0
    && |s.plots| == PlotCount
    && (forall i :: 0 <= i < |s.plots| ==> SameSite(s.plots[i], FreshPlot(i)))
    && (forall i :: 0 <= i < |s.plots| ==> WellFormed(s.plots[i]))
    && s.intervals <= 1
  }

  /**
    Builds the field the way the component's state initialiser does: a
    column-major double loop that numbers the plots with a running id.
   */
  method BuildGrid() returns (plots: seq<Plot>)
    ensures |plots| == PlotCount
    ensures forall i :: 0 <= i < |plots| ==> plots[i].id == i && !plots[i].planted && plots[i].growthStage == 0
    ensures forall i :: 0 <= i < |plots| ==> plots[i].x == i / GridSide && plots[i].z == i % GridSide
    ensures plots == InitialPlots()
  {
    plots := [];
    var id := 0;
    var x := 0;
    while x < GridSide
      invariant 0 <= x <= GridSide
      invariant id == |plots| == x * GridSide
      invariant forall k :: 0 <= k < |plots| ==> plots[k] == FreshPlot(k)
    {
      var z := 0;
      while z < GridSide
        invariant 0 <= z <= GridSide
        invariant id == |plots| == x * GridSide + z
        invariant forall k :: 0 <= k < |plots| ==> plots[k] == FreshPlot(k)
      {
        plots := plots + [Plot(id, x, z, false, 0)];
        id := id + 1;
        z := z + 1;
      }
      x := x + 1;
    }
  }

  /** The state before the growth timer is started. */
  function Initial(): (s: State)
    ensures s.wheat == 0 && s.seeds == 5 && |s.plots| == 25
    ensures forall i :: 0 <= i < |s.plots| ==> s.plots[i].id == i && !s.plots[i].planted && s.plots[i].growthStage == 0
    ensures s.intervals == 0
    ensures Valid(s)
  {
    State(InitialWheat, InitialSeeds, InitialPlots(), 0)
  }

  /** Starting the growth timer: a second start is refused by the guard. */
  function StartGrowth(s: State): (r: State)
    ensures r.wheat == s.wheat && r.seeds == s.seeds && r.plots == s.plots
    ensures r.intervals >= 1
    ensures s.intervals != 0 ==> r == s
    ensures s.intervals <= 1 ==> r.intervals == 1
  {
    if s.intervals != 0 then s else s.(intervals := s.intervals + 1)
  }

  /** The growth tick applied to the whole field, plot by plot in order. */
  function GrowAll(plots: seq<Plot>): (r: seq<Plot>)
    ensures |r| == |plots|
    ensures forall i :: 0 <= i < |plots| ==> r[i] == Grow(plots[i])
  {
    if |plots| == 0 then [] else [Grow(plots[0])] + GrowAll(plots[1..])
  }

  /** One firing of the growth timer. */
  function Tick(s: State): (r: State)
    ensures r.wheat == s.wheat && r.seeds == s.seeds && r.intervals == s.intervals
    ensures |r.plots| == |s.plots|
    ensures forall i :: 0 <= i < |s.plots| ==>
      SameSite(r.plots[i], s.plots[i]) && r.plots[i].planted == s.plots[i].planted
    ensures forall i :: 0 <= i < |s.plots| && Growing(s.plots[i]) ==>
      r.plots[i].growthStage == s.plots[i].growthStage + 1
    ensures forall i :: 0 <= i < |s.plots| && !Growing(s.plots[i]) ==> r.plots[i] == s.plots[i]
  {
    s.(plots := GrowAll(s.plots))
  }

  /** The first index holding a plot with the given id, if any. */
  function Find(plots: seq<Plot>, id: int): (r: Option<nat>)
    ensures r.Some? ==> r.value < |plots| && plots[r.value].id == id
    ensures r.Some? ==> forall j :: 0 <= j < r.value ==> plots[j].id != id
    ensures r.None? <==> forall j :: 0 <= j < |plots| ==> plots[j].id != id
  {
    if |plots| == 0 then None
    else if plots[0].id == id then Some(0)
    else match Find(plots[1..], id)
      case None => None
      case Some(k) => Some(k + 1)
  }

  /** What a click on a plot does: plant it, harvest it, or nothing. */
  datatype Outcome = Sowed(index: nat) | Reaped(index: nat) | Ignored

  /** Decides the outcome of a click; planting is tried before harvesting. */
  function Classify(s: State, id: int): (o: Outcome)
    ensures !o.Ignored? ==> o.index < |s.plots| && s.plots[o.index].id == id
    ensures o.Sowed? ==> !s.plots[o.index].planted && s.seeds > 0
    ensures o.Reaped? ==> Ripe(s.plots[o.index])
    ensures o.Ignored? <==> (
      || Find(s.plots, id).None?
      || (var i := Find(s.plots, id).value; (s.plots[i].planted || s.seeds <= 0) && !Ripe(s.plots[i])))
  {
    match Find(s.plots, id)
    case None => Ignored
    case Some(i) =>
      if !s.plots[i].planted && s.seeds > 0 then Sowed(i)
      else if Ripe(s.plots[i]) then Reaped(i)
      else Ignored
  }

  /** A click on the plot with the given id. */
  function Click(s: State, id: int): (r: State)
    ensures r.intervals == s.intervals
    ensures |r.plots| == |s.plots|
    ensures forall j :: 0 <= j < |s.plots| ==> SameSite(r.plots[j], s.plots[j])
    ensures r == s || (r.seeds == s.seeds - 1 && r.wheat == s.wheat)
                   || (r.wheat == s.wheat + HarvestYield && r.seeds == s.seeds)
  {
    match Classify(s, id)
    case Sowed(i) => s.(seeds := s.seeds - 1, plots := s.plots[i := Sow(s.plots[i])])
    case Reaped(i) => s.(wheat := s.wheat + HarvestYield, plots := s.plots[i := Reap(s.plots[i])])
    case Ignored => s
  }

  /** Trading wheat for seeds, refused when the player cannot pay. */
  function BuySeeds(s: State): (r: State)
    ensures r.plots == s.plots && r.intervals == s.intervals
    ensures r != s <==> s.wheat >= SeedPrice
    ensures r != s ==> r.wheat == s.wheat - 2 && r.seeds == s.seeds + 3
    ensures s.wheat >= 0 ==> r.wheat >= 0
  {
    if s.wheat >= SeedPrice then s.(wheat := s.wheat - SeedPrice, seeds := s.seeds + SeedBatch) else s
  }

  /** Whether the shop's buy button is enabled. */
  function BuyEnabled(s: State): bool {
    !(s.wheat < SeedPrice)
  }

  /**
    The per-plot callback of the click handler's map over the field, reading
    the seed count the handler was created with.
   */
  function ClickPlot(p: Plot, seeds: int): (q: Plot)
    ensures !p.planted && seeds > 0 ==> q == Sow(p)
    ensures Ripe(p) ==> q == Reap(p)
    ensures q != p <==> (!p.planted && seeds > 0) || Ripe(p)
    ensures q != p ==> q.planted == !p.planted
  {
    if !p.planted && seeds > 0 then Sow(p)
    else if Ripe(p) then Reap(p)
    else p
  }

  /** n firings of the growth timer in a row. */
  function Ticks(s: State, n: nat): (r: State)
    ensures r.wheat == s.wheat && r.seeds == s.seeds && r.intervals == s.intervals
    ensures |r.plots| == |s.plots|
  {
    if n == 0 then s else Tick(Ticks(s, n - 1))
  }
}
