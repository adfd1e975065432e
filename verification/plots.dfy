/**
  A single wheat plot of the farm: its identity, its fixed place in the
  5-by-5 field, whether a seed occupies it and how far the crop has grown.
 */
module Plots {

  /** Growth stage of ripe wheat; stages run 0 (bare soil) to 3 (ready). */
  const MaxStage: int := 3

  /** Stage a plot is set to the moment it is sown. */
  const SownStage: int := 1

  /**
    The plot record. `x` and `z` are the grid column and row; the scene
    places the plot at (x + 0.5, 0.05, z + 0.5), which the logic never reads.
   */
  datatype Plot = Plot(id: int, x: int, z: int, planted: bool, growthStage: int)

  /** The per-plot invariant: stage within 0..3, planted exactly when past stage 0. */
  predicate WellFormed(p: Plot) {
    && 0 <= p.growthStage <= MaxStage
    && (p.planted <==> p.growthStage >= 1)
  }

  /** Same plot in the same place: the parts of a plot no transition may change. */
  predicate SameSite(p: Plot, q: Plot) {
    p.id == q.id && p.x == q.x && p.z == q.z
  }

  /** A planted plot that a growth tick still advances. */
  predicate Growing(p: Plot) {
    p.planted && p.growthStage < MaxStage
  }

  /** A planted plot whose wheat can be harvested. */
  predicate Ripe(p: Plot) {
    p.planted && p.growthStage == MaxStage
  }

  /** What one growth tick does to one plot. */
  function Grow(p: Plot): (q: Plot)
    ensures SameSite(q, p) && q.planted == p.planted
    ensures Growing(p) ==> q.growthStage == p.growthStage + 1
    ensures !Growing(p) ==> q == p
    ensures WellFormed(p) ==> WellFormed(q)
  {
    if Growing(p) then p.(growthStage := p.growthStage + 1) else p
  }

  /** The plot after a seed is put in it. */
  function Sow(p: Plot): (q: Plot)
    ensures SameSite(q, p) && q.planted && WellFormed(q)
    ensures q.growthStage == SownStage
  {
    p.(planted := true, growthStage := SownStage)
  }

  /** The plot after its wheat is cut: bare soil again, no growth left over. */
  function Reap(p: Plot): (q: Plot)
    ensures SameSite(q, p) && !q.planted && WellFormed(q)
    ensures q.growthStage == 0
  {
    p.(planted := false, growthStage := 0)
  }

  /** Which tooltip a hovered plot shows; the texts themselves are presentation. */
  datatype HoverLabel = ClickToPlant | Planting | ReadyToHarvest | GrowingAt(stage: int)

  /** The tooltip choice of the hovered plot, tested in the scene's order. */
  function Label(p: Plot): (l: HoverLabel)
    ensures l == ClickToPlant <==> !p.planted
    ensures l == Planting <==> p.planted && p.growthStage == 0
    ensures l == ReadyToHarvest <==> Ripe(p)
  {
    if !p.planted then ClickToPlant
    else if p.growthStage == 0 then Planting
    else if p.growthStage == MaxStage then ReadyToHarvest
    else GrowingAt(p.growthStage)
  }
}
