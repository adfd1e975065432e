# Low-poly farm: the farm economy as a Dafny model

The farm game keeps three pieces of state inside its `App` component. There is a
wheat counter (starting at 0) and a seed counter (starting at 5). There is also a
fixed 5×5 field of 25 wheat plots, each with an `id`, a `planted` flag and a
`growthStage` from 0 to 3. A single repeating growth timer advances every
planted, unripe plot by one stage per firing. A click on a plot plants it (when
it is empty and a seed is in hand) or harvests it for 3 wheat (when it is ripe);
any other click does nothing. The shop trades 2 wheat for 3 seeds.

This project models that state machine as pure functions over an immutable
`State`:

- `wrappers.dfy`: `Option`, used for lookups.
- `plots.dfy` (module `Plots`): the plot record with its grid column and row, the
  per-plot invariant `WellFormed`, and the per-plot effects of a tick, a sowing
  and a harvest. It also holds the choice of hover tooltip.
- `farm.dfy` (module `Farm`): the constants, the `State`, the invariant `Valid`
  and the transitions. These are grid construction, starting the timer, the
  tick, the click (lookup, outcome and effect) and buying seeds.
- `farm_properties.dfy` (module `FarmProperties`): each click outcome's exact
  effect and frame, the if-and-only-if for an ignored click and the exclusivity
  of planting and harvesting. It also proves that the click agrees with the
  handler's map over the field, that every transition preserves `Valid`, the
  stage reached after n ticks, and the full sow–grow–reap cycle.
- `session.dfy` (module `Session`): the session as a reducer over events. It
  proves the invariant for every sequence of events from a valid running state such as the one after mount, that exactly
  one timer exists, and that the "Planting..." tooltip can never appear.

The timer's handle is modelled as `intervals`, the number of live timers. A
growth-tick event changes the state only while a timer exists. The click is one
atomic transition over the current state. It acts on the first plot carrying
the clicked id. In every valid state the plot with id k sits at index k, so this
is the same plot the handler's map rewrites (`FarmProperties.ClickMatchesMap`).

The hover tooltip has a case for a planted stage-0 plot ("Planting...",
src/App.tsx:353), but the code sows straight into stage 1 (src/App.tsx:662).
The model follows the code, so that case never occurs
(`Session.NeverShowsPlanting`).

## Model

| member | source | states |
|---|---|---|
| Plots.Grow | src/App.tsx:641-646 | one tick advances a planted plot below stage 3 by exactly one stage, leaves every other plot untouched, never changes id, place or `planted`, and keeps a well-formed plot well-formed |
| Plots.Label | src/App.tsx:352-355 | the tooltip is "click to plant" exactly for empty plots, "planting" exactly for planted stage-0 plots, and "ready" exactly for ripe plots |
| Farm.BuildGrid | src/App.tsx:618-632 | the nested column/row loop with a running id yields 25 plots; plot i has id i, column i / 5, row i % 5, is unplanted at stage 0, and the result equals the reference field `InitialPlots` |
| Farm.Initial | src/App.tsx:615-632 | the starting state has 0 wheat, 5 seeds, 25 plots with plot i of id i unplanted at stage 0, no timer yet, and satisfies the session invariant |
| Farm.StartGrowth | src/App.tsx:637-648 | starting the timer leaves counters and field alone; when a timer already exists nothing changes, so from at most one timer the result is exactly one |
| Plots.Sow | src/App.tsx:662 | sowing keeps the plot's id and place and leaves it planted at exactly stage 1, which is well-formed |
| Plots.Reap | src/App.tsx:668 | harvesting keeps the plot's id and place and leaves it unplanted at stage 0, with no growth left over |
| Farm.GrowAll | src/App.tsx:641-646 | the timer's map over the field keeps its length and puts every plot through one growth step, in place |
| Farm.ClickPlot | src/App.tsx:657-671 | the click callback sows an empty plot when seeds are in hand and reaps a ripe plot; it changes the plot (flipping `planted`) if and only if one of those two holds, and otherwise returns it unchanged |
| Farm.Tick | src/App.tsx:640-647 | a tick adds exactly one stage to each planted plot below stage 3 and changes no other plot, no id, place or `planted` flag, and neither counter |
| Farm.Find | src/App.tsx:656-657 | the lookup returns the first index whose plot has the clicked id, and returns nothing exactly when no plot has it |
| Farm.Classify | src/App.tsx:656-672 | a click sows only an empty plot with seeds in hand, reaps only a ripe plot, and is ignored exactly when the id is absent or the found plot is neither |
| Farm.Click | src/App.tsx:655-673 | a click keeps the field's size, every plot's id and place, and the timer; it either changes nothing, spends exactly one seed, or gains exactly three wheat |
| Farm.BuySeeds | src/App.tsx:675-680 | buying changes the state exactly when wheat is at least 2, then takes 2 wheat and gives 3 seeds; the field is untouched and wheat never goes negative |
| FarmProperties.FindInGrid | src/App.tsx:620-624 | in a valid field the plot with id k is at index k, and ids outside 0..24 are not found |
| FarmProperties.ClickPlants | src/App.tsx:659-663 | a click on an empty plot with seeds > 0 takes exactly one seed, makes that plot planted at stage 1, and leaves wheat, the timer and every other plot unchanged |
| FarmProperties.ClickHarvests | src/App.tsx:665-669 | a click on a planted stage-3 plot adds exactly 3 wheat, resets that plot to unplanted stage 0, and leaves seeds, the timer and every other plot unchanged |
| FarmProperties.ClickIgnoredIff | src/App.tsx:657-671 | a click leaves the state unchanged if and only if the id is outside the field, or the plot is neither empty with seeds in hand nor ripe |
| FarmProperties.ClickExactlyOne | src/App.tsx:657-671 | seeds fall exactly when the click sows, wheat rises exactly when it reaps, the state is unchanged exactly when it is ignored, and seeds never fall while wheat rises |
| FarmProperties.ClickMatchesMap | src/App.tsx:655-673 | on a valid field the click equals the handler's map: the plot with the id goes through the per-plot callback and every other plot is kept |
| FarmProperties.TickPreservesValid | src/App.tsx:640-647 | a tick preserves the session invariant |
| FarmProperties.ClickPreservesValid | src/App.tsx:655-673 | a click preserves the session invariant: counters non-negative, ids and places fixed, stages in 0..3 with planted exactly when past stage 0 |
| FarmProperties.BuySeedsPreservesValid | src/App.tsx:675-680 | buying seeds preserves the session invariant, in particular never makes wheat negative |
| FarmProperties.StartGrowthPreservesValid | src/App.tsx:637-638 | starting the timer preserves the invariant, including "at most one timer" |
| FarmProperties.BuyEnabledIff | src/App.tsx:538 | the shop button is enabled exactly when a purchase would change the state |
| FarmProperties.TicksStage | src/App.tsx:640-647 | after n ticks a planted plot is at stage min(stage + n, 3) with everything else about it unchanged, an empty plot is unchanged, and the counters are unchanged |
| FarmProperties.SowGrowReap | src/App.tsx:640-673 | sowing, two ticks and a click harvest the plot; it returns to its original state with one seed turned into 3 wheat, while a click after one tick is ignored |
| Session.Mount | src/App.tsx:650-653 | after mount there are 0 wheat, 5 seeds, exactly one timer, and the invariant holds |
| Session.Step | src/App.tsx:637-680 | ticks change nothing without a timer, a repeated start changes nothing, and no event resizes the field |
| Session.Run | src/App.tsx:615-680 | no sequence of events resizes the field |
| Session.RunPreservesValid | src/App.tsx:615-680 | any sequence of ticks, clicks, purchases and start requests preserves the session invariant |
| Session.RunKeepsTimer | src/App.tsx:637-638 | once one timer exists, no sequence of events removes it or creates a second one |
| Session.ReachableInvariant | src/App.tsx:615-680 | from any valid state with the timer running, as `Session.Mount` produces, every sequence of events leads to non-negative counters, 25 plots with plot i carrying id i, stages in 0..3, planted exactly when past stage 0, and exactly one timer |
| Session.MountedSession | src/App.tsx:615-680 | every state reached from mount by any sequence of events has non-negative counters, 25 plots with valid stages, exactly one timer, and no plot showing "Planting..." |
| Session.NeverShowsPlanting | src/App.tsx:353 | no plot of a state reachable from a valid state (such as the state after mount) shows the "Planting..." tooltip |

## Left out

- The scene components (barn, trees, animals, fences, ground, field, scene) and the overlay panels (score card, instructions, footer): they render state and never change it.
- Per-frame animation, hover state, tooltip texts, stalk colours and heights: presentation, and mostly floating point. Only the tooltip's choice of case is kept, as a datatype.
- The 3D plot positions: they are floats derived from the grid cell (x + 0.5, 0.05, z + 0.5); the model keeps the column and row.
- Real time: the 3000 ms interval is not modelled; a tick is an explicit event.
- React update semantics: the click handler reads the `seeds` it was created with, the seed and wheat setters run inside the field updater (which strict mode may run twice), and updates are batched. The model applies each click atomically to the current state, seed count included.
- Farm.Click: acts on the first plot with the id. The handler's map would act on every plot with that id, but every reachable state has unique ids (`FarmProperties.ClickMatchesMap`).
- Farm.BuySeeds: the purchase handler checks the `wheat` it was created with and then subtracts from the current value, so two purchases through one outdated handler could drive wheat below zero. The model checks and subtracts on the current value, which is what keeps wheat non-negative.
- Counters are unbounded integers. JavaScript numbers hold these integers exactly up to 2^53, which no session reaches.
