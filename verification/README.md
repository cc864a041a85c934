# Deer, bears and grain: a model of the monthly step

The program simulates a small ecosystem month by month from January 2019
to December 2024. Four OpenMP sections run side by side: one owns the deer
count, one the bear count, one the grain height, and a watcher owns the
clock and the weather. Three barriers split every month into phases:

1. each task reads the shared state and computes its delta (compute barrier);
2. each task adds its delta to its own field, clamping at zero (assign barrier);
3. the watcher prints a row, advances the clock, draws new weather and
   recomputes the deer-to-bear ratio (output-and-update barrier).

The three deltas read only the state as it stood before the compute
barrier, and the assign phase writes each field from its own task's delta.
Of the fields other tasks write, the watcher reads only the values assigned
in this month's assign phase; the weather and clock it reads are its own.
The loop test at the top of every task reads the year; only the watcher
writes it, and only before the third barrier, so every task sees the same
year. So one month is a pure function of the state at its start, and the
model states it as such:

- `Calendar` (`calendar.dfy`): the clock, its advance with month wrap-around,
  the absolute-month index printed in the first column, and its inverse.
- `Rules` (`rules.dfy`): the deer-to-bear ratio with its no-bear sentinel,
  the deer, bear and grain deltas, and clamping to zero.
- `WorldState` (`world.dfy`): the world record, the three phases `Compute`,
  `Assign` and `Update`, their composition `Step`, and the invariant it keeps.
- `Simulation` (`simulation.dfy`): the starting state, `Iterate` (n months),
  the printed rows, and the run loop `Run` with its exact cycle count.

The grain and ratio are floats in the program and `real` here. The ratio
with no bears is `FLT_MAX` in the program and `Ratio.Unbounded` here; it
exceeds every threshold, which is all the program uses it for. The growth
responses `TempFactor` and `PrecipFactor` live in `helpers.h`, which is not
part of this model: they are the two function fields of `Rules.Factors`.
The weather values that `UpdateState` draws from a seeded generator are an
arbitrary stream `draw: nat -> Weather`, where `draw(0)` is the draw made in
`main` and `draw(k)` the one made at the end of month k.

## Model

| member | source | states |
|---|---|---|
| Calendar.AbsoluteMonth | Project3/proj3.cpp:229-231 | a valid clock from 2019 on has absolute month at least 1, and one up to 2024 at most 72 |
| Calendar.Advance | Project3/proj3.cpp:191-195 | a valid clock stays valid; the year moves by one exactly when the month was 11, and then the month is 0; the absolute month grows by exactly 1 |
| Calendar.FromAbsolute | Project3/proj3.cpp:229-231 | every integer is the absolute month of some valid clock |
| Calendar.FromAbsoluteRoundTrip | Project3/proj3.cpp:229-231 | a valid clock is recovered from its absolute month, so distinct months print distinct indices |
| Calendar.AbsoluteMonthOrder | Project3/proj3.cpp:229-231 | the absolute month orders valid clocks exactly as (year, month) in lexicographic order |
| Calendar.InHorizon | Project3/proj3.cpp:17-18 | the clock of absolute month n has year at most 2024 exactly when n is at most 72 |
| Rules.DeerToBears | Project3/proj3.cpp:203-209 | the sentinel is chosen exactly when bears are at most 0; otherwise the ratio times the bears gives the deer |
| Rules.PredationIff | Project3/proj3.cpp:117-118 | the ratio exceeds 2 exactly when there are no bears or more than two deer per bear |
| Rules.DeerDelta | Project3/proj3.cpp:107-119 | the delta lies in [-2, 1]; it is +1 exactly when grain exceeds deer and no predation, -2 exactly when deer exceed grain under predation, 0 exactly in the two balanced cases |
| Rules.BearDelta | Project3/proj3.cpp:135-143 | the delta lies in {-1, 0, 1}; it is 0 exactly when bears equal deer, +1 exactly when bears are fewer, and otherwise brings the bears one step closer to the deer |
| Rules.Predation | Project3/proj3.cpp:117 | the no-bear sentinel always triggers predation, and a finite ratio of 2 or less never does |
| Rules.GrainDelta | Project3/proj3.cpp:159-163 | with both growth responses in [0, 1], the grain delta lies between minus half an inch per deer and 8 inches minus that |
| Rules.GrainDeltaPerDeer | Project3/proj3.cpp:163 | each extra deer lowers the grain delta by exactly half an inch |
| Rules.ClampCount | Project3/proj3.cpp:122-124 | the applied count is never negative; it is the unclamped sum when that is non-negative and exactly 0 when it is negative (also the bear update at lines 146-148) |
| Rules.ClampHeight | Project3/proj3.cpp:166-169 | the applied height is never negative; it is the unclamped sum when that is non-negative and exactly 0 when it is negative |
| WorldState.Compute | Project3/proj3.cpp:101-164 | the deer delta is in [-2, 1], the bear delta in {-1, 0, 1} and zero exactly when bears equal deer, and the deer delta is zero at equilibrium |
| WorldState.Assign | Project3/proj3.cpp:122-169 | counts and height are non-negative afterwards, equal the plain sums when those are non-negative and exactly 0 when they are negative, and clock, weather and ratio are untouched |
| WorldState.Update | Project3/proj3.cpp:190-224 | populations and height are untouched, the weather is the new draw, the ratio is recomputed from the assigned counts, and the absolute month grows by one |
| WorldState.Step | Project3/proj3.cpp:101-198 | after a month counts and height are non-negative whatever the start, the ratio agrees with the new counts, and from a valid clock the invariant holds and the absolute month grows by one |
| WorldState.DeerReadsSnapshot | Project3/proj3.cpp:107-122 | the new deer count is determined by the old deer count, grain height and ratio alone |
| WorldState.BearsReadSnapshot | Project3/proj3.cpp:135-146 | the new bear count is determined by the old bear and deer counts alone |
| WorldState.GrainReadsSnapshot | Project3/proj3.cpp:159-166 | the new height is determined by the old height, deer count and weather alone |
| WorldState.BearsFollowOldDeer | Project3/proj3.cpp:135-148 | from a valid world the bears move one step toward the previous month's deer count, or stay when equal |
| WorldState.DeerEquilibrium | Project3/proj3.cpp:107-124 | deer equal to the grain height with the ratio at most 2 leave the deer count unchanged |
| WorldState.DeerEquilibriumByCounts | Project3/proj3.cpp:117-124 | with bears present, deer equal to the grain and at most two deer per bear leave the deer count unchanged |
| WorldState.ComputeBarrierMatters | Project3/proj3.cpp:135-149 | there is a valid world in which bears reading this month's written deer count would end with 1 bear where the snapshot rule gives 2 |
| WorldState.NoBearsMeansPredation | Project3/proj3.cpp:204-205 | with no bears the ratio is the sentinel and the deer delta is never positive |
| Simulation.Init | Project3/proj3.cpp:63-70 | the starting state keeps the invariant, is absolute month 1 and has no predation |
| Simulation.Iterate | Project3/proj3.cpp:176-198 | zero months leave the world as it is; after one or more months the counts and height are non-negative, the ratio matches the counts and the weather is the latest draw |
| Simulation.IterateKeepsInv | Project3/proj3.cpp:176-198 | from a state with a valid clock, non-negative counts and height and a matching ratio, every later month has the same |
| Simulation.IterateAdvancesClock | Project3/proj3.cpp:191-195 | from a valid clock, n months leave the clock valid and move the absolute month by exactly n |
| Simulation.ClockAfter | Project3/proj3.cpp:191-195 | after n months from the start the clock is the clock of absolute month n + 1 |
| Simulation.Report | Project3/proj3.cpp:182-188 | the first printed column identifies the clock of a valid world (the clock of that absolute month is the current one), and a world with non-negative counts and height prints no negative deer, bear or height value |
| Simulation.RowAt | Project3/proj3.cpp:182-188 | every printed row has non-negative deer, bears and height |
| Simulation.RowMonth | Project3/proj3.cpp:182-183 | cycle i prints absolute month i + 1 |
| Simulation.LoopGuard | Project3/proj3.cpp:177 | the loop test holds after exactly the first 72 months, and after 72 months the clock is January 2025 |
| Simulation.Run | Project3/proj3.cpp:176-198 | the loop runs exactly 72 cycles, prints absolute months 1..72 without gap or repeat, each row being that cycle's assigned state, and ends in January 2025 with the invariant intact |
| Simulation.FirstMonth | Project3/proj3.cpp:63-70 | from the starting state, the first month keeps one deer and one bear, moves the clock to February 2019 and the ratio stays 1 |

Notes on the program:

- The deer rule compares the ratio with the literal `2`; the constant
  `DB_EQUILIBRIUM` (line 50) has the same value but is not used.
  `Rules.PredationThreshold` is that value.
- The bear update clamps with `<= 0` (line 147) and the deer update with
  `< 0` (line 123); both give the same result, so both use `Rules.ClampCount`.

## Left out

- The OpenMP sections, `omp_set_num_threads` and the barriers themselves (lines 74-97 and the barrier lines): only the snapshot-then-write order they enforce is modelled, as the composition of `Compute`, `Assign` and `Update`. Deadlock freedom of the barrier protocol is not stated.
- `printf` and the header row (lines 72, 182-188): the row is modelled as a `Simulation.Row` value, and the temperature column is the raw temperature because `FtoC` is defined in `helpers.h`, which is not part of this model.
- The `time(0)` seeds and seed pointers (lines 66, 79-95): the weather draws are the parameter `draw`.
- `Angle`, `Precip`, `Temp`, `TempFactor`, `PrecipFactor` and `FtoC` from `helpers.h`: not part of this model. The growth responses are parameters; the angle is not represented, since it only feeds those functions; the precipitation and temperature constants of lines 39-45 are only passed to them and are not represented.
- IEEE float behaviour of the grain height, the grain delta and the ratio: they are reals, and `FLT_MAX` is the `Unbounded` case rather than a large finite float.
- 32-bit `int` overflow of the counts and the absolute month: counts grow by at most one a month from 1, so over 72 months no value approaches the 32-bit range; integers are unbounded here.
- Rules.GrainDelta: its bound holds only under the stated ranges of the growth responses, which are defined in `helpers.h` and not part of this model.
