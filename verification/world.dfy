/**
 The shared world and one simulated month. The three barriers of a month
 split it into phases: every task first computes its delta from the same
 snapshot (compute barrier), then every task writes its own field (assign
 barrier), then the watcher alone reports, advances the clock, draws new
 weather and recomputes the deer-to-bear ratio (output-and-update barrier).
 Here the phases are three pure functions composed in that order.
 */
module WorldState {
  import opened Calendar
  import opened Rules

  /** The weather of the current month, drawn by the watcher. */
  datatype Weather = Weather(precip: real, temp: real)

  datatype World = World(
    clock: Clock,
    deer: int,
    bears: int,
    height: real,
    weather: Weather,
    ratio: Ratio)

  /** The privately held deltas between the compute and assign barriers. */
  datatype Deltas = Deltas(deer: int, bears: int, height: real)

  /** The state every task may rely on at the top of a month. */
  ghost predicate Inv(w: World) {
    && Valid(w.clock)
    && w.deer >= 0
    && w.bears >= 0
    && w.height >= 0.0
    && w.ratio == DeerToBears(w.deer, w.bears)
  }

  /** Compute phase: each delta reads only the snapshot w. */
  function Compute(w: World, f: Factors): (d: Deltas)
    ensures -2 <= d.deer <= 1
    ensures -1 <= d.bears <= 1
    ensures d.bears == 0 <==> w.bears == w.deer
    ensures d.deer == 0 <== (w.deer as real) == w.height && !Predation(w.ratio)
  {
    Deltas(
      DeerDelta(w.deer, w.height, w.ratio),
      BearDelta(w.bears, w.deer),
      GrainDelta(f, w.weather.temp, w.weather.precip, w.deer))
  }

  /** Assign phase: each task adds its delta to its own field and clamps it.
      The clock, the weather and the ratio are not written here. */
  function Assign(w: World, d: Deltas): (r: World)
    ensures r.deer >= 0 && r.bears >= 0 && r.height >= 0.0
    ensures w.deer + d.deer >= 0 ==> r.deer == w.deer + d.deer
    ensures w.bears + d.bears >= 0 ==> r.bears == w.bears + d.bears
    ensures w.height + d.height >= 0.0 ==> r.height == w.height + d.height
    ensures w.deer + d.deer < 0 ==> r.deer == 0
    ensures w.bears + d.bears < 0 ==> r.bears == 0
    ensures w.height + d.height < 0.0 ==> r.height == 0.0
    ensures r.clock == w.clock && r.weather == w.weather && r.ratio == w.ratio
  {
    w.(deer := ClampCount(w.deer + d.deer),
       bears := ClampCount(w.bears + d.bears),
       height := ClampHeight(w.height + d.height))
  }

  /** Update phase, run by the watcher alone after the assign barrier:
      advance the clock, take the new weather, recompute the ratio from the
      counts that were just assigned. */
  function Update(w: World, next: Weather): (r: World)
    ensures r.deer == w.deer && r.bears == w.bears && r.height == w.height
    ensures r.weather == next
    ensures r.ratio.Unbounded? <==> w.bears <= 0
    ensures r.ratio.Finite? ==> r.ratio.value * (w.bears as real) == w.deer as real
    ensures Valid(w.clock) ==> Valid(r.clock) && AbsoluteMonth(r.clock) == AbsoluteMonth(w.clock) + 1
  {
    w.(clock := Advance(w.clock), weather := next, ratio := DeerToBears(w.deer, w.bears))
  }

  /** One simulated month. */
  function Step(w: World, f: Factors, next: Weather): (r: World)
    ensures r.deer >= 0 && r.bears >= 0 && r.height >= 0.0
    ensures r.ratio == DeerToBears(r.deer, r.bears)
    ensures r.weather == next
    ensures Valid(w.clock) ==> Inv(r)
    ensures Valid(w.clock) ==> AbsoluteMonth(r.clock) == AbsoluteMonth(w.clock) + 1
  {
    Update(Assign(w, Compute(w, f)), next)
  }

  /** Snapshot semantics for the deer: the new deer count depends on the old
      deer count, grain height and ratio, and on nothing else. */
  lemma DeerReadsSnapshot(w1: World, w2: World, f1: Factors, f2: Factors, n1: Weather, n2: Weather)
    requires w1.deer == w2.deer && w1.height == w2.height && w1.ratio == w2.ratio
    ensures Step(w1, f1, n1).deer == Step(w2, f2, n2).deer
  {
  }

  /** Snapshot semantics for the bears: the new bear count depends on the old
      bear and deer counts only, so the bears see the deer count from before
      the deer rule wrote its own update. */
  lemma BearsReadSnapshot(w1: World, w2: World, f1: Factors, f2: Factors, n1: Weather, n2: Weather)
    requires w1.bears == w2.bears && w1.deer == w2.deer
    ensures Step(w1, f1, n1).bears == Step(w2, f2, n2).bears
  {
  }

  /** Snapshot semantics for the grain: the new height depends on the old
      height, deer count and weather, under the same growth responses. */
  lemma GrainReadsSnapshot(w1: World, w2: World, f: Factors, n1: Weather, n2: Weather)
    requires w1.height == w2.height && w1.deer == w2.deer && w1.weather == w2.weather
    ensures Step(w1, f, n1).height == Step(w2, f, n2).height
  {
  }

  /** The bears follow the deer count of the month before: starting from a
      valid world they move one step toward it, or stay when equal. */
  lemma BearsFollowOldDeer(w: World, f: Factors, next: Weather)
    requires Inv(w)
    ensures var b := Step(w, f, next).bears;
            && (w.bears < w.deer ==> b == w.bears + 1)
            && (w.bears > w.deer ==> b == w.bears - 1)
            && (w.bears == w.deer ==> b == w.bears)
  {
  }

  /** Equilibrium: deer matched to the grain and no predation leave the
      deer count unchanged. */
  lemma DeerEquilibrium(w: World, f: Factors, next: Weather)
    requires w.deer >= 0
    requires (w.deer as real) == w.height
    requires !Predation(w.ratio)
    ensures Step(w, f, next).deer == w.deer
  {
  }

  /** Equilibrium in terms of counts: in a valid world with bears present,
      deer matched to the grain and at most two deer per bear stay put. */
  lemma DeerEquilibriumByCounts(w: World, f: Factors, next: Weather)
    requires Inv(w)
    requires (w.deer as real) == w.height
    requires 0 < w.bears && w.deer <= 2 * w.bears
    ensures Step(w, f, next).deer == w.deer
  {
    PredationIff(w.deer, w.bears);
    DeerEquilibrium(w, f, next);
  }

  /** Why the compute barrier matters: had the bears read the deer count
      already written this month, they would have stayed put where the
      snapshot makes them grow. */
  lemma ComputeBarrierMatters()
    ensures var w := World(Clock(FirstYear, 0), 2, 1, 0.0, Weather(0.0, 0.0), DeerToBears(2, 1));
            var f := Factors((t, m) => 0.0, (p, m) => 0.0);
            var r := Step(w, f, w.weather);
            && Inv(w)
            && r.deer == 1
            && r.bears == 2
            && ClampCount(w.bears + BearDelta(w.bears, r.deer)) == 1
  {
  }

  /** With no bears, the ratio is the sentinel and the deer always lose one
      to predation on top of the grain rule. */
  lemma NoBearsMeansPredation(w: World, f: Factors, next: Weather)
    requires Inv(w)
    requires w.bears == 0
    ensures w.ratio.Unbounded?
    ensures Compute(w, f).deer <= 0
  {
  }
}
