/**
 The whole run: the starting state set before the tasks are launched, and
 the loop that every task executes while the year has not passed the last
 year. Each cycle the watcher emits one row between the assign barrier and
 its clock update. The weather draws, which the program takes from a seeded
 random generator, are an arbitrary stream: draw(0) is the draw made before
 the loop starts and draw(k) the one made at the end of cycle k.
 */
module Simulation {
  import opened Calendar
  import opened Rules
  import opened WorldState

  /** One output row: absolute month, weather, grain height and counts. */
  datatype Row = Row(month: int, precip: real, temp: real, height: real, deer: int, bears: int)

  /** The starting state: January of the first year, one deer, one bear,
      one inch of grain, and the first weather draw. */
  function Init(first: Weather): (w: World)
    ensures Inv(w)
    ensures AbsoluteMonth(w.clock) == 1
    ensures !Predation(w.ratio)
  {
    World(Clock(FirstYear, 0), 1, 1, 1.0, first, DeerToBears(1, 1))
  }

  /** The world after n months, each month taking the next weather draw.
      After at least one month the counts and height are non-negative, the
      ratio matches the counts, and the weather is the latest draw. */
  function Iterate(w: World, f: Factors, draw: nat -> Weather, n: nat): (r: World)
    ensures n == 0 ==> r == w
    ensures n > 0 ==> r.deer >= 0 && r.bears >= 0 && r.height >= 0.0
    ensures n > 0 ==> r.ratio == DeerToBears(r.deer, r.bears) && r.weather == draw(n)
  {
    if n == 0 then w else Step(Iterate(w, f, draw, n - 1), f, draw(n))
  }

  /** Every month keeps the invariant. */
  lemma {:induction false} IterateKeepsInv(w: World, f: Factors, draw: nat -> Weather, n: nat)
    requires Inv(w)
    ensures Inv(Iterate(w, f, draw, n))
  {
    if n > 0 {
      IterateKeepsInv(w, f, draw, n - 1);
    }
  }

  /** Each month moves the absolute month by exactly one. */
  lemma {:induction false} IterateAdvancesClock(w: World, f: Factors, draw: nat -> Weather, n: nat)
    requires Valid(w.clock)
    ensures Valid(Iterate(w, f, draw, n).clock)
    ensures AbsoluteMonth(Iterate(w, f, draw, n).clock) == AbsoluteMonth(w.clock) + n
  {
    if n > 0 {
      IterateAdvancesClock(w, f, draw, n - 1);
    }
  }

  /** Month n + 1 is the compute, assign and update phases applied to
      the world after month n. */
  lemma NextMonth(w0: World, f: Factors, draw: nat -> Weather, n: nat)
    ensures var v := Iterate(w0, f, draw, n);
            Iterate(w0, f, draw, n + 1) == Update(Assign(v, Compute(v, f)), draw(n + 1))
  {
  }

  /** After n months from the start the clock is the n+1-th absolute month. */
  lemma {:induction false} ClockAfter(first: Weather, f: Factors, draw: nat -> Weather, n: nat)
    ensures Iterate(Init(first), f, draw, n).clock == FromAbsolute(n + 1)
  {
    var w := Iterate(Init(first), f, draw, n);
    IterateAdvancesClock(Init(first), f, draw, n);
    FromAbsoluteRoundTrip(w.clock);
  }

  /** The row the watcher prints after the assign barrier. Its first column
      identifies the clock, and a valid world prints no negative value. */
  function Report(w: World): (r: Row)
    ensures Valid(w.clock) ==> FromAbsolute(r.month) == w.clock
    ensures Inv(w) ==> r.deer >= 0 && r.bears >= 0 && r.height >= 0.0
  {
    Row(AbsoluteMonth(w.clock), w.weather.precip, w.weather.temp, w.height, w.deer, w.bears)
  }

  /** The row printed in cycle i of a run from w0: the state after that
      cycle's assign phase, before the clock moves. */
  function RowAt(w0: World, f: Factors, draw: nat -> Weather, i: nat): (r: Row)
    ensures r.deer >= 0 && r.bears >= 0 && r.height >= 0.0
  {
    var v := Iterate(w0, f, draw, i);
    Report(Assign(v, Compute(v, f)))
  }

  /** The first n values of g, in order: the log after n cycles. */
  function Prefix<T>(g: nat -> T, n: nat): (s: seq<T>)
    ensures |s| == n
  {
    if n == 0 then [] else Prefix(g, n - 1) + [g(n - 1)]
  }

  lemma {:induction false} PrefixAt<T>(g: nat -> T, n: nat, i: nat)
    requires i < n
    ensures Prefix(g, n)[i] == g(i)
  {
    if i < n - 1 {
      PrefixAt(g, n - 1, i);
    }
  }

  /** Cycle i of a run from the starting state prints absolute month i + 1. */
  lemma {:induction false} RowMonth(first: Weather, f: Factors, draw: nat -> Weather, i: nat)
    ensures RowAt(Init(first), f, draw, i).month == i + 1
  {
    IterateAdvancesClock(Init(first), f, draw, i);
  }

  /** The loop condition, read off the clock after n months, holds exactly
      for the first HorizonMonths months; after them the clock shows January
      of the year after the last. */
  lemma {:induction false} LoopGuard(first: Weather, f: Factors, draw: nat -> Weather, n: nat)
    ensures Iterate(Init(first), f, draw, n).clock.year <= LastYear <==> n < HorizonMonths
    ensures n == HorizonMonths ==> Iterate(Init(first), f, draw, n).clock == Clock(LastYear + 1, 0)
  {
    ClockAfter(first, f, draw, n);
    InHorizon(n + 1);
  }

  /** The run loop. It stops once the year passes the last year, after
      exactly one cycle per month of the simulated years, and prints the
      absolute months 1, 2, ... with no gap and no repeat. */
  method Run(f: Factors, draw: nat -> Weather) returns (last: World, rows: seq<Row>)
    ensures |rows| == HorizonMonths
    ensures forall i :: 0 <= i < |rows| ==> rows[i].month == i + 1
    ensures forall i :: 0 <= i < |rows| ==> rows[i] == RowAt(Init(draw(0)), f, draw, i)
    ensures last == Iterate(Init(draw(0)), f, draw, |rows|)
    ensures last.clock == Clock(LastYear + 1, 0)
    ensures Inv(last)
  {
    ghost var start := Init(draw(0));
    ghost var log := (i: nat) => RowAt(start, f, draw, i);
    var w := Init(draw(0));
    var n: nat := 0;
    rows := [];
    LoopGuard(draw(0), f, draw, n);
    while w.clock.year <= LastYear
      invariant w == Iterate(start, f, draw, n)
      invariant w.clock.year <= LastYear <==> n < HorizonMonths
      invariant n <= HorizonMonths
      invariant |rows| == n
      invariant rows == Prefix(log, n)
      decreases HorizonMonths - n
    {
      NextMonth(start, f, draw, n);
      var written := Assign(w, Compute(w, f));
      assert Report(written) == log(n);
      rows := rows + [Report(written)];
      w := Update(written, draw(n + 1));
      n := n + 1;
      LoopGuard(draw(0), f, draw, n);
    }
    LoopGuard(draw(0), f, draw, n);
    IterateKeepsInv(start, f, draw, n);
    forall i | 0 <= i < |rows|
      ensures rows[i] == RowAt(start, f, draw, i)
      ensures rows[i].month == i + 1
    {
      PrefixAt(log, n, i);
      RowMonth(draw(0), f, draw, i);
    }
    last := w;
  }

  /** The first month from the starting state: grain equals deer and there
      is one deer per bear, so both counts stay at one, the grain moves by
      its delta, which includes the half inch the one deer eats, and the
      clock moves to February. */
  lemma FirstMonth(f: Factors, first: Weather, next: Weather)
    ensures var w := Step(Init(first), f, next);
            && w.clock == Clock(FirstYear, 1)
            && w.deer == 1 && w.bears == 1
            && w.height == ClampHeight(1.0 + GrainDelta(f, first.temp, first.precip, 1))
            && w.ratio == Finite(1.0)
  {
  }
}
