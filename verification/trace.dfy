/** `traceplot`: the compatibility check on the chains, the bounds of the
    burn-in slider, and the rows the dashboard shows for a burn-in. */
module Trace {
  import opened Wrappers
  import opened Layout
  import opened Plan

  /** One row of a posterior log: the generation index and the likelihood
      plotted against it. */
  datatype LogRow = LogRow(state: int, likelihood: real)

  /** A range input: bounds, step, and the value it starts at. */
  datatype Slider = Slider(min: int, max: int, step: int, init: int)

  /** The dashboard: its burn-in slider and the table it plots. */
  datatype TracePlan = TracePlan(slider: Slider, data: seq<LogRow>)

  function PlanTrace(chains: seq<Chain>, firstLog: seq<LogRow>): (r: Result<TracePlan, Error>)
    ensures r.Success? <==> |chains| > 0 && ShareControl(chains) && |firstLog| >= 2
    ensures |chains| == 0 ==> r == Failure(NoChains)
    ensures |chains| > 0 && !ShareControl(chains) ==> r == Failure(IncompatibleChains)
    ensures |chains| > 0 && ShareControl(chains) && |firstLog| < 2 ==> r == Failure(LogTooShort)
    ensures r.Success? ==> r.value.data == firstLog
    ensures r.Success? ==>
      var last, before := firstLog[|firstLog| - 1].state, firstLog[|firstLog| - 2].state;
      r.value.slider == Slider(0, last, last - before, 0)
  {
    if |chains| == 0 then Failure(NoChains)
    else if |ControlChecksums(chains)| > 1 then
      SingleChecksumIffShared(chains);
      Failure(IncompatibleChains)
    else if |firstLog| < 2 then
      SingleChecksumIffShared(chains);
      Failure(LogTooShort)
    else
      SingleChecksumIffShared(chains);
      var genEnd := firstLog[|firstLog| - 1].state;
      var genStep := genEnd - firstLog[|firstLog| - 2].state;
      Success(TracePlan(Slider(0, genEnd, genStep, 0), firstLog))
  }

  /** The rows at or after generation `burnIn`, in log order. */
  function AtLeast(rows: seq<LogRow>, burnIn: int): (kept: seq<LogRow>)
    ensures |kept| <= |rows|
    ensures forall row :: row in kept <==> row in rows && row.state >= burnIn
  {
    if |rows| == 0 then []
    else (if rows[0].state >= burnIn then [rows[0]] else []) + AtLeast(rows[1..], burnIn)
  }

  /** The filter keeps every copy of a row at or after the burn-in, so the
      histogram counts each such row as often as the log holds it. */
  lemma {:induction false} AtLeastCounts(rows: seq<LogRow>, burnIn: int)
    ensures forall row :: multiset(AtLeast(rows, burnIn))[row] ==
                          if row.state >= burnIn then multiset(rows)[row] else 0
  {
    if |rows| > 0 {
      AtLeastCounts(rows[1..], burnIn);
      assert rows == [rows[0]] + rows[1..];
    }
  }

  /** What the line and the histogram display at a slider position. */
  datatype View = View(line: seq<LogRow>, histogram: seq<LogRow>)

  function ViewAt(plan: TracePlan, burnIn: int): (v: View)
    ensures v.line == v.histogram
    ensures forall row :: row in v.line <==> row in plan.data && row.state >= burnIn
    ensures forall row :: multiset(v.histogram)[row] == if row.state >= burnIn then multiset(plan.data)[row] else 0
  {
    AtLeastCounts(plan.data, burnIn);
    View(AtLeast(plan.data, burnIn), AtLeast(plan.data, burnIn))
  }

  /** A burn-in below every generation hides nothing. */
  lemma {:induction false} AtLeastKeepsAll(rows: seq<LogRow>, burnIn: int)
    requires forall i :: 0 <= i < |rows| ==> rows[i].state >= burnIn
    ensures AtLeast(rows, burnIn) == rows
  {
    if |rows| > 0 {
      AtLeastKeepsAll(rows[1..], burnIn);
      assert rows == [rows[0]] + rows[1..];
    }
  }

  /** Raising the burn-in only hides more rows: applying two burn-ins in turn
      is applying the larger one. */
  lemma {:induction false} AtLeastTwice(rows: seq<LogRow>, a: int, b: int)
    ensures AtLeast(AtLeast(rows, a), b) == AtLeast(rows, if a < b then b else a)
  {
    if |rows| > 0 {
      AtLeastTwice(rows[1..], a, b);
      var head := if rows[0].state >= a then [rows[0]] else [];
      assert AtLeast(rows, a) == head + AtLeast(rows[1..], a);
      AtLeastAppend(head, AtLeast(rows[1..], a), b);
      if head != [] {
        assert head[1..] == [];
        assert AtLeast(head, b) == (if rows[0].state >= b then [rows[0]] else []) + AtLeast([], b);
      }
    }
  }

  lemma {:induction false} AtLeastAppend(xs: seq<LogRow>, ys: seq<LogRow>, b: int)
    ensures AtLeast(xs + ys, b) == AtLeast(xs, b) + AtLeast(ys, b)
  {
    if |xs| > 0 {
      assert (xs + ys)[1..] == xs[1..] + ys;
      AtLeastAppend(xs[1..], ys, b);
    } else {
      assert xs + ys == ys;
    }
  }

  /** The dashboard opens at burn-in 0, so a log of non-negative generations
      is shown in full in both the line and the histogram. */
  lemma InitialViewShowsAll(chains: seq<Chain>, firstLog: seq<LogRow>)
    requires PlanTrace(chains, firstLog).Success?
    requires forall i :: 0 <= i < |firstLog| ==> firstLog[i].state >= 0
    ensures var plan := PlanTrace(chains, firstLog).value;
      ViewAt(plan, plan.slider.init) == View(firstLog, firstLog)
  {
    AtLeastKeepsAll(firstLog, 0);
  }

  /** A log sampled every `every` generations from generation 0. */
  predicate RegularLog(rows: seq<LogRow>, every: int) {
    forall i :: 0 <= i < |rows| ==> rows[i].state == i * every
  }

  lemma MultipleOf(g: int, d: int)
    requires d > 0 && g >= 0 && g % d == 0
    ensures g / d >= 0 && g == (g / d) * d
  {
  }

  lemma MulOrder(i: int, j: int, d: int)
    requires d > 0
    ensures i <= j <==> i * d <= j * d
  {
    if i <= j {
      assert j * d - i * d == (j - i) * d;
    } else {
      assert i * d - j * d == (i - j) * d;
    }
  }

  lemma MulMod(i: int, d: int)
    requires d > 0
    ensures (i * d) % d == 0
  {
    var q, r := (i * d) / d, (i * d) % d;
    assert i * d == q * d + r && 0 <= r < d;
    assert (i - q) * d == r;
    if i - q >= 1 {
      MulOrder(1, i - q, d);
    } else if i - q <= -1 {
      MulOrder(i - q, -1, d);
    }
  }

  /** Every multiple of `every` between 0 and the last generation of a
      regular log is a logged generation. */
  lemma GridPointLogged(rows: seq<LogRow>, every: int, g: int)
    requires every > 0 && |rows| > 0 && RegularLog(rows, every)
    requires 0 <= g <= (|rows| - 1) * every && g % every == 0
    ensures exists i :: 0 <= i < |rows| && rows[i].state == g
  {
    var i := g / every;
    MultipleOf(g, every);
    MulOrder(i, |rows| - 1, every);
    assert rows[i].state == g;
  }

  /** Every logged generation of a regular log is a multiple of `every`
      between 0 and the last generation. */
  lemma LoggedOnGrid(rows: seq<LogRow>, every: int, i: int)
    requires every > 0 && RegularLog(rows, every) && 0 <= i < |rows|
    ensures 0 <= rows[i].state <= (|rows| - 1) * every && rows[i].state % every == 0
  {
    MulOrder(0, i, every);
    MulOrder(i, |rows| - 1, every);
    MulMod(i, every);
  }

  lemma MulSucc(a: int, d: int)
    ensures (a + 1) * d == a * d + d
  {
  }

  /** The multiples of `every` from 0 to the last generation of a regular log
      are exactly its logged generations. */
  lemma GridIffLogged(rows: seq<LogRow>, every: int)
    requires every > 0 && |rows| > 0 && RegularLog(rows, every)
    ensures forall g :: (0 <= g <= (|rows| - 1) * every && g % every == 0) <==>
                        exists i :: 0 <= i < |rows| && rows[i].state == g
  {
    forall g | 0 <= g <= (|rows| - 1) * every && g % every == 0
      ensures exists i :: 0 <= i < |rows| && rows[i].state == g
    {
      GridPointLogged(rows, every, g);
    }
    forall g | exists i :: 0 <= i < |rows| && rows[i].state == g
      ensures 0 <= g <= (|rows| - 1) * every && g % every == 0
    {
      var i :| 0 <= i < |rows| && rows[i].state == g;
      LoggedOnGrid(rows, every, i);
    }
  }

  /** The last two generations of a regular log are `every` apart. */
  lemma RegularTail(rows: seq<LogRow>, every: int)
    requires every > 0 && |rows| >= 2 && RegularLog(rows, every)
    ensures rows[|rows| - 1].state == (|rows| - 1) * every
    ensures rows[|rows| - 1].state - rows[|rows| - 2].state == every
  {
    var n := |rows|;
    assert rows[n - 1].state == (n - 1) * every && rows[n - 2].state == (n - 2) * every;
    MulSucc(n - 2, every);
  }

  /** The slider `PlanTrace` derives from a regular log of `n >= 2` rows. */
  lemma RegularSlider(rows: seq<LogRow>, every: int, s: Slider)
    requires every > 0 && |rows| >= 2 && RegularLog(rows, every)
    requires s == Slider(0, rows[|rows| - 1].state, rows[|rows| - 1].state - rows[|rows| - 2].state, 0)
    ensures s.step == every && s.max == (|rows| - 1) * every
    ensures forall g :: (s.min <= g <= s.max && g % s.step == 0) <==>
                        exists i :: 0 <= i < |rows| && rows[i].state == g
  {
    RegularTail(rows, every);
    GridIffLogged(rows, every);
  }

  /** On a regularly sampled log the slider steps by the sampling interval up
      to the last generation, and its positions are exactly the logged generations. */
  lemma SliderMatchesRegularLog(chains: seq<Chain>, firstLog: seq<LogRow>, every: int)
    requires PlanTrace(chains, firstLog).Success?
    requires every > 0 && RegularLog(firstLog, every)
    ensures var s := PlanTrace(chains, firstLog).value.slider;
      && s.step == every
      && s.max == (|firstLog| - 1) * every
      && forall g :: (s.min <= g <= s.max && g % s.step == 0) <==>
                     exists i :: 0 <= i < |firstLog| && firstLog[i].state == g
  {
    RegularSlider(firstLog, every, PlanTrace(chains, firstLog).value.slider);
  }
}
