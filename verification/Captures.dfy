/** What the worker captures and what the renderer's front buffer shows of it. */
module Captures {
  import opened Arithmetic
  import opened Wrappers
  import opened PatternGrids
  import opened ScopeTraces

  const U64_MOD: nat := 0x1_0000_0000_0000_0000

  /** A song's grid, twice: the worker's own and the one published under the lock. */
  class Published {
    const grid: PatternGrid
    const front: PatternGrid
    /** Moves whenever the front's cells may have. */
    var cellsRev: nat

    ghost predicate Valid()
      reads this, grid, front, grid.cells, front.cells
    {
      && grid != front && grid.cells != front.cells
      && grid.Valid() && front.Valid()
      && grid.columns == front.columns && grid.channels == front.channels && grid.cells.Length == front.cells.Length
      && front.Shows() == grid.Shows()
      && cellsRev < U64_MOD
    }

    function Shown(): Display
      requires grid.Valid()
      reads grid, grid.cells
    {
      Display(grid.Shows(), grid.key)
    }

    /** Both buffers as a song's layout calls for them. */
    constructor (channels: nat, columns: seq<Column>, rowBudget: nat)
      ensures Valid() && fresh(grid) && fresh(front) && fresh(grid.cells) && fresh(front.cells) && cellsRev == 0
      ensures Shown() == Display(Window(channels * |columns|, 0, 0, []), None)
      ensures grid.columns == columns && grid.channels == channels && grid.cells.Length == rowBudget * (channels * |columns|)
    {
      grid := new PatternGrid(channels, columns, rowBudget);
      front := new PatternGrid(channels, columns, rowBudget);
      cellsRev := 0;
    }

    /** Captures one frame: the front's cells stay the worker's, and are touched only when they changed. */
    method Capture(position: Option<Position>, source: seq<Text>)
      requires Valid()
      modifies this, grid, front, grid.cells, front.cells
      ensures Valid()
      ensures Shown() == Filled(old(Shown()), grid.columns, grid.channels, grid.cells.Length, position, source)
      ensures cellsRev == old(cellsRev) ==> front.Shows() == old(front.Shows())
    {
      var changed := grid.FillFrom(position, source);
      if changed {
        front.CopyFrom(grid);
        CopyKeepsWhatFits(grid.Shows(), front.cells.Length);
        cellsRev := (cellsRev + 1) % U64_MOD;
      }
    }
  }

  /** The trace a channel's samples call for: a flat line for none, else as many vertices as fit. */
  ghost predicate Drawn(points: seq<Point>, samples: seq<real>, capacity: nat) {
    if samples == [] then points == [Point(0.0, 0.0), Point(1.0, 0.0)]
    else |points| == Min(|samples|, capacity) && Traces(points, samples)
  }

  /** Every scope channel's trace, twice: the worker's own and the one published under the lock. */
  class Scopes {
    const worker: seq<ScopeTrace>
    const front: seq<ScopeTrace>

    /** No two traces share their points, and a channel's two have room for as many. */
    ghost predicate Valid()
      reads this, worker, front
    {
      && |worker| == |front|
      && (forall i :: 0 <= i < |worker| ==> worker[i].Valid() && front[i].Valid() && worker[i].points.Length == front[i].points.Length)
      && (forall i, j :: 0 <= i < |worker| && 0 <= j < |front| ==> worker[i] != front[j] && worker[i].points != front[j].points)
      && (forall i, j :: 0 <= i < j < |worker| ==> worker[i] != worker[j] && worker[i].points != worker[j].points)
      && (forall i, j :: 0 <= i < j < |front| ==> front[i] != front[j] && front[i].points != front[j].points)
    }

    ghost function Buffers(traces: seq<ScopeTrace>): set<object> {
      (set t <- traces :: t as object) + (set t <- traces :: t.points as object)
    }

    /** Refills the worker's traces, one a channel; a channel the capture lacks flattens. */
    method Fill(scopes: seq<seq<real>>)
      requires Valid()
      modifies Buffers(worker)
      ensures Valid()
      ensures forall c :: 0 <= c < |worker| ==>
                Drawn(worker[c].Points(), if c < |scopes| then scopes[c] else [], worker[c].points.Length)
    {
      hide Drawn;
      for i := 0 to |worker|
        invariant Valid()
        invariant forall c :: 0 <= c < i ==>
                    Drawn(worker[c].Points(), if c < |scopes| then scopes[c] else [], worker[c].points.Length)
      {
        FillOne(worker[i], if i < |scopes| then scopes[i] else []);
      }
    }

    method FillOne(trace: ScopeTrace, samples: seq<real>)
      requires trace.Valid()
      modifies trace, trace.points
      ensures trace.Valid() && Drawn(trace.Points(), samples, trace.points.Length)
    {
      trace.Fill(samples);
    }

    /** Copies every channel to the front. */
    method Publish()
      requires Valid()
      modifies Buffers(front)
      ensures Valid()
      ensures forall c :: 0 <= c < |worker| ==> worker[c].Points() == old(worker[c].Points())
      ensures forall c :: 0 <= c < |front| ==> front[c].Points() == worker[c].Points()
    {
      for i := 0 to |front|
        invariant Valid()
        invariant forall c :: 0 <= c < |worker| ==> worker[c].Points() == old(worker[c].Points())
        invariant forall c :: 0 <= c < i ==> front[c].Points() == worker[c].Points()
      {
        front[i].CopyFrom(worker[i]);
      }
    }

    /** One capture: every channel of the front shows its samples, as the worker's does. */
    method Capture(scopes: seq<seq<real>>)
      requires Valid()
      modifies Buffers(worker), Buffers(front)
      ensures Valid()
      ensures forall c :: 0 <= c < |front| ==>
                && front[c].Points() == worker[c].Points()
                && Drawn(front[c].Points(), if c < |scopes| then scopes[c] else [], front[c].points.Length)
    {
      hide Drawn;
      Fill(scopes);
      Publish();
    }
  }

  datatype Frame = Frame(position: Option<Position>, source: seq<Text>)

  function AfterFrames(d: Display, columns: seq<Column>, channels: nat, capacity: nat, frames: seq<Frame>): Display {
    if frames == [] then d
    else
      var f := frames[|frames| - 1];
      Filled(AfterFrames(d, columns, channels, capacity, frames[..|frames| - 1]), columns, channels, capacity,
             f.position, f.source)
  }

  /** What a pattern's rows, from one to another, read as. */
  type Texts = (nat, nat, nat) -> seq<Text>

  /** Cells taken from a window are that window's text, if a window's text does not change while it plays. */
  ghost predicate FromItsWindow(d: Display, columns: seq<Column>, channels: nat, capacity: nat, textOf: Texts) {
    match d.key
    case None => true
    case Some((pattern, lo, hi)) => d.window == LoadedWindow(columns, channels, capacity, lo, textOf(pattern, lo, hi))
  }

  /**
   However few captures reload the cells, after any of them the grid shows the rows and the pattern the song is in,
   or nothing.
   */
  lemma {:induction false} GridFollowsTheSong(d: Display, columns: seq<Column>, channels: nat, capacity: nat,
                                              frames: seq<Frame>, textOf: Texts)
    requires FromItsWindow(d, columns, channels, capacity, textOf)
    requires forall f <- frames :: f.position.Some? ==>
               f.source == textOf(f.position.value.pattern, f.position.value.windowLo, f.position.value.windowHi)
    ensures FromItsWindow(AfterFrames(d, columns, channels, capacity, frames), columns, channels, capacity, textOf)
    ensures frames != [] ==>
              var shown := AfterFrames(d, columns, channels, capacity, frames).window;
              match frames[|frames| - 1].position
              case None => shown.rows == 0
              case Some(p) =>
                shown == LoadedWindow(columns, channels, capacity, p.windowLo, textOf(p.pattern, p.windowLo, p.windowHi))
    decreases |frames|
  {
    hide LoadedWindow;
    if frames != [] {
      GridFollowsTheSong(d, columns, channels, capacity, frames[..|frames| - 1], textOf);
    }
  }
}
