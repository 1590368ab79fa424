/**
  The Mines grid generator: a zero-filled grid into which mines are placed by
  rejection sampling. The random source is a stream of drawn indices.
*/
module MinesGrid {

  /** Number of cells of `s` holding `v`. */
  function Count(s: seq<int>, v: int): nat
  {
    if s == [] then 0 else (if s[0] == v then 1 else 0) + Count(s[1..], v)
  }

  /** Every cell is a gem (0) or a mine (1). */
  predicate Binary(s: seq<int>)
  {
    forall i :: 0 <= i < |s| ==> s[i] == 0 || s[i] == 1
  }

  lemma {:induction false} CountUniform(s: seq<int>, v: int, w: int)
    requires forall i :: 0 <= i < |s| ==> s[i] == v
    requires w != v
    ensures Count(s, v) == |s| && Count(s, w) == 0
  {
    if s != [] {
      CountUniform(s[1..], v, w);
    }
  }

  lemma {:induction false} CountBound(s: seq<int>, v: int)
    ensures Count(s, v) <= |s|
  {
    if s != [] {
      CountBound(s[1..], v);
    }
  }

  /** In a 0/1 grid every cell is counted exactly once, as a gem or as a mine. */
  lemma {:induction false} GemsAndMines(s: seq<int>)
    requires Binary(s)
    ensures Count(s, 0) + Count(s, 1) == |s|
  {
    if s != [] {
      GemsAndMines(s[1..]);
    }
  }

  /** Turning a gem into a mine adds one mine and removes one gem. */
  lemma {:induction false} PlaceOne(s: seq<int>, i: nat)
    requires i < |s| && s[i] == 0
    ensures Count(s[i := 1], 1) == Count(s, 1) + 1
    ensures Count(s[i := 1], 0) == Count(s, 0) - 1
  {
    if i == 0 {
      assert s[i := 1][1..] == s[1..];
    } else {
      PlaceOne(s[1..], i - 1);
      assert s[i := 1][1..] == s[1..][i - 1 := 1];
    }
  }

  /** `Array(gridSize).fill(0)`. */
  function Zeros(n: nat): (z: seq<int>)
    ensures |z| == n && Binary(z)
    ensures Count(z, 1) == 0 && Count(z, 0) == n
  {
    var z := seq(n, _ => 0);
    CountUniform(z, 0, 1);
    z
  }

  /** The grid after the sampling loop, and the mines it still had to place. */
  datatype Layout = Layout(cells: seq<int>, pending: nat)

  /**
    The sampling loop from a given grid with `pending` mines still to place:
    each draw marks its cell when that cell is still a gem and is otherwise
    rejected; the loop stops once no mine is pending (or the stream runs dry).
    A draw outside the grid hits no gem, as an out-of-range read is undefined.
  */
  function Scatter(cells: seq<int>, pending: nat, draws: seq<nat>): (r: Layout)
    decreases |draws|
    ensures |r.cells| == |cells| && r.pending <= pending
  {
    if pending == 0 || draws == [] then Layout(cells, pending)
    else if draws[0] < |cells| && cells[draws[0]] == 0 then
      Scatter(cells[draws[0] := 1], pending - 1, draws[1..])
    else
      Scatter(cells, pending, draws[1..])
  }

  /**
    The loop keeps a 0/1 grid a 0/1 grid, every mine it places turns exactly
    one gem into a mine, and mines placed plus mines pending stay constant.
  */
  lemma {:induction false} ScatterCounts(cells: seq<int>, pending: nat, draws: seq<nat>)
    decreases |draws|
    requires Binary(cells)
    ensures var r := Scatter(cells, pending, draws);
      && Binary(r.cells)
      && Count(r.cells, 1) + r.pending == Count(cells, 1) + pending
      && Count(r.cells, 0) + pending == Count(cells, 0) + r.pending
  {
    if pending != 0 && draws != [] {
      if draws[0] < |cells| && cells[draws[0]] == 0 {
        PlaceOne(cells, draws[0]);
        ScatterCounts(cells[draws[0] := 1], pending - 1, draws[1..]);
      } else {
        ScatterCounts(cells, pending, draws[1..]);
      }
    }
  }

  /** One turn of the sampling loop, reading the draw at position `k`. */
  lemma ScatterStep(cells: seq<int>, pending: nat, draws: seq<nat>, k: nat)
    requires pending > 0 && k < |draws|
    ensures Scatter(cells, pending, draws[k..]) ==
      if draws[k] < |cells| && cells[draws[k]] == 0
      then Scatter(cells[draws[k] := 1], pending - 1, draws[k + 1..])
      else Scatter(cells, pending, draws[k + 1..])
  {
    assert draws[k..][0] == draws[k] && draws[k..][1..] == draws[k + 1..];
  }

  /** The stream holds enough useful draws to place `mineCount` mines in an empty grid. */
  predicate Completes(gridSize: nat, mineCount: nat, draws: seq<nat>)
  {
    Scatter(Zeros(gridSize), mineCount, draws).pending == 0
  }

  /**
    generateMinesGrid: start from an all-gem grid and draw indices until
    `mineCount` cells are mines. `done` is false only when the stream ran out
    first, which is where the source would keep drawing.
  */
  method GenerateMinesGrid(gridSize: nat, mineCount: nat, draws: seq<nat>) returns (grid: seq<int>, done: bool)
    ensures grid == Scatter(Zeros(gridSize), mineCount, draws).cells
    ensures done <==> Completes(gridSize, mineCount, draws)
    ensures |grid| == gridSize && Binary(grid)
    ensures done ==> Count(grid, 1) == mineCount && Count(grid, 0) == gridSize - mineCount
  {
    var cells := new int[gridSize](_ => 0);
    var minesPlaced: nat := 0;
    var k := 0;
    ghost var outcome := Scatter(Zeros(gridSize), mineCount, draws);
    assert cells[..] == Zeros(gridSize);
    while minesPlaced < mineCount && k < |draws|
      invariant k <= |draws| && minesPlaced <= mineCount
      invariant Scatter(cells[..], mineCount - minesPlaced, draws[k..]) == outcome
    {
      var index := draws[k];
      ghost var before := cells[..];
      ScatterStep(before, mineCount - minesPlaced, draws, k);
      if index < cells.Length && cells[index] == 0 {
        cells[index] := 1;
        assert cells[..] == before[index := 1];
        minesPlaced := minesPlaced + 1;
      }
      k := k + 1;
    }
    grid := cells[..];
    done := minesPlaced == mineCount;
    ScatterCounts(Zeros(gridSize), mineCount, draws);
    GemsAndMines(grid);
  }

  /** A stream that completes leaves every later draw unread. */
  lemma {:induction false} LaterDrawsUnread(cells: seq<int>, pending: nat, draws: seq<nat>, later: seq<nat>)
    decreases |draws|
    requires Scatter(cells, pending, draws).pending == 0
    ensures Scatter(cells, pending, draws + later) == Scatter(cells, pending, draws)
  {
    if pending != 0 {
      assert (draws + later)[0] == draws[0];
      assert (draws + later)[1..] == draws[1..] + later;
      if draws[0] < |cells| && cells[draws[0]] == 0 {
        LaterDrawsUnread(cells[draws[0] := 1], pending - 1, draws[1..], later);
      } else {
        LaterDrawsUnread(cells, pending, draws[1..], later);
      }
    }
  }

  /** More mines than cells: no stream ever completes, so the source's loop would never exit. */
  lemma OverfullNeverCompletes(gridSize: nat, mineCount: nat, draws: seq<nat>)
    requires mineCount > gridSize
    ensures !Completes(gridSize, mineCount, draws)
  {
    var r := Scatter(Zeros(gridSize), mineCount, draws);
    ScatterCounts(Zeros(gridSize), mineCount, draws);
    CountBound(r.cells, 1);
  }

  /** `[from, from + 1, ..., from + n - 1]` */
  function Run(from: nat, n: nat): (r: seq<nat>)
    decreases n
    ensures |r| == n && forall i :: 0 <= i < n ==> r[i] == from + i
  {
    if n == 0 then [] else [from] + Run(from + 1, n - 1)
  }

  lemma {:induction false} RunFillsGems(cells: seq<int>, from: nat, n: nat)
    decreases n
    requires from + n <= |cells|
    requires forall i :: from <= i < from + n ==> cells[i] == 0
    ensures Scatter(cells, n, Run(from, n)).pending == 0
  {
    if n > 0 {
      var d := Run(from, n);
      assert d[0] == from && d[1..] == Run(from + 1, n - 1);
      RunFillsGems(cells[from := 1], from + 1, n - 1);
    }
  }

  /** With at most `gridSize` mines some stream completes: the loop can exit, including `mineCount == gridSize`. */
  lemma FittingCanComplete(gridSize: nat, mineCount: nat)
    requires mineCount <= gridSize
    ensures Completes(gridSize, mineCount, Run(0, mineCount))
  {
    RunFillsGems(Zeros(gridSize), 0, mineCount);
  }
}
