/** The peak powder of util/batch_peak_powder.py: a grid of zeros the
    shape of the first frame, set to 1 at every peak position
    (`powder[peaks[:, 0], peaks[:, 1]] = 1`). */
module Grid {
  import opened Common
  import opened Units

  datatype GridError =
    | NoPeaks              // `np.array([])[:, 0]`: an empty peak list is one-dimensional
    | OutOfBounds          // NumPy refuses an index outside the axis

  /** NumPy accepts indices -dim .. dim-1 on an axis of length dim. */
  predicate ValidIndex(i: int, dim: nat)
  {
    -(dim as int) <= i < dim
  }

  /** Negative indices count from the end of the axis. */
  function Wrap(i: int, dim: nat): nat
    requires ValidIndex(i, dim)
  {
    if i < 0 then i + dim else i
  }

  predicate InGrid(p: Peak, rows: nat, cols: nat)
  {
    ValidIndex(p.row, rows) && ValidIndex(p.col, cols)
  }

  predicate AllInGrid(peaks: seq<Peak>, rows: nat, cols: nat)
  {
    forall k :: 0 <= k < |peaks| ==> InGrid(peaks[k], rows, cols)
  }

  /** Peak `p` lands on cell (y, x). */
  predicate Lands(p: Peak, rows: nat, cols: nat, y: int, x: int)
  {
    InGrid(p, rows, cols) && Wrap(p.row, rows) == y && Wrap(p.col, cols) == x
  }

  /** One of the first `n` peaks lands on cell (y, x). */
  predicate Marked(peaks: seq<Peak>, n: nat, rows: nat, cols: nat, y: int, x: int)
    requires n <= |peaks|
  {
    exists k :: 0 <= k < n && Lands(peaks[k], rows, cols, y, x)
  }

  /** The reference grid: 1 exactly at the cells some peak lands on. */
  function Occupancy(rows: nat, cols: nat, peaks: seq<Peak>): seq<seq<int>>
  {
    seq(rows, y requires 0 <= y < rows =>
      seq(cols, x requires 0 <= x < cols => if Marked(peaks, |peaks|, rows, cols, y, x) then 1 else 0))
  }

  /** The powder as a value: the failures NumPy raises, or the occupancy grid. */
  function Powder(rows: nat, cols: nat, peaks: seq<Peak>): Result<seq<seq<int>>, GridError>
  {
    if |peaks| == 0 then Err(NoPeaks)
    else if !AllInGrid(peaks, rows, cols) then Err(OutOfBounds)
    else Ok(Occupancy(rows, cols, peaks))
  }

  /** `np.zeros(shape)` followed by the fancy-index assignment: fails on an
      empty peak list or on any peak outside the grid; otherwise the grid
      has the requested shape and holds 1 exactly where a peak lands. */
  method Scatter(rows: nat, cols: nat, peaks: seq<Peak>) returns (r: Result<seq<seq<int>>, GridError>)
    ensures r.Err? <==> |peaks| == 0 || !AllInGrid(peaks, rows, cols)
    ensures |peaks| == 0 ==> r == Err(NoPeaks)
    ensures r.Ok? ==> |r.value| == rows && forall y :: 0 <= y < rows ==> |r.value[y]| == cols
    ensures r.Ok? ==> forall y, x :: 0 <= y < rows && 0 <= x < cols ==>
      (r.value[y][x] == 1 <==> Marked(peaks, |peaks|, rows, cols, y, x)) &&
      (r.value[y][x] == 0 <==> !Marked(peaks, |peaks|, rows, cols, y, x))
    ensures r.Ok? ==> r.value == Occupancy(rows, cols, peaks)
    ensures r == Powder(rows, cols, peaks)
  {
    if |peaks| == 0 {
      return Err(NoPeaks);
    }
    var k := 0;
    while k < |peaks|
      invariant 0 <= k <= |peaks|
      invariant forall j :: 0 <= j < k ==> InGrid(peaks[j], rows, cols)
    {
      if !InGrid(peaks[k], rows, cols) {
        return Err(OutOfBounds);
      }
      k := k + 1;
    }
    var grid := seq(rows, y => seq(cols, x => 0));
    k := 0;
    while k < |peaks|
      invariant 0 <= k <= |peaks|
      invariant |grid| == rows && forall y :: 0 <= y < rows ==> |grid[y]| == cols
      invariant forall y, x :: 0 <= y < rows && 0 <= x < cols ==>
        grid[y][x] == (if Marked(peaks, k, rows, cols, y, x) then 1 else 0)
    {
      var y0, x0 := Wrap(peaks[k].row, rows), Wrap(peaks[k].col, cols);
      assert Lands(peaks[k], rows, cols, y0, x0);
      grid := grid[y0 := grid[y0][x0 := 1]];
      forall y, x | 0 <= y < rows && 0 <= x < cols
        ensures grid[y][x] == (if Marked(peaks, k + 1, rows, cols, y, x) then 1 else 0)
      {
        if y == y0 && x == x0 {
          assert Marked(peaks, k + 1, rows, cols, y, x);
        } else {
          assert Marked(peaks, k + 1, rows, cols, y, x) == Marked(peaks, k, rows, cols, y, x);
        }
      }
      k := k + 1;
    }
    forall y | 0 <= y < rows
      ensures grid[y] == Occupancy(rows, cols, peaks)[y]
    {
    }
    r := Ok(grid);
  }

  /** The grid depends only on which peaks occur: reordering the peak list
      or repeating peaks in it leaves the grid unchanged. */
  lemma OccupancyIgnoresOrderAndDuplicates(rows: nat, cols: nat, a: seq<Peak>, b: seq<Peak>)
    requires forall p :: p in a <==> p in b
    ensures Occupancy(rows, cols, a) == Occupancy(rows, cols, b)
  {
    forall y, x | 0 <= y < rows && 0 <= x < cols
      ensures Marked(a, |a|, rows, cols, y, x) == Marked(b, |b|, rows, cols, y, x)
    {
      if Marked(a, |a|, rows, cols, y, x) {
        var k :| 0 <= k < |a| && Lands(a[k], rows, cols, y, x);
        assert a[k] in b;
      }
      if Marked(b, |b|, rows, cols, y, x) {
        var k :| 0 <= k < |b| && Lands(b[k], rows, cols, y, x);
        assert b[k] in a;
      }
    }
    forall y | 0 <= y < rows
      ensures Occupancy(rows, cols, a)[y] == Occupancy(rows, cols, b)[y]
    {
    }
  }

  /** The whole outcome, failure or grid, depends only on which peaks
      occur. */
  lemma PowderIgnoresOrderAndDuplicates(rows: nat, cols: nat, a: seq<Peak>, b: seq<Peak>)
    requires forall p :: p in a <==> p in b
    ensures Powder(rows, cols, a) == Powder(rows, cols, b)
  {
    OccupancyIgnoresOrderAndDuplicates(rows, cols, a, b);
    if |a| > 0 {
      assert a[0] in b;
    }
    if |b| > 0 {
      assert b[0] in a;
    }
    if !AllInGrid(a, rows, cols) {
      var k :| 0 <= k < |a| && !InGrid(a[k], rows, cols);
      assert a[k] in b;
    }
    if !AllInGrid(b, rows, cols) {
      var k :| 0 <= k < |b| && !InGrid(b[k], rows, cols);
      assert b[k] in a;
    }
  }
}
