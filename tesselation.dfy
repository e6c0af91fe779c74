/** Element connectivity of a structured grid of nodes, as computed by
    `Reader.write_geometry` in ifem_to_vt/reader.py: one line, quadrilateral
    or hexahedral element per unit cell of the grid, cells enumerated by
    `itertools.product` over the per-axis ranges, node ids given by numpy's
    row-major `ravel_multi_index`. */
module Tesselation {
  import opened Wrappers

  /** Product of the entries of `s` (1 for the empty sequence). */
  function Prod(s: seq<nat>): nat
  {
    if |s| == 0 then 1 else s[0] * Prod(s[1..])
  }

  /** 2^d, the number of corners of a d-dimensional cell. */
  function Pow2(d: nat): nat
  {
    if d == 0 then 1 else 2 * Pow2(d - 1)
  }

  /** `idx` is a valid multi-index into an array of shape `shape`. */
  predicate InBounds(idx: seq<nat>, shape: seq<nat>)
  {
    |idx| == |shape| && forall k :: 0 <= k < |idx| ==> idx[k] < shape[k]
  }

  /** Row-major flat index of `idx` in an array of shape `shape`
      (numpy's `ravel_multi_index` with the default C order). */
  function Ravel(idx: seq<nat>, shape: seq<nat>): nat
    requires |idx| == |shape|
  {
    if |idx| == 0 then 0 else idx[0] * Prod(shape[1..]) + Ravel(idx[1..], shape[1..])
  }

  /** Strict lexicographic order on multi-indices of equal length. */
  predicate LexLess(a: seq<nat>, b: seq<nat>)
    requires |a| == |b|
  {
    exists k :: 0 <= k < |a| && a[..k] == b[..k] && a[k] < b[k]
  }

  /** The multi-indices of `ts`, each with `i` put in front. */
  function Lift(i: nat, ts: seq<seq<nat>>): (r: seq<seq<nat>>)
    ensures |r| == |ts|
    ensures forall k :: 0 <= k < |ts| ==> r[k] == [i] + ts[k]
  {
    seq(|ts|, k requires 0 <= k < |ts| => [i] + ts[k])
  }

  /** `[0] + t` for every t of `sub`, then `[1] + t`, ..., up to `[n - 1] + t`. */
  function Stack(n: nat, sub: seq<seq<nat>>): seq<seq<nat>>
  {
    if n == 0 then [] else Stack(n - 1, sub) + Lift(n - 1, sub)
  }

  /** Every entry of `Stack(n, sub)` is an entry of `sub` with one index put in front. */
  lemma {:induction false} StackMembers(n: nat, sub: seq<seq<nat>>)
    ensures forall t :: t in Stack(n, sub) ==> |t| > 0 && t[1..] in sub
  {
    if n > 0 {
      StackMembers(n - 1, sub);
      var l := Lift(n - 1, sub);
      forall t | t in l ensures |t| > 0 && t[1..] in sub {
        var k :| 0 <= k < |l| && l[k] == t;
        assert t[1..] == sub[k];
      }
    }
  }

  /** All multi-indices below `dims`, in the order of `itertools.product(range(dims[0]), ...)`:
      nested loops, last axis innermost. */
  function Tuples(dims: seq<nat>): (r: seq<seq<nat>>)
    ensures forall t :: t in r ==> |t| == |dims|
  {
    if |dims| == 0 then [[]]
    else
      StackMembers(dims[0], Tuples(dims[1..]));
      Stack(dims[0], Tuples(dims[1..]))
  }

  /** Number of cells along each axis: `range(k - 1)` is empty when k <= 1. */
  function CellDims(grid: seq<nat>): (c: seq<nat>)
    ensures |c| == |grid|
    ensures forall k :: 0 <= k < |grid| ==> c[k] + 1 == grid[k] || (grid[k] == 0 && c[k] == 0)
  {
    seq(|grid|, k requires 0 <= k < |grid| => if grid[k] == 0 then 0 else grid[k] - 1)
  }

  /** The node ids of the cell whose lowest corner is `c`, in the column
      order of `eidxs`: a line is (i, i+1); a quadrilateral goes
      (i,j), (i+1,j), (i+1,j+1), (i,j+1); a hexahedron is that bottom face
      followed by the same face one step up the last axis. With more than
      three axes no branch fills `eidxs`, so its row stays zero. */
  function Vertices(c: seq<nat>, grid: seq<nat>): seq<nat>
    requires |c| == |grid|
  {
    if |c| == 1 then
      [c[0], c[0] + 1]
    else if |c| == 2 then
      var i, j := c[0], c[1];
      [Ravel([i, j], grid), Ravel([i + 1, j], grid), Ravel([i + 1, j + 1], grid), Ravel([i, j + 1], grid)]
    else if |c| == 3 then
      var i, j, k := c[0], c[1], c[2];
      [Ravel([i, j, k], grid), Ravel([i + 1, j, k], grid),
       Ravel([i + 1, j + 1, k], grid), Ravel([i, j + 1, k], grid),
       Ravel([i, j, k + 1], grid), Ravel([i + 1, j, k + 1], grid),
       Ravel([i + 1, j + 1, k + 1], grid), Ravel([i, j + 1, k + 1], grid)]
    else
      seq(Pow2(|c|), _ => 0)
  }

  datatype TesselationError = DegenerateGrid

  /** True when the grid has no axis or an axis with fewer than two nodes:
      then `product(*ranges)` is empty, `nidxs` is empty and `nidxs[0]` raises. */
  predicate Degenerate(grid: seq<nat>)
  {
    |grid| == 0 || exists k :: 0 <= k < |grid| && grid[k] < 2
  }

  /** The element array `eidxs` for a node grid of shape `grid`, one row per cell. */
  function Connectivity(grid: seq<nat>): Result<seq<seq<nat>>, TesselationError>
  {
    if Degenerate(grid) then Err(DegenerateGrid)
    else Ok(Rows(Tuples(CellDims(grid)), grid))
  }

  /** One row of `eidxs` per cell, in the order the cells are given. */
  function Rows(cells: seq<seq<nat>>, grid: seq<nat>): seq<seq<nat>>
    requires forall k :: 0 <= k < |cells| ==> |cells[k]| == |grid|
  {
    if |cells| == 0 then []
    else Rows(cells[..|cells| - 1], grid) + [Vertices(cells[|cells| - 1], grid)]
  }

  lemma {:induction false} RowsAt(cells: seq<seq<nat>>, grid: seq<nat>)
    requires forall k :: 0 <= k < |cells| ==> |cells[k]| == |grid|
    ensures |Rows(cells, grid)| == |cells|
    ensures forall r :: 0 <= r < |cells| ==> Rows(cells, grid)[r] == Vertices(cells[r], grid)
  {
    if |cells| > 0 {
      RowsAt(cells[..|cells| - 1], grid);
    }
  }

  // ---------------------------------------------------------------------
  // The cell enumeration: how many cells, where each one lies, in what order

  lemma {:induction false} StackSize(n: nat, sub: seq<seq<nat>>)
    ensures |Stack(n, sub)| == n * |sub|
  {
    if n > 0 {
      StackSize(n - 1, sub);
      assert |Stack(n, sub)| == (n - 1) * |sub| + |sub|;
    }
  }

  /** Entry r of `Stack(n, sub)` is `[i] + sub[k]` where r == i * |sub| + k. */
  lemma {:induction false} StackAt(n: nat, sub: seq<seq<nat>>, r: nat) returns (i: nat, k: nat)
    requires r < n * |sub|
    ensures i < n && k < |sub| && r == i * |sub| + k
    ensures |Stack(n, sub)| == n * |sub| && Stack(n, sub)[r] == [i] + sub[k]
  {
    StackSize(n, sub);
    StackSize(n - 1, sub);
    var prev := Stack(n - 1, sub);
    assert Stack(n, sub) == prev + Lift(n - 1, sub);
    if r < |prev| {
      i, k := StackAt(n - 1, sub, r);
    } else {
      i, k := n - 1, r - |prev|;
    }
  }

  lemma {:induction false} TuplesSize(dims: seq<nat>)
    ensures |Tuples(dims)| == Prod(dims)
  {
    if |dims| > 0 {
      TuplesSize(dims[1..]);
      StackSize(dims[0], Tuples(dims[1..]));
    }
  }

  /** The r-th multi-index produced lies inside `dims` and has row-major index r:
      the enumeration is exactly the row-major (lexicographic) order. */
  lemma {:induction false} TuplesAt(dims: seq<nat>, r: nat)
    requires r < Prod(dims)
    ensures |Tuples(dims)| == Prod(dims)
    ensures InBounds(Tuples(dims)[r], dims) && Ravel(Tuples(dims)[r], dims) == r
  {
    TuplesSize(dims);
    if |dims| > 0 {
      var sub := Tuples(dims[1..]);
      TuplesSize(dims[1..]);
      var i, k := StackAt(dims[0], sub, r);
      TuplesAt(dims[1..], k);
      var t := Tuples(dims)[r];
      assert t == [i] + sub[k];
      assert t[1..] == sub[k];
    }
  }

  lemma MulMono(a: nat, b: nat, c: nat)
    requires a <= b
    ensures a * c <= b * c
  {
  }

  /** A multi-index inside `shape` has a flat index inside the array. */
  lemma {:induction false} RavelBelow(idx: seq<nat>, shape: seq<nat>)
    requires InBounds(idx, shape)
    ensures Ravel(idx, shape) < Prod(shape)
  {
    if |idx| > 0 {
      var p := Prod(shape[1..]);
      RavelBelow(idx[1..], shape[1..]);
      MulMono(idx[0] + 1, shape[0], p);
      assert Ravel(idx, shape) < (idx[0] + 1) * p;
    }
  }

  /** Comparing two flat indices compares their leading entries first. */
  lemma HeadOrder(x0: nat, y0: nat, rx: nat, ry: nat, p: nat)
    requires rx < p && ry < p
    requires x0 * p + rx < y0 * p + ry
    ensures x0 <= y0 && (x0 == y0 ==> rx < ry)
  {
    if x0 > y0 {
      assert (y0 + 1) * p == y0 * p + p;
      MulMono(y0 + 1, x0, p);
    }
  }

  /** Row-major order agrees with lexicographic order. */
  lemma {:induction false} RavelLess(a: seq<nat>, b: seq<nat>, shape: seq<nat>)
    requires InBounds(a, shape) && InBounds(b, shape)
    requires Ravel(a, shape) < Ravel(b, shape)
    ensures LexLess(a, b)
  {
    RavelBelow(a[1..], shape[1..]);
    RavelBelow(b[1..], shape[1..]);
    HeadOrder(a[0], b[0], Ravel(a[1..], shape[1..]), Ravel(b[1..], shape[1..]), Prod(shape[1..]));
    if a[0] < b[0] {
      assert a[..0] == b[..0];
    } else {
      RavelLess(a[1..], b[1..], shape[1..]);
      var k :| 0 <= k < |a| - 1 && a[1..][..k] == b[1..][..k] && a[1..][k] < b[1..][k];
      assert a[..k + 1] == [a[0]] + a[1..][..k];
      assert b[..k + 1] == [b[0]] + b[1..][..k];
    }
  }

  /** `product(*ranges)` yields its multi-indices in strictly increasing lexicographic order. */
  lemma TuplesLexOrdered(dims: seq<nat>, r: nat, s: nat)
    requires r < s < Prod(dims)
    ensures |Tuples(dims)| == Prod(dims)
    ensures |Tuples(dims)[r]| == |Tuples(dims)[s]| == |dims|
    ensures LexLess(Tuples(dims)[r], Tuples(dims)[s])
  {
    TuplesSize(dims);
    TuplesAt(dims, r);
    TuplesAt(dims, s);
    RavelLess(Tuples(dims)[r], Tuples(dims)[s], dims);
  }

  // ---------------------------------------------------------------------
  // The element array

  lemma {:induction false} ProdPositive(s: seq<nat>)
    requires forall k :: 0 <= k < |s| ==> s[k] > 0
    ensures Prod(s) > 0
  {
    if |s| > 0 {
      ProdPositive(s[1..]);
    }
  }

  lemma Ravel2(a: nat, c: nat, grid: seq<nat>)
    requires |grid| == 2
    ensures Ravel([a, c], grid) == a * grid[1] + c
  {
    assert [a, c][1..] == [c];
    assert [c][1..] == [];
    assert grid[1..][1..] == [];
    assert Prod(grid[1..][1..]) == 1;
    assert Prod(grid[1..]) == grid[1];
    assert Ravel([c], grid[1..]) == c;
  }

  lemma Ravel3(a: nat, c: nat, e: nat, grid: seq<nat>)
    requires |grid| == 3
    ensures Ravel([a, c, e], grid) == a * (grid[1] * grid[2]) + c * grid[2] + e
  {
    assert [a, c, e][1..] == [c, e];
    assert grid[1..][1..] == [grid[2]];
    Ravel2(c, e, grid[1..]);
    assert Prod(grid[2..]) == grid[2];
    assert Prod(grid[1..]) == grid[1] * grid[2];
  }

  lemma Corner2Below(a: nat, c: nat, grid: seq<nat>)
    requires |grid| == 2 && a < grid[0] && c < grid[1]
    ensures Ravel([a, c], grid) < Prod(grid)
  {
    RavelBelow([a, c], grid);
  }

  lemma Corner3Below(a: nat, c: nat, e: nat, grid: seq<nat>)
    requires |grid| == 3 && a < grid[0] && c < grid[1] && e < grid[2]
    ensures Ravel([a, c, e], grid) < Prod(grid)
  {
    RavelBelow([a, c, e], grid);
  }

  lemma Element2Bounds(i: nat, j: nat, grid: seq<nat>)
    requires |grid| == 2 && i + 1 < grid[0] && j + 1 < grid[1]
    ensures forall v :: 0 <= v < 4 ==> Vertices([i, j], grid)[v] < Prod(grid)
  {
    Corner2Below(i, j, grid);
    Corner2Below(i + 1, j, grid);
    Corner2Below(i + 1, j + 1, grid);
    Corner2Below(i, j + 1, grid);
  }

  lemma Element3Bounds(i: nat, j: nat, k: nat, grid: seq<nat>)
    requires |grid| == 3 && i + 1 < grid[0] && j + 1 < grid[1] && k + 1 < grid[2]
    ensures forall v :: 0 <= v < 8 ==> Vertices([i, j, k], grid)[v] < Prod(grid)
  {
    Corner3Below(i, j, k, grid);
    Corner3Below(i + 1, j, k, grid);
    Corner3Below(i + 1, j + 1, k, grid);
    Corner3Below(i, j + 1, k, grid);
    Corner3Below(i, j, k + 1, grid);
    Corner3Below(i + 1, j, k + 1, grid);
    Corner3Below(i + 1, j + 1, k + 1, grid);
    Corner3Below(i, j + 1, k + 1, grid);
  }

  /** The corners of one cell: 2^d of them, each a valid node id. */
  lemma ElementBounds(c: seq<nat>, grid: seq<nat>)
    requires !Degenerate(grid) && InBounds(c, CellDims(grid))
    ensures |Vertices(c, grid)| == Pow2(|grid|)
    ensures forall v :: 0 <= v < |Vertices(c, grid)| ==> Vertices(c, grid)[v] < Prod(grid)
  {
    ProdPositive(grid);
    var cd := CellDims(grid);
    if |c| == 1 {
      assert Prod(grid) == grid[0];
    } else if |c| == 2 {
      assert c == [c[0], c[1]];
      assert c[0] < cd[0] && c[1] < cd[1];
      Element2Bounds(c[0], c[1], grid);
    } else if |c| == 3 {
      assert c == [c[0], c[1], c[2]];
      assert c[0] < cd[0] && c[1] < cd[1] && c[2] < cd[2];
      Element3Bounds(c[0], c[1], c[2], grid);
    }
  }

  /** The grid is split into prod(n_i - 1) elements of 2^d nodes each, and every node id
      is a valid index into the flattened node array (whose length is prod(n_i)). */
  lemma ConnectivityShape(grid: seq<nat>)
    requires Connectivity(grid).Ok?
    ensures |Connectivity(grid).value| == Prod(CellDims(grid))
    ensures forall r :: 0 <= r < |Connectivity(grid).value| ==>
              |Connectivity(grid).value[r]| == Pow2(|grid|)
    ensures forall r, v :: 0 <= r < |Connectivity(grid).value| && 0 <= v < |Connectivity(grid).value[r]| ==>
              Connectivity(grid).value[r][v] < Prod(grid)
  {
    var es := Connectivity(grid).value;
    var cd := CellDims(grid);
    TuplesSize(cd);
    RowsAt(Tuples(cd), grid);
    forall r | 0 <= r < |es|
      ensures |es[r]| == Pow2(|grid|)
      ensures forall v :: 0 <= v < |es[r]| ==> es[r][v] < Prod(grid)
    {
      TuplesAt(cd, r);
      ElementBounds(Tuples(cd)[r], grid);
    }
  }

  /** Row r of the element array belongs to the cell whose row-major index among
      all cells is r; so elements come in lexicographic (i, j, k) order and every
      cell of the grid gets exactly one element. */
  lemma ConnectivityRows(grid: seq<nat>, r: nat)
    requires Connectivity(grid).Ok?
    requires r < |Connectivity(grid).value|
    ensures |Tuples(CellDims(grid))| == |Connectivity(grid).value|
    ensures var c := Tuples(CellDims(grid))[r];
            InBounds(c, CellDims(grid)) && Ravel(c, CellDims(grid)) == r &&
            Connectivity(grid).value[r] == Vertices(c, grid)
  {
    TuplesSize(CellDims(grid));
    RowsAt(Tuples(CellDims(grid)), grid);
    TuplesAt(CellDims(grid), r);
  }

  /** The row-major ids of a quadrilateral on an n1 x n2 grid: stepping i moves by n2,
      stepping j by one; the corners go (i,j), (i+1,j), (i+1,j+1), (i,j+1). */
  lemma QuadIds(i: nat, j: nat, grid: seq<nat>)
    requires |grid| == 2
    ensures var b := i * grid[1] + j;
            Vertices([i, j], grid) == [b, b + grid[1], b + grid[1] + 1, b + 1]
  {
    Ravel2(i, j, grid);
    Ravel2(i + 1, j, grid);
    Ravel2(i + 1, j + 1, grid);
    Ravel2(i, j + 1, grid);
    assert (i + 1) * grid[1] == i * grid[1] + grid[1];
  }

  /** The row-major ids of a hexahedron on an n1 x n2 x n3 grid: the bottom face
      (k fixed) in quadrilateral order, then the top face, each id one more than
      the bottom id below it. */
  lemma HexIds(i: nat, j: nat, k: nat, grid: seq<nat>)
    requires |grid| == 3
    ensures var n3, s := grid[2], grid[1] * grid[2];
            var b := i * s + j * n3 + k;
            var bottom := [b, b + s, b + s + n3, b + n3];
            Vertices([i, j, k], grid) == bottom + seq(4, v requires 0 <= v < 4 => bottom[v] + 1)
  {
    var n3, s := grid[2], grid[1] * grid[2];
    Ravel3(i, j, k, grid);
    Ravel3(i + 1, j, k, grid);
    Ravel3(i + 1, j + 1, k, grid);
    Ravel3(i, j + 1, k, grid);
    Ravel3(i, j, k + 1, grid);
    Ravel3(i + 1, j, k + 1, grid);
    Ravel3(i + 1, j + 1, k + 1, grid);
    Ravel3(i, j + 1, k + 1, grid);
    assert (i + 1) * s == i * s + s;
    assert (j + 1) * n3 == j * n3 + n3;
  }
}
