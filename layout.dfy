/** `create_layout_and_coordinate_matrix_with_grid`: the rectangles of the crossdock's areas on
    a grid. The top row holds "Docas entrada", "Picking" and "Docas saída" side by side; the
    storage areas fill rows of equal blocks beneath it. Every length is a number of grid units
    times the grid spacing. */
module Layout {
  import opened Wrappers
  import opened Seqs
  import opened Dicts
  import opened Areas
  import opened Numbers

  /** An axis-aligned rectangle: lower-left corner, width and height. */
  datatype Rect = Rect(x: int, y: int, w: int, h: int)

  type AreaRects = Dict<Area, Rect>

  /** The divisors of n among 1..m, increasing. */
  function DivisorsUpTo(n: int, m: int): seq<int>
    decreases m
  {
    if m < 1 then [] else DivisorsUpTo(n, m - 1) + (if n % m == 0 then [m] else [])
  }

  lemma {:induction false} DivisorsUpToMembership(n: int, m: int, d: int)
    ensures d in DivisorsUpTo(n, m) <==> 1 <= d <= m && n % d == 0
    decreases m
  {
    if m >= 1 {
      DivisorsUpToMembership(n, m - 1, d);
    }
  }

  lemma {:induction false} DivisorsUpToIncreasing(n: int, m: int)
    ensures StrictlyIncreasing(DivisorsUpTo(n, m))
    decreases m
  {
    if m >= 1 {
      DivisorsUpToIncreasing(n, m - 1);
      var prev := DivisorsUpTo(n, m - 1);
      forall j | 0 <= j < |prev|
        ensures prev[j] < m
      {
        DivisorsUpToMembership(n, m - 1, prev[j]);
      }
    }
  }

  /** `find_divisors(n)`: the divisors of n in increasing order (none when n < 1). */
  function Divisors(n: int): seq<int>
  {
    DivisorsUpTo(n, n)
  }

  /** The divisors are exactly the d in 1..n that divide n, strictly increasing. */
  lemma DivisorsShape(n: int)
    ensures forall d :: d in Divisors(n) <==> 1 <= d <= n && n % d == 0
    ensures StrictlyIncreasing(Divisors(n))
  {
    forall d
      ensures d in Divisors(n) <==> 1 <= d <= n && n % d == 0
    {
      DivisorsUpToMembership(n, n, d);
    }
    DivisorsUpToIncreasing(n, n);
  }

  /** Width of a storage block in grid units, for a top row w units wide: the second-largest
      divisor of w when w has more than two, otherwise w itself. */
  function BlockUnits(w: int): int
  {
    var ds := Divisors(w);
    if |ds| > 2 then ds[|ds| - 2] else w
  }

  /** The last divisor of a positive number is the number itself. */
  lemma LastDivisor(w: int)
    requires w > 0
    ensures |Divisors(w)| > 0 && Divisors(w)[|Divisors(w)| - 1] == w
  {
    DivisorsShape(w);
    var ds := Divisors(w);
    assert w in ds;
    assert ds[|ds| - 1] in ds;
  }

  /** No divisor lies strictly between two adjacent entries of the divisor list. */
  lemma NoDivisorBetween(w: int, i: nat, d: int)
    requires i + 1 < |Divisors(w)|
    requires Divisors(w)[i] < d < Divisors(w)[i + 1]
    ensures d < 1 || w % d != 0
  {
    DivisorsShape(w);
    assert 1 <= d <= w && w % d == 0 ==> d in Divisors(w);
  }

  /** For a positive width, the block is a divisor of it; when there are more than two
      divisors it is the largest one below the width, otherwise the width itself. */
  lemma BlockUnitsShape(w: int)
    requires w > 0
    ensures 1 <= BlockUnits(w) <= w && w % BlockUnits(w) == 0
    ensures |Divisors(w)| > 2 ==> BlockUnits(w) < w && forall d :: BlockUnits(w) < d < w ==> w % d != 0
    ensures |Divisors(w)| <= 2 ==> BlockUnits(w) == w
  {
    var ds := Divisors(w);
    if |ds| > 2 {
      var last := |ds| - 1;
      LastDivisor(w);
      DivisorsShape(w);
      var b := ds[last - 1];
      assert b in ds;
      assert b < w;
      forall d | b < d < w
        ensures w % d != 0
      {
        NoDivisorBetween(w, last - 1, d);
      }
    }
  }

  lemma BlockUnitsNonZero(w: int)
    requires w != 0
    ensures BlockUnits(w) != 0
  {
    if w > 0 {
      BlockUnitsShape(w);
    } else {
      assert Divisors(w) == [];
    }
  }

  /** `total_fixed_width_units // estoque_width_units`, the storage columns. */
  function Columns(w: int): (r: int)
    requires w != 0
    ensures r >= 1
    ensures r * BlockUnits(w) == w
  {
    var b := BlockUnits(w);
    if w > 0 then
      BlockUnitsShape(w);
      ColumnsOfDivisor(w, b);
      w / b
    else
      assert Divisors(w) == [];
      w / b
  }

  lemma ColumnsOfDivisor(w: int, b: int)
    requires 1 <= b <= w && w % b == 0
    ensures w / b >= 1
    ensures (w / b) * b == w
  {
  }

  /** Storage rows: the storages divided by the columns, rounded up. */
  function Rows(nStorages: nat, cols: int): (r: nat)
    requires cols >= 1
    ensures r * cols >= nStorages
    ensures nStorages > 0 ==> (r - 1) * cols < nStorages
  {
    CeilDiv(nStorages, cols)
  }

  /** Storage idx (counted from 0) at column idx mod cols and row idx div cols, its rows
      counted downward from the top of the storage block. */
  function StorageRect(idx: nat, cols: int, blockWidth: int, h: int, rows: nat, gs: int): Rect
    requires cols >= 1
  {
    var row := idx / cols;
    var col := idx % cols;
    Rect(col * blockWidth, (h * rows - (row + 1) * h) * gs, blockWidth, h * gs)
  }

  function StorageEntries(n: nat, cols: int, blockWidth: int, h: int, rows: nat, gs: int): (r: AreaRects)
    requires cols >= 1
    ensures |r| == n
    ensures forall i :: 0 <= i < n ==> r[i] == (Storage(i + 1), StorageRect(i, cols, blockWidth, h, rows, gs))
  {
    seq(n, i requires 0 <= i < n => (Storage(i + 1), StorageRect(i, cols, blockWidth, h, rows, gs)))
  }

  /** The fixed top row: "Docas entrada" at x = 0, then "Picking", then "Docas saída". */
  function TopRow(nDocks: nat, pickingWidth: int, yDocks: int, gs: int): AreaRects
  {
    var h := nDocks + 1;
    [ (InboundDocks, Rect(0, yDocks, 2 * gs, h * gs)),
      (Picking, Rect(0 + 2 * gs, yDocks, pickingWidth * gs, h * gs)),
      (OutboundDocks, Rect(0 + 2 * gs + pickingWidth * gs, yDocks, 2 * gs, h * gs)) ]
  }

  /** The area rectangles in insertion order. A picking width of -4 makes a top row of width 0,
      whose division fails. */
  function LayoutOf(nStorages: nat, nDocks: nat, pickingWidth: int, gs: int): Result<AreaRects>
  {
    var w := 2 + pickingWidth + 2;
    if w == 0 then Failure(ZeroDivision)
    else
      var cols := Columns(w);
      var h := nDocks + 1;
      var rows := Rows(nStorages, cols);
      var yDocks := (h * rows + h) * gs - h * gs;
      Success(TopRow(nDocks, pickingWidth, yDocks, gs)
              + StorageEntries(nStorages, cols, BlockUnits(w) * gs, h, rows, gs))
  }

  method BuildLayout(nStorages: nat, nDocks: nat, pickingWidth: int, gs: int) returns (r: Result<AreaRects>)
    ensures r == LayoutOf(nStorages, nDocks, pickingWidth, gs)
  {
    var h := nDocks + 1;
    var w := 2 + pickingWidth + 2;
    if w == 0 {
      return Failure(ZeroDivision);
    }
    var block := BlockUnits(w);
    BlockUnitsNonZero(w);
    var cols := w / block;
    assert cols == Columns(w);
    var blockWidth := block * gs;
    var rows := (nStorages + cols - 1) / cols;
    assert rows == Rows(nStorages, cols);
    var plotHeight := (h * rows + h) * gs;
    var yDocks := plotHeight - h * gs;
    var areas: AreaRects := [];
    areas := Put(areas, InboundDocks, Rect(0, yDocks, 2 * gs, h * gs));
    var xPicking := 0 + 2 * gs;
    areas := Put(areas, Picking, Rect(xPicking, yDocks, pickingWidth * gs, h * gs));
    var xOutbound := xPicking + pickingWidth * gs;
    assert HasKey(areas, Picking) <==> areas[0].0 == Picking || areas[1].0 == Picking;
    areas := Put(areas, OutboundDocks, Rect(xOutbound, yDocks, 2 * gs, h * gs));
    ghost var top := areas;
    assert top == TopRow(nDocks, pickingWidth, yDocks, gs);
    for idx := 0 to nStorages
      invariant areas == top + StorageEntries(idx, cols, blockWidth, h, rows, gs)
    {
      var rect := Rect((idx % cols) * blockWidth, (h * rows - (idx / cols + 1) * h) * gs, blockWidth, h * gs);
      StorageKeyFresh(top, StorageEntries(idx, cols, blockWidth, h, rows, gs), idx);
      areas := Put(areas, Storage(idx + 1), rect);
      assert StorageEntries(idx + 1, cols, blockWidth, h, rows, gs)
        == StorageEntries(idx, cols, blockWidth, h, rows, gs) + [(Storage(idx + 1), rect)];
    }
    r := Success(areas);
  }

  lemma StorageKeyFresh(top: AreaRects, entries: AreaRects, idx: nat)
    requires forall i :: 0 <= i < |top| ==> !top[i].0.Storage?
    requires |entries| == idx
    requires forall i :: 0 <= i < idx ==> entries[i].0 == Storage(i + 1)
    ensures !HasKey(top + entries, Storage(idx + 1))
  {
    var d := top + entries;
    forall i | 0 <= i < |d|
      ensures d[i].0 != Storage(idx + 1)
    {
      if i >= |top| {
        assert d[i].0 == entries[i - |top|].0;
      }
    }
  }

  // ---------------------------------------------------------------------------------------
  // Properties of the layout

  /** Two rectangles whose interiors do not overlap. */
  predicate Disjoint(a: Rect, b: Rect)
  {
    a.x + a.w <= b.x || b.x + b.w <= a.x || a.y + a.h <= b.y || b.y + b.h <= a.y
  }

  function Scale(r: Rect, gs: int): Rect
  {
    Rect(r.x * gs, r.y * gs, r.w * gs, r.h * gs)
  }

  function ScaleAll(d: AreaRects, gs: int): (r: AreaRects)
    ensures |r| == |d|
    ensures forall i :: 0 <= i < |d| ==> r[i] == (d[i].0, Scale(d[i].1, gs))
  {
    seq(|d|, i requires 0 <= i < |d| => (d[i].0, Scale(d[i].1, gs)))
  }

  /** Only a top row of zero units fails; otherwise there are exactly the three top-row areas
      followed by "Estoque 1" .. "Estoque n", with no key twice. */
  lemma LayoutKeys(nStorages: nat, nDocks: nat, pickingWidth: int, gs: int)
    ensures LayoutOf(nStorages, nDocks, pickingWidth, gs).Failure? <==> pickingWidth == -4
    ensures pickingWidth != -4 ==>
      var r := LayoutOf(nStorages, nDocks, pickingWidth, gs).value;
      && |r| == nStorages + 3
      && r[0].0 == InboundDocks && r[1].0 == Picking && r[2].0 == OutboundDocks
      && (forall i :: 3 <= i < |r| ==> r[i].0 == Storage(i - 2))
      && DistinctKeys(r)
  {
    if pickingWidth != -4 {
      var r := LayoutOf(nStorages, nDocks, pickingWidth, gs).value;
      forall i, j | 0 <= i < j < |r|
        ensures r[i].0 != r[j].0
      {
        if i >= 3 {
          assert r[i].0 == Storage(i - 2) && r[j].0 == Storage(j - 2);
        }
      }
    }
  }

  /** The top row: the three areas sit side by side from x = 0 at the same height, directly
      above the storage rows, each (docks + 1) units tall, and together span the top-row
      width. */
  lemma LayoutTopRow(nStorages: nat, nDocks: nat, pickingWidth: int, gs: int)
    requires pickingWidth != -4
    ensures var r := LayoutOf(nStorages, nDocks, pickingWidth, gs).value;
      var h := nDocks + 1;
      var rows := Rows(nStorages, Columns(4 + pickingWidth));
      && |r| >= 3
      && r[0].1 == Rect(0, rows * h * gs, 2 * gs, h * gs)
      && r[1].1 == Rect(r[0].1.x + r[0].1.w, r[0].1.y, pickingWidth * gs, h * gs)
      && r[2].1 == Rect(r[1].1.x + r[1].1.w, r[0].1.y, 2 * gs, h * gs)
      && r[2].1.x + r[2].1.w == (4 + pickingWidth) * gs
  {
    var h := nDocks + 1;
    var rows := Rows(nStorages, Columns(4 + pickingWidth));
    assert (h * rows + h) * gs - h * gs == rows * h * gs;
  }

  /** The columns of storage blocks exactly fill the top-row width. */
  lemma ColumnsFill(w: int, gs: int)
    requires w != 0
    ensures Columns(w) * (BlockUnits(w) * gs) == w * gs
  {
    assert Columns(w) * (BlockUnits(w) * gs) == (Columns(w) * BlockUnits(w)) * gs;
  }

  /** A storage's row lies among the rows and its column among the columns. */
  lemma StorageCell(idx: nat, n: nat, cols: int)
    requires cols >= 1 && idx < n
    ensures 0 <= idx / cols < Rows(n, cols)
    ensures 0 <= idx % cols < cols
  {
    var rows := Rows(n, cols);
    if idx / cols >= rows {
      MulMonotone(rows, idx / cols, cols);
    }
  }

  /** A storage block in cell (row, col) lies within the storage region. */
  lemma StorageRectBounds(idx: nat, n: nat, cols: int, b: int, h: nat, gs: int)
    requires cols >= 1 && idx < n && b >= 1 && gs >= 0
    ensures var s := StorageRect(idx, cols, b * gs, h, Rows(n, cols), gs);
      && 0 <= s.x && s.x + s.w <= cols * (b * gs)
      && 0 <= s.y && s.y + s.h <= Rows(n, cols) * h * gs
  {
    var rows := Rows(n, cols);
    var row, col := idx / cols, idx % cols;
    StorageCell(idx, n, cols);
    var bw := b * gs;
    MulNonNegativeInt(b, gs);
    MulNonNegativeInt(col, bw);
    MulMonotone(col + 1, cols, bw);
    assert col * bw + bw == (col + 1) * bw;
    var free := rows - row - 1;
    assert h * rows - (row + 1) * h == free * h;
    MulNonNegativeInt(free, h);
    MulNonNegativeInt(free * h, gs);
    MulMonotone(free * h + h, rows * h, gs);
    assert (free * h) * gs + h * gs == (free * h + h) * gs;
    MulMonotone(free + 1, rows, h);
  }

  /** Every storage block lies within the top-row width and below the top row. */
  lemma LayoutStorageBounds(nStorages: nat, nDocks: nat, pickingWidth: int, gs: int, i: nat)
    requires pickingWidth > -4 && gs >= 0 && i < nStorages
    ensures var r := LayoutOf(nStorages, nDocks, pickingWidth, gs).value;
      var s := r[3 + i].1;
      && 0 <= s.x && s.x + s.w <= (4 + pickingWidth) * gs
      && 0 <= s.y && s.y + s.h <= r[0].1.y
  {
    var w := 4 + pickingWidth;
    LayoutKeys(nStorages, nDocks, pickingWidth, gs);
    LayoutTopRow(nStorages, nDocks, pickingWidth, gs);
    BlockUnitsShape(w);
    ColumnsFill(w, gs);
    StorageRectBounds(i, nStorages, Columns(w), BlockUnits(w), nDocks + 1, gs);
  }

  /** Two different storages occupy different cells, and cells do not overlap. */
  lemma StorageRectsDisjoint(i: nat, j: nat, n: nat, cols: int, b: int, h: nat, gs: int)
    requires cols >= 1 && i < j < n && b >= 1 && h >= 1 && gs > 0
    ensures Disjoint(StorageRect(i, cols, b * gs, h, Rows(n, cols), gs),
                     StorageRect(j, cols, b * gs, h, Rows(n, cols), gs))
  {
    var rows := Rows(n, cols);
    var ri, ci, rj, cj := i / cols, i % cols, j / cols, j % cols;
    DivMonotone(i, j, cols);
    var bw := b * gs;
    if ri == rj {
      assert ci < cj;
      MulMonotone(ci + 1, cj, bw);
      assert ci * bw + bw == (ci + 1) * bw;
    } else {
      MulMonotone(ri + 1, rj, h);
      var top := h * rows - (ri + 1) * h;
      var below := h * rows - (rj + 1) * h;
      assert below + h <= top;
      MulMonotone(below + h, top, gs);
      assert below * gs + h * gs == (below + h) * gs;
    }
  }

  /** Storage blocks do not overlap one another. */
  lemma LayoutStoragesDisjoint(nStorages: nat, nDocks: nat, pickingWidth: int, gs: int, i: nat, j: nat)
    requires pickingWidth > -4 && gs > 0 && i < j < nStorages
    ensures var r := LayoutOf(nStorages, nDocks, pickingWidth, gs).value;
      Disjoint(r[3 + i].1, r[3 + j].1)
  {
    var w := 4 + pickingWidth;
    LayoutKeys(nStorages, nDocks, pickingWidth, gs);
    BlockUnitsShape(w);
    StorageRectsDisjoint(i, j, nStorages, Columns(w), BlockUnits(w), nDocks + 1, gs);
  }

  lemma StorageRectScale(idx: nat, cols: int, b: int, h: int, rows: nat, gs: int)
    requires cols >= 1
    ensures StorageRect(idx, cols, b * gs, h, rows, gs) == Scale(StorageRect(idx, cols, b * 1, h, rows, 1), gs)
  {
    var row, col := idx / cols, idx % cols;
    assert col * (b * gs) == (col * (b * 1)) * gs;
    assert (h * rows - (row + 1) * h) * gs == ((h * rows - (row + 1) * h) * 1) * gs;
  }

  /** The layout for grid spacing gs is the unit layout scaled by gs: every coordinate and
      every size is a multiple of the spacing. */
  lemma LayoutOnGrid(nStorages: nat, nDocks: nat, pickingWidth: int, gs: int)
    requires pickingWidth != -4
    ensures LayoutOf(nStorages, nDocks, pickingWidth, gs).value
      == ScaleAll(LayoutOf(nStorages, nDocks, pickingWidth, 1).value, gs)
  {
    var w := 4 + pickingWidth;
    var cols := Columns(w);
    var h := nDocks + 1;
    var rows := Rows(nStorages, cols);
    var r := LayoutOf(nStorages, nDocks, pickingWidth, gs).value;
    var u := LayoutOf(nStorages, nDocks, pickingWidth, 1).value;
    LayoutKeys(nStorages, nDocks, pickingWidth, gs);
    LayoutKeys(nStorages, nDocks, pickingWidth, 1);
    assert (h * rows + h) * gs - h * gs == ((h * rows + h) * 1 - h * 1) * gs;
    assert (0 + 2 * gs + pickingWidth * gs) == (0 + 2 * 1 + pickingWidth * 1) * gs;
    forall i | 0 <= i < |r|
      ensures r[i] == (u[i].0, Scale(u[i].1, gs))
    {
      if i >= 3 {
        StorageRectScale(i - 3, cols, BlockUnits(w), h, rows, gs);
      }
    }
  }
}
