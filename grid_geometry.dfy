/** Row-major geometry of a square grid of width w: cell (r, c) has index
    r * w + c, so index k lies in row k / w and column k % w. */
module GridGeometry {

  function Min(x: int, y: int): int { if x <= y then x else y }

  function Max(x: int, y: int): int { if x <= y then y else x }

  /** The index of the cell in row r and column c. */
  function Cell(r: int, c: int, w: int): int { r * w + c }

  /** The indices lo, lo + 1, ..., hi - 1, added one after another as the
      range loop of a shift-click does. */
  function Span(lo: int, hi: int): (s: set<int>)
    ensures forall k :: k in s <==> lo <= k < hi
    decreases hi - lo
  {
    if hi <= lo then {} else Span(lo, hi - 1) + {hi - 1}
  }

  /** The cells of rows r0 <= r < r1 and columns c0 <= c < c1. */
  function Cells(r0: int, r1: int, c0: int, c1: int, w: int): set<int>
  {
    set r, c | r0 <= r < r1 && c0 <= c < c1 :: Cell(r, c, w)
  }

  /** Shift-click selection: every index from the smaller of a and i to the larger. */
  function Range(a: int, i: int): (s: set<int>)
    ensures forall k :: k in s <==> Min(a, i) <= k <= Max(a, i)
  {
    Span(Min(a, i), Max(a, i) + 1)
  }

  /** Alt-click selection: the cells whose row lies between the rows of a and i
      and whose column lies between their columns. */
  function Rectangle(a: int, i: int, w: int): (s: set<int>)
    requires w > 0
    ensures forall k :: k in s <==>
      Min(a / w, i / w) <= k / w <= Max(a / w, i / w) &&
      Min(a % w, i % w) <= k % w <= Max(a % w, i % w)
  {
    var r0, r1 := Min(a / w, i / w), Max(a / w, i / w) + 1;
    var c0, c1 := Min(a % w, i % w), Max(a % w, i % w) + 1;
    CellsMembership(r0, r1, c0, c1, w);
    Cells(r0, r1, c0, c1, w)
  }

  /** A positive multiple of w is at least w. */
  lemma MultipleAtLeast(d: int, w: int)
    requires d >= 1 && w > 0
    ensures d * w >= w
  {
  }

  /** A cell index determines its row and column. */
  lemma CellRowColumn(r: int, c: int, w: int)
    requires w > 0 && 0 <= c < w
    ensures Cell(r, c, w) / w == r && Cell(r, c, w) % w == c
  {
    var k := Cell(r, c, w);
    var q, m := k / w, k % w;
    assert k == q * w + m;
    var d := q - r;
    assert d * w == c - m by {
      assert d * w == q * w - r * w;
    }
    if d >= 1 {
      MultipleAtLeast(d, w);
    } else if d <= -1 {
      MultipleAtLeast(-d, w);
    }
  }

  /** Every index is the cell of its row and column. */
  lemma IndexIsCell(k: int, w: int)
    requires w > 0
    ensures Cell(k / w, k % w, w) == k
  {
  }

  /** A row and column inside a grid of width w give an index inside it. */
  lemma CellInGrid(r: int, c: int, w: int)
    requires 0 <= r < w && 0 <= c < w
    ensures 0 <= Cell(r, c, w) < w * w
  {
    assert r * w <= (w - 1) * w by {
      if r < w - 1 {
        MultipleAtLeast(w - 1 - r, w);
        assert (w - 1) * w - r * w == (w - 1 - r) * w;
      }
    }
    assert (w - 1) * w == w * w - w;
  }

  /** An index inside a grid of width w lies in one of its w rows. */
  lemma RowInGrid(k: int, w: int)
    requires w > 0 && 0 <= k < w * w
    ensures 0 <= k / w < w
  {
  }

  /** Extending the column range of one row by one column adds that one cell. */
  lemma CellsAddColumn(r: int, c0: int, c: int, w: int)
    requires c0 <= c
    ensures Cells(r, r + 1, c0, c + 1, w) == Cells(r, r + 1, c0, c, w) + {Cell(r, c, w)}
  {
  }

  /** Extending the row range by one row adds that row's cells. */
  lemma CellsAddRow(r0: int, r: int, c0: int, c1: int, w: int)
    requires r0 <= r
    ensures Cells(r0, r + 1, c0, c1, w) == Cells(r0, r, c0, c1, w) + Cells(r, r + 1, c0, c1, w)
  {
  }

  /** Membership in a block of cells by row and column: k is one of the cells
      of rows [r0, r1) and columns [c0, c1) exactly when its row and its column
      lie in those ranges. */
  lemma CellsMembership(r0: int, r1: int, c0: int, c1: int, w: int)
    requires w > 0 && 0 <= c0 && c1 <= w
    ensures forall k :: k in Cells(r0, r1, c0, c1, w) <==> r0 <= k / w < r1 && c0 <= k % w < c1
  {
    forall k
      ensures k in Cells(r0, r1, c0, c1, w) <==> r0 <= k / w < r1 && c0 <= k % w < c1
    {
      if k in Cells(r0, r1, c0, c1, w) {
        var r, c :| r0 <= r < r1 && c0 <= c < c1 && k == Cell(r, c, w);
        CellRowColumn(r, c, w);
      }
      if r0 <= k / w < r1 && c0 <= k % w < c1 {
        IndexIsCell(k, w);
        assert k == Cell(k / w, k % w, w);
      }
    }
  }

  /** The rectangle between two cells of a grid of width w stays inside it. */
  lemma RectangleInGrid(a: int, i: int, w: int)
    requires w > 0
    requires 0 <= a < w * w && 0 <= i < w * w
    ensures forall k :: k in Rectangle(a, i, w) ==> 0 <= k < w * w
  {
    RowInGrid(a, w);
    RowInGrid(i, w);
    forall k | k in Rectangle(a, i, w)
      ensures 0 <= k < w * w
    {
      IndexIsCell(k, w);
      CellInGrid(k / w, k % w, w);
    }
  }

  /** Within one row, the rectangle and the range between two cells agree. */
  lemma RectangleInOneRow(a: int, i: int, w: int)
    requires w > 0
    requires a / w == i / w
    ensures Rectangle(a, i, w) == Range(a, i)
  {
    var row := a / w;
    var base := row * w;
    assert a == base + a % w && i == base + i % w by {
      IndexIsCell(a, w);
      IndexIsCell(i, w);
    }
    forall k
      ensures k in Rectangle(a, i, w) <==> k in Range(a, i)
    {
      if k in Range(a, i) {
        CellRowColumn(row, k - base, w);
      }
      if k in Rectangle(a, i, w) {
        IndexIsCell(k, w);
      }
    }
  }

  /** A span of indices has as many elements as its length. */
  lemma {:induction false} SpanSize(lo: int, hi: int)
    requires lo <= hi
    ensures |Span(lo, hi)| == hi - lo
    decreases hi - lo
  {
    if lo < hi {
      SpanSize(lo, hi - 1);
      assert hi - 1 !in Span(lo, hi - 1);
    }
  }

  /** A set of indices of a grid of n cells has at most n elements. */
  lemma IndicesWithin(s: set<int>, n: nat)
    ensures (forall k :: k in s ==> 0 <= k < n) ==> |s| <= n
  {
    if forall k :: k in s ==> 0 <= k < n {
      var all := Span(0, n);
      SpanSize(0, n);
      assert all == s + (all - s);
      assert s * (all - s) == {};
    }
  }

  /** Shift-click selects max - min + 1 indices. */
  lemma RangeSize(a: int, i: int)
    ensures |Range(a, i)| == Max(a, i) - Min(a, i) + 1
  {
    SpanSize(Min(a, i), Max(a, i) + 1);
  }

  /** One row of columns c0 <= c < c1 holds c1 - c0 distinct cells. */
  lemma {:induction false} RowCellsSize(r: int, c0: int, c1: int, w: int)
    requires c0 <= c1
    ensures |Cells(r, r + 1, c0, c1, w)| == c1 - c0
    decreases c1 - c0
  {
    if c0 < c1 {
      var small := Cells(r, r + 1, c0, c1 - 1, w);
      RowCellsSize(r, c0, c1 - 1, w);
      CellsAddColumn(r, c0, c1 - 1, w);
      forall x | x in small
        ensures x != Cell(r, c1 - 1, w)
      {
        var r', c' :| r <= r' < r + 1 && c0 <= c' < c1 - 1 && x == Cell(r', c', w);
      }
    } else {
      assert Cells(r, r + 1, c0, c1, w) == {};
    }
  }

  /** Cells of different rows are different, as long as columns stay within the width. */
  lemma RowsDisjoint(r0: int, r: int, c0: int, c1: int, w: int)
    requires 0 <= c0 && c1 <= w
    ensures Cells(r0, r, c0, c1, w) * Cells(r, r + 1, c0, c1, w) == {}
  {
    var top, last := Cells(r0, r, c0, c1, w), Cells(r, r + 1, c0, c1, w);
    forall x | x in top
      ensures x !in last
    {
      var ra, ca :| r0 <= ra < r && c0 <= ca < c1 && x == Cell(ra, ca, w);
      CellRowColumn(ra, ca, w);
      if x in last {
        var rb, cb :| r <= rb < r + 1 && c0 <= cb < c1 && x == Cell(rb, cb, w);
        CellRowColumn(rb, cb, w);
        assert false;
      }
    }
  }

  /** Rows r0 <= r < r1 of columns 0 <= c0 <= c < c1 <= w hold
      (r1 - r0) * (c1 - c0) distinct cells. */
  lemma {:induction false} CellsSize(r0: int, r1: int, c0: int, c1: int, w: int)
    requires r0 <= r1
    requires 0 <= c0 <= c1 <= w
    ensures |Cells(r0, r1, c0, c1, w)| == (r1 - r0) * (c1 - c0)
    decreases r1 - r0
  {
    if r0 < r1 {
      var r := r1 - 1;
      var top, last := Cells(r0, r, c0, c1, w), Cells(r, r1, c0, c1, w);
      assert |top| == (r - r0) * (c1 - c0) by {
        CellsSize(r0, r, c0, c1, w);
      }
      assert |last| == c1 - c0 by {
        RowCellsSize(r, c0, c1, w);
      }
      assert |Cells(r0, r1, c0, c1, w)| == |top| + |last| by {
        CellsAddRow(r0, r, c0, c1, w);
        RowsDisjoint(r0, r, c0, c1, w);
      }
      assert (r - r0) * (c1 - c0) + (c1 - c0) == (r1 - r0) * (c1 - c0);
    } else {
      assert Cells(r0, r1, c0, c1, w) == {};
    }
  }

  /** Alt-click selects (rows spanned) * (columns spanned) cells, none twice. */
  lemma RectangleSize(a: int, i: int, w: int)
    requires w > 0
    ensures |Rectangle(a, i, w)| ==
      (Max(a / w, i / w) - Min(a / w, i / w) + 1) * (Max(a % w, i % w) - Min(a % w, i % w) + 1)
  {
    CellsSize(Min(a / w, i / w), Max(a / w, i / w) + 1, Min(a % w, i % w), Max(a % w, i % w) + 1, w);
  }
}
