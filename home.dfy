/** The grid view: a grid of cells, the set of selected cell indices, the anchor
    cell for shift- and alt-clicks, and the three modifier-key flags, updated in
    place by clicks, key events and requests to grow the grid. */
module Home {
  import opened Wrappers
  import opened GridGeometry
  import opened ParseInt

  /** The four branches of a click, tried in this order. */
  datatype ClickMode =
    | RectangleSelect(from: int)  // alt held and an anchor set
    | RangeSelect(from: int)      // shift held and an anchor set
    | ToggleSelect                // ctrl held
    | PlainSelect                 // anything else

  /** The branch a click takes under the given flags and anchor. Alt with an
      anchor wins over everything; shift with an anchor wins over ctrl; alt or
      shift without an anchor fall through to ctrl or a plain click. */
  function ModeOf(ctrl: bool, shift: bool, alt: bool, anchor: Option<int>): (m: ClickMode)
    ensures m.RectangleSelect? <==> alt && anchor.Some?
    ensures m.RangeSelect? <==> !alt && shift && anchor.Some?
    ensures m.ToggleSelect? <==> ctrl && !((alt || shift) && anchor.Some?)
    ensures m.PlainSelect? <==> !ctrl && !((alt || shift) && anchor.Some?)
    ensures m.RectangleSelect? || m.RangeSelect? ==> anchor == Some(m.from)
  {
    if alt && anchor.Some? then RectangleSelect(anchor.value)
    else if shift && anchor.Some? then RangeSelect(anchor.value)
    else if ctrl then ToggleSelect
    else PlainSelect
  }

  /** The selection with the membership of i flipped and every other index kept. */
  function Toggled(s: set<int>, i: int): (r: set<int>)
    ensures i in r <==> i !in s
    ensures forall k :: k != i ==> (k in r <==> k in s)
  {
    if i in s then s - {i} else s + {i}
  }

  /** Two identical ctrl-clicks restore the selection. */
  lemma ToggleTwice(s: set<int>, i: int)
    ensures Toggled(Toggled(s, i), i) == s
  {
  }

  /** The count accepted by addSquares: parseInt(s, 10) when it is a number
      greater than 0; None (NaN, zero or negative) is rejected. */
  function ParseCount(s: string): (r: Option<nat>)
    ensures r.Some? <==> ParseIntPrefix(s).Some? && ParseIntPrefix(s).value > 0
    ensures r.Some? ==> r.value > 0 && ParseIntPrefix(s) == Some(r.value as int)
  {
    match ParseIntPrefix(s)
    case Some(n) => if n > 0 then Some(n) else None
    case None => None
  }

  /** Which counts grow the grid and which are refused. */
  lemma ParseCountExamples()
    ensures ParseCount("5") == Some(5)
    ensures ParseCount("5x") == Some(5)
    ensures ParseCount("0") == None
    ensures ParseCount("-3") == None
    ensures ParseCount("abc") == None
  {
    ParseFive();
    ParseFiveX();
    ParseZero();
    ParseMinusThree();
    ParseIntRejects();
  }

  /** What addSquares reports: the number of cells added, or the invalid-count alert. */
  datatype AddOutcome = Added(count: nat) | InvalidCount

  class HomeComponent {
    /** Number of cells; every cell holds 0, so only the length matters. */
    var gridLen: nat
    var selected: set<int>
    /** The cell of the last plain click, corner of shift- and alt-selections. */
    var anchor: Option<int>
    var ctrlPressed: bool
    var shiftPressed: bool
    var altPressed: bool

    /** The anchor and every selected index name cells of the grid; so no
        more cells are selected than the grid has. */
    ghost predicate Valid()
      reads this
      ensures Valid() ==> |selected| <= gridLen
    {
      IndicesWithin(selected, gridLen);
      (anchor.Some? ==> 0 <= anchor.value < gridLen) &&
      (forall k :: k in selected ==> 0 <= k < gridLen)
    }

    /** A 6 x 6 grid, nothing selected, no anchor, no key held. */
    constructor ()
      ensures Valid()
      ensures gridLen == 36 && selected == {} && anchor == None
      ensures !ctrlPressed && !shiftPressed && !altPressed
    {
      gridLen := 36;
      selected := {};
      anchor := None;
      ctrlPressed, shiftPressed, altPressed := false, false, false;
    }

    /** A click on cell index. The width w of the square grid matters only to
        an alt-click with an anchor, the one branch that reads it. */
    method SelectSquare(index: int, w: nat)
      requires Valid()
      requires altPressed && anchor.Some? ==> w * w == gridLen
      requires 0 <= index < gridLen
      modifies this`selected, this`anchor
      ensures Valid()
      ensures match ModeOf(ctrlPressed, shiftPressed, altPressed, old(anchor))
        case RectangleSelect(a) => selected == Rectangle(a, index, w) && anchor == old(anchor)
        case RangeSelect(a) => selected == Range(a, index) && anchor == old(anchor)
        case ToggleSelect => selected == Toggled(old(selected), index) && anchor == old(anchor)
        case PlainSelect => selected == {index} && anchor == Some(index)
    {
      if altPressed && anchor.Some? {
        SelectRectangle(anchor.value, index, w);
        RectangleInGrid(anchor.value, index, w);
      } else if shiftPressed && anchor.Some? {
        SelectRange(anchor.value, index);
      } else if ctrlPressed {
        if index in selected {
          selected := selected - {index};
        } else {
          selected := selected + {index};
        }
      } else {
        selected := {index};
        anchor := Some(index);
      }
    }

    /** The alt-click branch: clear the selection, then add the cells of every
        row between the two rows and every column between the two columns. */
    method SelectRectangle(start: int, index: int, w: nat)
      requires w > 0
      modifies this`selected
      ensures selected == Rectangle(start, index, w)
    {
      var startRow, endRow := start / w, index / w;
      var startColumn, endColumn := start % w, index % w;
      var minRow, maxRow := Min(startRow, endRow), Max(startRow, endRow);
      var minCol, maxCol := Min(startColumn, endColumn), Max(startColumn, endColumn);
      selected := {};
      var row := minRow;
      while row <= maxRow
        invariant minRow <= row <= maxRow + 1
        invariant selected == Cells(minRow, row, minCol, maxCol + 1, w)
      {
        var col := minCol;
        while col <= maxCol
          invariant minCol <= col <= maxCol + 1
          invariant selected == Cells(minRow, row, minCol, maxCol + 1, w) + Cells(row, row + 1, minCol, col, w)
        {
          CellsAddColumn(row, minCol, col, w);
          selected := selected + {row * w + col};
          col := col + 1;
        }
        CellsAddRow(minRow, row, minCol, maxCol + 1, w);
        row := row + 1;
      }
    }

    /** The shift-click branch: clear the selection, then add every index from
        the smaller of start and index to the larger. */
    method SelectRange(start: int, index: int)
      modifies this`selected
      ensures selected == Range(start, index)
    {
      var lo, hi := Min(start, index), Max(start, index);
      selected := {};
      var i := lo;
      while i <= hi
        invariant lo <= i <= hi + 1
        invariant selected == Span(lo, i)
      {
        selected := selected + {i};
        i := i + 1;
      }
    }

    /** Key-down: 'Control', 'Shift' or 'Alt' sets its flag; other keys change nothing. */
    method OnKeyDown(key: string)
      requires Valid()
      modifies this`ctrlPressed, this`shiftPressed, this`altPressed
      ensures Valid()
      ensures ctrlPressed == (key == "Control" || old(ctrlPressed))
      ensures shiftPressed == (key == "Shift" || old(shiftPressed))
      ensures altPressed == (key == "Alt" || old(altPressed))
    {
      if key == "Control" {
        ctrlPressed := true;
      } else if key == "Shift" {
        shiftPressed := true;
      } else if key == "Alt" {
        altPressed := true;
      }
    }

    /** Key-up: 'Control', 'Shift' or 'Alt' clears its flag; other keys change nothing. */
    method OnKeyUp(key: string)
      requires Valid()
      modifies this`ctrlPressed, this`shiftPressed, this`altPressed
      ensures Valid()
      ensures ctrlPressed == (key != "Control" && old(ctrlPressed))
      ensures shiftPressed == (key != "Shift" && old(shiftPressed))
      ensures altPressed == (key != "Alt" && old(altPressed))
    {
      if key == "Control" {
        ctrlPressed := false;
      } else if key == "Shift" {
        shiftPressed := false;
      } else if key == "Alt" {
        altPressed := false;
      }
    }

    /** Grow the grid by the count typed in; an invalid count changes nothing. */
    method AddSquares(count: string) returns (outcome: AddOutcome)
      requires Valid()
      modifies this`gridLen
      ensures Valid()
      ensures outcome == match ParseCount(count) case Some(n) => Added(n) case None => InvalidCount
      ensures gridLen == old(gridLen) + (if outcome.Added? then outcome.count else 0)
    {
      var number := ParseIntPrefix(count);
      if number.None? || number.value <= 0 {
        return InvalidCount;
      }
      gridLen := gridLen + number.value;
      outcome := Added(number.value);
    }
  }
}
