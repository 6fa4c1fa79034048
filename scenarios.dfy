/** Sequences of events on a freshly opened grid view (6 x 6 cells), showing
    what a caller can conclude from the contracts of HomeComponent alone. */
module Scenarios {
  import opened Wrappers
  import opened GridGeometry
  import opened Home

  /** A plain click on a, then a shift-click on b: the range between a and b,
      anchored at a. */
  method PlainThenShiftClick(a: int, b: int) returns (selection: set<int>, anchor: Option<int>)
    requires 0 <= a < 36 && 0 <= b < 36
    ensures selection == Range(a, b) && anchor == Some(a)
    ensures |selection| == Max(a, b) - Min(a, b) + 1
  {
    var home := new HomeComponent();
    home.SelectSquare(a, 6);
    home.OnKeyDown("Shift");
    home.SelectSquare(b, 6);
    selection, anchor := home.selected, home.anchor;
    RangeSize(a, b);
  }

  /** A plain click on a, then an alt-click on b: the rectangle spanned by the
      two cells, inside the grid, with both corners selected. */
  method PlainThenAltClick(a: int, b: int) returns (selection: set<int>, anchor: Option<int>)
    requires 0 <= a < 36 && 0 <= b < 36
    ensures selection == Rectangle(a, b, 6) && anchor == Some(a)
    ensures a in selection && b in selection
    ensures forall k :: k in selection ==> 0 <= k < 36
  {
    var home := new HomeComponent();
    home.SelectSquare(a, 6);
    home.OnKeyDown("Alt");
    home.SelectSquare(b, 6);
    selection, anchor := home.selected, home.anchor;
  }

  /** Alt pressed before any plain click: there is no anchor yet, so the click
      falls through to a plain click and sets the anchor. */
  method AltClickWithoutAnchor(b: int) returns (selection: set<int>, anchor: Option<int>)
    requires 0 <= b < 36
    ensures selection == {b} && anchor == Some(b)
  {
    var home := new HomeComponent();
    home.OnKeyDown("Alt");
    home.OnKeyDown("Shift");
    home.SelectSquare(b, 6);
    selection, anchor := home.selected, home.anchor;
  }

  /** Releasing alt ends rectangle selection: the next click is a plain one. */
  method AltReleasedThenClick(a: int, b: int) returns (selection: set<int>, anchor: Option<int>)
    requires 0 <= a < 36 && 0 <= b < 36
    ensures selection == {b} && anchor == Some(b)
  {
    var home := new HomeComponent();
    home.SelectSquare(a, 6);
    home.OnKeyDown("Alt");
    home.OnKeyUp("Alt");
    home.SelectSquare(b, 6);
    selection, anchor := home.selected, home.anchor;
  }

  /** A plain click on a, then two ctrl-clicks on b: back to just a. */
  method CtrlClickTwice(a: int, b: int) returns (selection: set<int>, anchor: Option<int>)
    requires 0 <= a < 36 && 0 <= b < 36
    ensures selection == {a} && anchor == Some(a)
  {
    var home := new HomeComponent();
    home.SelectSquare(a, 6);
    home.OnKeyDown("Control");
    home.SelectSquare(b, 6);
    home.SelectSquare(b, 6);
    ToggleTwice({a}, b);
    selection, anchor := home.selected, home.anchor;
  }

  /** Adding "5" cells to the 36-cell grid gives 41 cells and keeps the
      selection and anchor; adding "abc" is refused. */
  method GrowAfterClick(a: int) returns (refused: AddOutcome, gridLen: nat, selection: set<int>, anchor: Option<int>)
    requires 0 <= a < 36
    ensures refused == InvalidCount
    ensures gridLen == 41 && selection == {a} && anchor == Some(a)
  {
    var home := new HomeComponent();
    home.SelectSquare(a, 6);
    assert ParseCount("abc") == None && ParseCount("5") == Some(5) by {
      ParseCountExamples();
    }
    refused := home.AddSquares("abc");
    assert home.gridLen == 36;
    var added := home.AddSquares("5");
    gridLen, selection, anchor := home.gridLen, home.selected, home.anchor;
  }

  /** After growing the grid to 41 cells, which is not a square, a plain click
      on the new last cell selects it and makes it the anchor. */
  method ClickAfterGrowing() returns (gridLen: nat, selection: set<int>, anchor: Option<int>)
    ensures gridLen == 41 && selection == {40} && anchor == Some(40)
  {
    var home := new HomeComponent();
    assert ParseCount("5") == Some(5) by {
      ParseCountExamples();
    }
    var added := home.AddSquares("5");
    home.SelectSquare(40, 6);
    gridLen, selection, anchor := home.gridLen, home.selected, home.anchor;
  }
}
