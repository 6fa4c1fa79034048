# Grid multi-selection of the home view, in Dafny

The home view of this Angular application (`HomeComponent`) shows a grid of
cells. The user selects cells by clicking, and the Control, Shift and Alt keys
change what a click does. The component keeps six pieces of state for the grid: the grid
(every cell holds `0`, so only its length matters), the set of selected
indices, an optional anchor index (`shiftStartIndex`) and three
modifier-key flags. This project models that state as the Dafny class
`Home.HomeComponent` and its three kinds of events as methods that change the
state in place:

- `SelectSquare(index, w)` is `selectSquare`. It tries four branches in order.
  Alt with an anchor selects the rectangle between the anchor's row and column
  and the clicked cell's. Shift with an anchor selects the inclusive range of
  indices. Ctrl toggles the clicked index. Any other click selects only the
  clicked index and makes it the anchor. The rectangle and range branches are
  the nested `for` loops of the source. They live in the helper methods
  `SelectRectangle` and `SelectRange`, and each is proved against a set
  defined in `GridGeometry`.
- `OnKeyDown(key)` / `OnKeyUp(key)` are the two listeners registered in
  `addKeyListeners`. They set or clear the flag of `'Control'`, `'Shift'` or
  `'Alt'`.
- `AddSquares(count)` is `addSquares`. It parses the count as JavaScript's
  `parseInt(count, 10)` does (module `ParseInt`) and rejects NaN and values
  `<= 0` with no change. Otherwise it appends that many cells.

Files:

- `wrappers.dfy` holds `Option`.
- `parse_int.dfy` models `parseInt` with radix 10 (section 19.2.5 of ECMA-262).
  It skips leading StrWhiteSpaceChar characters, takes an optional sign, then
  the longest run of decimal digits. Parsing white space, a sign, any digit
  string and any non-digit tail gives the signed value of the digits. The
  canonical numeral `Decimal(n)` is its partner: it parses back to `n`.
- `grid_geometry.dfy` holds the row-major geometry (`Cell(r, c, w) = r * w + c`),
  the range and rectangle selections, and their properties: membership by row
  and column, staying inside the grid, the
  rectangle and the range agreeing within one row, and the exact sizes.
- `home.dfy` holds the click priority chain `ModeOf`, the toggle, the accepted
  count and the class.
- `scenarios.dfy` states event sequences on a fresh 6 x 6 component (plain
  then shift, plain then alt, alt with no anchor, ctrl twice, growing the grid,
  a click after growing) and proves, from the class's contracts alone, what
  they leave.

The class invariant `Valid()` says that the anchor and every selected index
name a cell of the grid, so at most `gridLen` cells are selected. The
constructor establishes it, and `SelectSquare`, `OnKeyDown`, `OnKeyUp` and
`AddSquares` preserve it. `SelectRectangle` and `SelectRange` are the two loop
bodies that `SelectSquare` calls: they do not require it and do not promise it
on their own. Squareness of the grid is not part of the invariant, because
`addSquares` can break it.

`selectSquare` takes the width as `Math.sqrt(length)` without rounding
(`home.component.ts:40`). Only the alt-click branch reads the width. So
`SelectSquare` asks for an integer width `w` with `w * w == gridLen` only when
alt is held and an anchor is set. `Math.sqrt` yields such an integer width
only when the length is a perfect square. Shift, ctrl and plain clicks work on any grid length,
including one that growing has made non-square.

## Model

| member | source | states |
|---|---|---|
| `Home.HomeComponent.Valid` | src/app/components/home/home.component.ts:15-20 | the anchor and every selected index lie in `[0, gridLen)`; hence no more than `gridLen` cells are selected |
| `Home.HomeComponent.constructor` | src/app/components/home/home.component.ts:15-20 | a 36-cell grid, empty selection, no anchor, all three flags false; the invariant holds |
| `Home.HomeComponent.SelectSquare` | src/app/components/home/home.component.ts:39-83 | the new selection and anchor for each of the four branches chosen by `ModeOf`: rectangle or range from the old anchor (anchor kept), toggle of the index (anchor kept), or `{index}` with the anchor moved to `index`; grid and flags untouched; the anchor and selection stay inside the grid |
| `Home.HomeComponent.SelectRectangle` | src/app/components/home/home.component.ts:43-60 | the nested row/column loops leave exactly `Rectangle(start, index, w)` selected |
| `Home.HomeComponent.SelectRange` | src/app/components/home/home.component.ts:62-69 | the index loop leaves exactly `Range(start, index)` selected |
| `Home.HomeComponent.OnKeyDown` | src/app/components/home/home.component.ts:87-95 | `'Control'`, `'Shift'`, `'Alt'` each set exactly their own flag; any other key changes no flag; selection, anchor and grid are outside the frame |
| `Home.HomeComponent.OnKeyUp` | src/app/components/home/home.component.ts:97-105 | the same three keys each clear exactly their own flag; any other key changes nothing |
| `Home.HomeComponent.AddSquares` | src/app/components/home/home.component.ts:109-116 | an accepted count `n` grows the grid by exactly `n` and reports `Added(n)`; NaN or a count `<= 0` reports `InvalidCount` and leaves the grid as it was; selection and anchor are outside the frame |
| `Home.ModeOf` | src/app/components/home/home.component.ts:42-82 | the priority chain as a truth table: rectangle iff alt and an anchor; range iff shift, an anchor and no alt; toggle iff ctrl and neither alt nor shift with an anchor; plain otherwise; range and rectangle start at the anchor |
| `Home.Toggled` | src/app/components/home/home.component.ts:70-76 | the clicked index changes membership, every other index keeps it |
| `Home.ToggleTwice` | src/app/components/home/home.component.ts:70-76 | two identical ctrl-clicks restore the selection |
| `Home.ParseCount` | src/app/components/home/home.component.ts:110-114 | a count is accepted exactly when `parseInt` yields a number greater than 0, and then it is that number |
| `Home.ParseCountExamples` | src/app/components/home/home.component.ts:110-114 | `"5"` and `"5x"` are accepted as 5; `"0"`, `"-3"` and `"abc"` are refused |
| `GridGeometry.CellRowColumn` | src/app/components/home/home.component.ts:44-47 | the index `r * w + c` with `0 <= c < w` has row `r` and column `c` under `/` and `%` |
| `GridGeometry.Rectangle` | src/app/components/home/home.component.ts:44-59 | `k` is in the rectangle iff its row `k / w` lies between the rows of the two cells and its column `k % w` between their columns |
| `GridGeometry.CellsMembership` | src/app/components/home/home.component.ts:56-59 | the indices `row * w + col` added by the two loops are exactly those whose row and column lie in the loop ranges, for columns inside the width |
| `GridGeometry.RectangleInGrid` | src/app/components/home/home.component.ts:40-59 | with both corners inside a `w * w` grid, every selected index is in `[0, w * w)` |
| `GridGeometry.RectangleInOneRow` | src/app/components/home/home.component.ts:42-69 | when anchor and click share a row, alt-click and shift-click select the same cells |
| `GridGeometry.RectangleSize` | src/app/components/home/home.component.ts:56-59 | the rectangle has (rows spanned) x (columns spanned) cells, so the loops add no index twice |
| `GridGeometry.CellsAddColumn` | src/app/components/home/home.component.ts:57-59 | one step of the column loop adds exactly the cell `row * w + col` |
| `GridGeometry.CellsAddRow` | src/app/components/home/home.component.ts:56-60 | one pass of the row loop adds exactly that row's cells |
| `GridGeometry.Range` | src/app/components/home/home.component.ts:63-68 | `k` is in the range iff `min(a, i) <= k <= max(a, i)` |
| `GridGeometry.Span` | src/app/components/home/home.component.ts:67-68 | the indices added by the loop from `lo` up to `hi - 1` are exactly `lo <= k < hi` |
| `GridGeometry.RangeSize` | src/app/components/home/home.component.ts:63-68 | the range has `max - min + 1` elements |
| `ParseInt.TrimStart` | src/app/components/home/home.component.ts:110 | leading white space is removed: the result is a suffix, all that was cut is white space, and the result does not start with white space |
| `ParseInt.DigitRunLength` | src/app/components/home/home.component.ts:110 | the length of the longest all-digit prefix |
| `ParseInt.Decimal` | src/app/components/home/home.component.ts:110 | the numeral of `n` is a non-empty digit string without a leading zero |
| `ParseInt.DecimalValue` | src/app/components/home/home.component.ts:110 | reading the numeral of `n` in base 10 gives `n` |
| `ParseInt.LeadingDigits` | src/app/components/home/home.component.ts:110-111 | a magnitude is read exactly when the text starts with a digit |
| `ParseInt.SignedDigits` | src/app/components/home/home.component.ts:110-111 | after an optional sign, a number is read exactly when the text starts with a digit or with a sign and a digit |
| `ParseInt.ParseIntPrefix` | src/app/components/home/home.component.ts:110-111 | a number (not NaN) is found iff, after the leading white space, the text starts with a digit or with a sign and a digit; the number is negative only after a `-` |
| `ParseInt.ParseDigits` | src/app/components/home/home.component.ts:110 | white space, an optional `+`/`-`, any non-empty digit string (leading zeros included) and any tail not starting with a digit parse to the signed base-10 value of the digits |
| `ParseInt.ParseDecimal` | src/app/components/home/home.component.ts:110 | the canonical numeral of `n`, padded and signed the same way, parses back to `n` or `-n` |
| `ParseInt.ParseNoDigits` | src/app/components/home/home.component.ts:110-111 | when no digit follows the white space and the optional sign, the result is NaN |
| `ParseInt.ParseFive` | src/app/components/home/home.component.ts:110 | `parseInt("5")` is 5 |
| `ParseInt.ParseZero` | src/app/components/home/home.component.ts:110-111 | `parseInt("0")` is 0, which `addSquares` then rejects |
| `ParseInt.ParseMinusThree` | src/app/components/home/home.component.ts:110-111 | `parseInt("-3")` is -3 |
| `ParseInt.ParseFiveX` | src/app/components/home/home.component.ts:110 | trailing text is ignored: `parseInt("5x")` is 5 |
| `ParseInt.ParsePaddedPlus` | src/app/components/home/home.component.ts:110 | leading white space and a `+` are skipped: `parseInt(" +42 cells")` is 42 |
| `ParseInt.ParseLeadingZeros` | src/app/components/home/home.component.ts:110 | leading zeros are part of the digits: `parseInt("007")` is 7 |
| `ParseInt.ParseIntRejects` | src/app/components/home/home.component.ts:110-111 | `"abc"`, `""` and `"- 7"` parse to NaN |
| `Scenarios.PlainThenShiftClick` | src/app/components/home/home.component.ts:61-81 | a plain click on `a`, then a shift-click on `b`, selects the range between `a` and `b` (`max - min + 1` cells) anchored at `a` |
| `Scenarios.PlainThenAltClick` | src/app/components/home/home.component.ts:42-81 | a plain click on `a`, then an alt-click on `b`, selects the rectangle with both corners, inside the 36 cells, anchored at `a` |
| `Scenarios.AltClickWithoutAnchor` | src/app/components/home/home.component.ts:42-81 | with alt and shift held but no anchor yet, the click is a plain click |
| `Scenarios.AltReleasedThenClick` | src/app/components/home/home.component.ts:92-103 | after alt is pressed and released, a click is a plain click again |
| `Scenarios.CtrlClickTwice` | src/app/components/home/home.component.ts:70-81 | a plain click on `a`, then two ctrl-clicks on the same cell, leaves `{a}` |
| `Scenarios.GrowAfterClick` | src/app/components/home/home.component.ts:109-116 | `"abc"` is refused; `"5"` grows 36 cells to 41 and keeps selection and anchor |
| `Scenarios.ClickAfterGrowing` | src/app/components/home/home.component.ts:77-82 | once `"5"` has grown the grid to 41 cells, a plain click on cell 40 selects `{40}` and anchors there |

## Left out

- The login view (`login.component.ts`) is not part of this model. Its logic is a remote credential call, session-storage writes, navigation and toast messages.
- `checkLoginStatus` and `logout` are not modelled. They are session-storage and router calls.
- Registering the listeners with `window.addEventListener`, and their lifetime, are not modelled. Only the flag changes are.
- The `alert` of `addSquares` appears only as the `InvalidCount` outcome.
- The unused `MouseEvent` parameter and the template rendering are not modelled.
- Home.HomeComponent.SelectSquare: requires an index inside the grid, and for an alt-click with an anchor an integer width with `w * w == gridLen`. The source checks neither. An alt-click on a grid whose length is not a perfect square gets a fractional width from `Math.sqrt`, and the floating-point row and column arithmetic that follows is not modelled.
- Home.HomeComponent.AddSquares: takes the parsed count as an exact unbounded integer. Digit strings too long for a double lose precision in JavaScript. A count of 2^32 or more makes `Array(number)` throw. Neither is modelled.
- ParseInt.ParseIntPrefix: gives 0 for `"-0"` where JavaScript gives -0. Both are rejected by `<= 0`, so `addSquares` behaves the same. Radixes other than 10 and the `0x` prefix are not modelled, because the call always passes radix 10. Characters are Unicode scalar values rather than UTF-16 code units.
