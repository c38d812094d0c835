# Hexagonal board of "Atrapar al Gato" (trap the cat), in Dafny

This project models the board engine of the game, the class `HexGameBoard`.
The board is a hexagon of radius `size` on a grid of axial coordinates (q, r).
The third cube coordinate s = -q - r is derived. The board's only mutable state
is the set of cells the player has blocked. Its operations are:

- the bounds test;
- the blocked lookup;
- move validation;
- the blocking move, which either blocks the cell or rejects the move;
- the reset of the blocked set;
- the list of free neighbours of a cell;
- a scan of the bounding square that keeps the board cells a caller's predicate accepts.

Layout:

- `hex.dfy` (module `Hex`): the cell type `Pos`, the six direction offsets in
  the board's order, and the axial distance between cells.
- `filter.dfy` (module `Filtering`): `Filter`, the order-keeping selection that
  both list-building loops of the board perform, and its lemmas.
- `board_spec.dfy` (module `BoardSpec`): the board's answers as functions of the
  radius and the blocked set (`InHexagon`, `Adjacent`, `Scan`, `FreeCells`), and
  the properties proved about them.
- `hex_board.dfy` (module `HexBoard`): class `Board`. It has `const size` and
  `var blocked: set<Pos>`, and its methods update `blocked` in place.
  `ExecuteMove` returns `Moved` or `InvalidMove` instead of throwing.
  The two list-building operations are loops proved against `Adjacent` and `Scan`.

The class invariant `Valid()` says that every blocked cell is on the board.
The constructor establishes it. `InitializeBlockedPositions` and `ExecuteMove`
preserve it. Distances use the axial rule: |dq + dr| when the offsets have the
same sign, otherwise the larger of |dq| and |dr|. This is a definition
independent of the board's three-coordinate test, and `HexagonIsDisc` and
`UnitSteps` connect the two.

The source accepts any `int` as the radius. The model does too. With a negative
radius no cell is on the board, and both scans return nothing. The cell count
3n² + 3n + 1 is proved for n ≥ 0.

The inner loop of `getPositionsWhere` (one row of the scan) is the method
`ScanRow`. `GetPositionsWhere` runs the outer loop and calls it once per row.
The order of visits and the cells kept are those of the nested loops.
`Scan` is defined row by row, in the shape of the loops, and `ScannedRows`
proves it equal to filtering the whole square. The membership, order and
count lemmas are stated on that filtered square.

## Model

| member | source | states |
|---|---|---|
| `HexBoard.Board.constructor` | src/main/java/com/atraparalagato/impl/model/HexGameBoard.java:21-25 | a new board has the given radius, no blocked cells, and satisfies the invariant that blocked cells lie on the board |
| `HexBoard.Board.InitializeBlockedPositions` | src/main/java/com/atraparalagato/impl/model/HexGameBoard.java:31-34 | whatever the prior state, the blocked set becomes empty, no cell is blocked afterwards, and the returned set is empty; calling it again changes nothing (idempotent) |
| `BoardSpec.HexagonIsDisc` | src/main/java/com/atraparalagato/impl/model/HexGameBoard.java:42-48 | the three-coordinate bounds test (abs(q), abs(r), abs(s) all at most size) holds exactly for the cells within `size` steps of the origin |
| `BoardSpec.RadiusTwoBounds` | src/test/java/com/atraparalagato/impl/model/HexGameBoardTest.java:21-27 | on a radius-2 board (0,0) and (1,-1) are in bounds, (3,0) and (-3,1) are not |
| `HexBoard.Board.IsBlocked` | src/main/java/com/atraparalagato/impl/model/HexGameBoard.java:55-57 | a cell on the board is blocked exactly when the free-cell scan leaves it out |
| `HexBoard.Board.IsValidMove` | src/main/java/com/atraparalagato/impl/model/HexGameBoard.java:116-118 | the valid moves are exactly the cells listed by the free-cell scan, i.e. on the board and not blocked; being a function, it changes nothing |
| `HexBoard.Board.ExecuteMove` | src/main/java/com/atraparalagato/impl/model/HexGameBoard.java:125-131 | succeeds iff the move was valid beforehand; on success the blocked set is the old one plus the cell and grows by exactly one, the cell is blocked and no longer a valid move, so repeating the move fails; on failure the blocked set is unchanged; the invariant that blocked cells lie on the board is preserved |
| `HexBoard.Board.GetAdjacentPositions` | src/main/java/com/atraparalagato/impl/model/HexGameBoard.java:66-88 | returns the six candidate cells p + direction, in the fixed direction order, kept iff in bounds and not blocked; reads the board without changing it |
| `Hex.UnitSteps` | src/main/java/com/atraparalagato/impl/model/HexGameBoard.java:67-70 | the six offsets (1,0), (0,1), (-1,1), (-1,0), (0,-1), (1,-1) give exactly the cells at distance 1 |
| `Hex.DirectionIndex` | src/main/java/com/atraparalagato/impl/model/HexGameBoard.java:67-70 | the direction index of a cell names the offset that reaches it from p; a cell with no direction index is not a neighbour |
| `BoardSpec.AdjacentSpec` | src/main/java/com/atraparalagato/impl/model/HexGameBoard.java:77-85 | a cell is listed iff it is one step from p, in bounds and not blocked; at most six are listed, with no duplicates, in increasing direction index |
| `BoardSpec.AdjacentAllOpen` | src/main/java/com/atraparalagato/impl/model/HexGameBoard.java:77-85 | when all six surrounding cells are in bounds and free, the list is exactly the six of them in direction order |
| `BoardSpec.OriginNeighbours` | src/main/java/com/atraparalagato/impl/model/HexGameBoard.java:66-88 | on a board of radius at least 1 the origin has exactly six neighbours when none of them is blocked |
| `BoardSpec.AdjacentAfterBlocking` | src/main/java/com/atraparalagato/impl/model/HexGameBoard.java:82-84 | blocking a cell removes it from every neighbour list: the list loses exactly one element if the cell was listed and is unchanged otherwise |
| `BoardSpec.OriginAfterOneMove` | src/test/java/com/atraparalagato/impl/model/HexGameBoardTest.java:49-63 | on a board of radius at least 1 with no cell around the origin blocked (as on the test's fresh radius-2 board) the origin has 6 neighbours, and 5 after one of them is blocked |
| `HexBoard.Board.GetPositionsWhere` | src/main/java/com/atraparalagato/impl/model/HexGameBoard.java:96-109 | returns what the scan of the square [-size, size]² yields: the cells in bounds that satisfy the predicate, in q-major, r-ascending order; reads the board without changing it |
| `HexBoard.Board.ScanRow` | src/main/java/com/atraparalagato/impl/model/HexGameBoard.java:100-105 | one row q of the scan yields, r ascending over [-size, size], exactly the cells of that row that are in bounds and satisfy the predicate |
| `BoardSpec.ScannedRows` | src/main/java/com/atraparalagato/impl/model/HexGameBoard.java:99-106 | keeping, row after row, the accepted cells of each row is the same as filtering the whole square [-size, size]² in q-major order |
| `BoardSpec.ScanSpec` | src/main/java/com/atraparalagato/impl/model/HexGameBoard.java:99-105 | a cell is reported iff it is in bounds and satisfies the predicate; each cell once; in strictly increasing (q, r) lexicographic order |
| `BoardSpec.SquareMembership` | src/main/java/com/atraparalagato/impl/model/HexGameBoard.java:99-100 | the nested loops visit exactly the cells with -size ≤ q, r ≤ size |
| `BoardSpec.SquareOrdered` | src/main/java/com/atraparalagato/impl/model/HexGameBoard.java:99-100 | the nested loops visit the cells in strictly increasing (q, r) order |
| `BoardSpec.HexagonCellCount` | src/main/java/com/atraparalagato/impl/model/HexGameBoard.java:96-108 | with an always-true predicate the scan lists every board cell: 3n² + 3n + 1 of them for radius n ≥ 0 |
| `BoardSpec.FreeCellsSpec` | src/test/java/com/atraparalagato/impl/model/HexGameBoardTest.java:66-75 | scanning with "not blocked" as the predicate lists exactly the in-bounds cells that are not blocked, so it omits every blocked cell |
| `BoardSpec.RadiusTwoFreeCells` | src/test/java/com/atraparalagato/impl/model/HexGameBoardTest.java:66-75 | on a radius-2 board with (0,0) and (1,-1) blocked, the free-cell scan lists neither |

## Left out

- The `GameBoard` base class and the `Position`/`HexPosition` types are not part of this model. A single value type `Pos` with equality on (q, r) stands for them, so the downcasts at HexGameBoard.java:43-44 and 74-75 and their `ClassCastException` have no counterpart.
- `initializeBlockedPositions` returns the live internal set, so callers could change the blocked cells without `executeMove`. The model returns the empty set as a value instead. Dafny cannot make the field `blocked` private. `Valid()` is guaranteed only for changes made through the board's own methods.
- The `IllegalArgumentException` of `executeMove` becomes the result `InvalidMove`. Its message text is not modelled.
- Java `int` arithmetic is modelled by unbounded integers. Not modelled: `q + r` overflow, `Math.abs(Integer.MIN_VALUE)` staying negative in the bounds test, and the loop counter overflowing when `size` is `Integer.MAX_VALUE`.
- The raw `Predicate` of `getPositionsWhere` becomes a total function `Pos -> bool`. Such a function cannot read the board, so a predicate that depends on board state (the test's "not blocked") is passed as a value built from the blocked set. `FreeCells` is exactly that predicate.
- `HashSet` hashing and equality are replaced by Dafny's `set<Pos>`.
- `HexBoard.Board.InBounds` (`isPositionInBounds`) carries no postcondition. Its body is the three-coordinate test `InHexagon`, and `BoardSpec.HexagonIsDisc` proves that this test is the disc of radius `size`.
