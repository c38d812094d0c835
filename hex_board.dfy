/** The hexagonal board of the "trap the cat" game: a fixed radius and the
    set of cells the player has blocked so far. */
module HexBoard {
  import opened Hex
  import opened Filtering
  import opened BoardSpec

  /** How a blocking move ends: the cell is now blocked, or the move was
      rejected because the cell is off the board or already blocked. */
  datatype MoveResult = Moved | InvalidMove

  class Board {
    /** The board radius. */
    const size: int
    /** The cells blocked so far. */
    var blocked: set<Pos>

    /** Only cells of the board are ever blocked. */
    ghost predicate Valid()
      reads this
    {
      forall p :: p in blocked ==> InHexagon(size, p)
    }

    constructor (size: int)
      ensures this.size == size && blocked == {}
      ensures Valid()
    {
      this.size := size;
      blocked := {};
    }

    /** Clears the blocked cells and returns the (empty) set. */
    method InitializeBlockedPositions() returns (cleared: set<Pos>)
      modifies this
      ensures blocked == {} && cleared == {}
      ensures forall p :: !IsBlocked(p)
      ensures Valid()
    {
      blocked := {};
      cleared := blocked;
    }

    /** The cell lies on the board (see HexagonIsDisc: within `size` steps
        of the origin). */
    predicate InBounds(p: Pos) {
      InHexagon(size, p)
    }

    /** A cell of the board is blocked exactly when the free-cell scan
        leaves it out. */
    function IsBlocked(p: Pos): (isBlocked: bool)
      reads this
      ensures InBounds(p) ==> (isBlocked <==> p !in FreeCells(size, blocked))
    {
      FreeCellsSpec(size, blocked, p);
      p in blocked
    }

    /** The cells that may be blocked are exactly the cells the free-cell
        scan lists. */
    function IsValidMove(p: Pos): (valid: bool)
      reads this
      ensures valid <==> p in FreeCells(size, blocked)
    {
      FreeCellsSpec(size, blocked, p);
      InBounds(p) && !IsBlocked(p)
    }

    /** Blocks p if that is a valid move; otherwise rejects the move and
        changes nothing. */
    method ExecuteMove(p: Pos) returns (result: MoveResult)
      modifies this
      ensures result == Moved <==> old(IsValidMove(p))
      ensures blocked == if result == Moved then old(blocked) + {p} else old(blocked)
      ensures result == Moved ==> p !in old(blocked) && |blocked| == |old(blocked)| + 1
      ensures result == Moved ==> IsBlocked(p) && !IsValidMove(p)
      ensures old(Valid()) ==> Valid()
    {
      if IsValidMove(p) {
        blocked := blocked + {p};
        result := Moved;
      } else {
        result := InvalidMove;
      }
    }

    /** The neighbours of p that are on the board and not blocked, in
        direction order. */
    method GetAdjacentPositions(p: Pos) returns (neighbours: seq<Pos>)
      ensures neighbours == Adjacent(size, blocked, p)
    {
      neighbours := [];
      for i := 0 to |Directions|
        invariant neighbours == Filter(Neighbours(p)[..i], OpenIn(size, blocked))
      {
        var candidate := Add(p, Directions[i]);
        NeighbourStep(p, i, OpenIn(size, blocked));
        if InBounds(candidate) && !IsBlocked(candidate) {
          neighbours := neighbours + [candidate];
        }
      }
      assert Neighbours(p)[..|Directions|] == Neighbours(p);
    }

    /** Scans the square [-size, size] x [-size, size] row by row and keeps
        the cells that are on the board and satisfy pred. */
    method GetPositionsWhere(pred: Pos -> bool) returns (cells: seq<Pos>)
      ensures cells == Scan(size, pred)
    {
      cells := [];
      var q := -size;
      while q <= size
        invariant -size <= q && (q <= size + 1 || q == -size)
        invariant cells == Scanned(size, q, pred)
      {
        var row := ScanRow(q, pred);
        ScanStep(size, q, pred);
        cells := cells + row;
        q := q + 1;
      }
      ScanEnd(size, q, pred);
    }

    /** The inner loop of the scan: the cells of row q, r ascending, that
        are on the board and satisfy pred. */
    method ScanRow(q: int, pred: Pos -> bool) returns (row: seq<Pos>)
      requires -size <= q <= size
      ensures row == RowScan(size, q, size + 1, pred)
    {
      row := [];
      var r := -size;
      while r <= size
        invariant -size <= r <= size + 1
        invariant row == RowScan(size, q, r, pred)
      {
        var pos := Pos(q, r);
        RowScanStep(size, q, r, pred);
        if InBounds(pos) && pred(pos) {
          row := row + [pos];
        }
        r := r + 1;
      }
    }
  }
}
