/** Axial (cube) coordinates of the hexagonal grid the board is laid on. */
module Hex {

  /** A cell in axial coordinates. The third cube coordinate is derived
      from the other two, so two cells are equal exactly when q and r are. */
  datatype Pos = Pos(q: int, r: int) {
    /** The derived cube coordinate: q + r + s == 0 for every cell. */
    function S(): int {
      -q - r
    }
  }

  const Origin: Pos := Pos(0, 0)

  /** The six unit offsets between axially adjacent cells, in the fixed
      order in which the board lists neighbours. */
  const Directions: seq<Pos> := [Pos(1, 0), Pos(0, 1), Pos(-1, 1), Pos(-1, 0), Pos(0, -1), Pos(1, -1)]

  function Add(p: Pos, d: Pos): Pos {
    Pos(p.q + d.q, p.r + d.r)
  }

  function Abs(x: int): nat {
    if x < 0 then -x else x
  }

  /** The number of unit steps between two cells, by the axial rule: when
      the two offsets have the same sign a step moves along both at once,
      otherwise the larger offset decides. */
  function Distance(a: Pos, b: Pos): nat {
    var dq, dr := b.q - a.q, b.r - a.r;
    if (dq >= 0) == (dr >= 0) then Abs(dq + dr)
    else if Abs(dq) >= Abs(dr) then Abs(dq)
    else Abs(dr)
  }

  /** The six cells around p, one per direction, in direction order. */
  function Neighbours(p: Pos): seq<Pos> {
    seq(|Directions|, i requires 0 <= i < |Directions| => Add(p, Directions[i]))
  }

  /** The index in Directions of the step from p to x, or |Directions|
      when x is not one step away from p. */
  function DirectionIndex(p: Pos, x: Pos): (i: nat)
    ensures i < |Directions| ==> x == Neighbours(p)[i]
    ensures i == |Directions| ==> x !in Neighbours(p)
  {
    var d := Pos(x.q - p.q, x.r - p.r);
    if d == Directions[0] then 0
    else if d == Directions[1] then 1
    else if d == Directions[2] then 2
    else if d == Directions[3] then 3
    else if d == Directions[4] then 4
    else if d == Directions[5] then 5
    else 6
  }

  /** Each neighbour is found again at its own direction index. */
  lemma NeighbourIndex(p: Pos, i: int)
    requires 0 <= i < |Directions|
    ensures DirectionIndex(p, Neighbours(p)[i]) == i
  {
  }

  /** The six directions are exactly the steps of length one: a cell is
      listed among the neighbours of p iff it is at distance 1 from p. */
  lemma UnitSteps(p: Pos, x: Pos)
    ensures x in Neighbours(p) <==> Distance(p, x) == 1
  {
    var dq, dr := x.q - p.q, x.r - p.r;
    if Distance(p, x) == 1 {
      if dq == 1 && dr == 0 { assert x == Neighbours(p)[0]; }
      else if dq == 0 && dr == 1 { assert x == Neighbours(p)[1]; }
      else if dq == -1 && dr == 1 { assert x == Neighbours(p)[2]; }
      else if dq == -1 && dr == 0 { assert x == Neighbours(p)[3]; }
      else if dq == 0 && dr == -1 { assert x == Neighbours(p)[4]; }
      else { assert dq == 1 && dr == -1; assert x == Neighbours(p)[5]; }
    }
    if x in Neighbours(p) {
      var i :| 0 <= i < |Directions| && Neighbours(p)[i] == x;
    }
  }
}
