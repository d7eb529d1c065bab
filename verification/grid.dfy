/**
  Grid geometry of the Snake board: integer cells, the four unit directions
  and the adjacency and bounds relations the rest of the model is stated in.
 */
module Grid {

  /** A board cell; (0, 0) is the top-left corner and y grows downwards. */
  datatype Cell = Cell(x: int, y: int)

  /** The four directions of travel, each a unit vector (dx, dy). */
  datatype Direction = Up | Down | Left | Right {

    function Dx(): int {
      match this
      case Left => -1
      case Right => 1
      case _ => 0
    }

    function Dy(): int {
      match this
      case Up => -1
      case Down => 1
      case _ => 0
    }

    /** The direction pointing the other way. */
    function Opposite(): (o: Direction)
      ensures o.Dx() == -Dx() && o.Dy() == -Dy()
      ensures o != this
    {
      match this
      case Up => Down
      case Down => Up
      case Left => Right
      case Right => Left
    }
  }

  function Abs(n: int): nat {
    if n < 0 then -n else n
  }

  /** Two cells that share an edge. */
  predicate Adjacent(a: Cell, b: Cell) {
    Abs(a.x - b.x) + Abs(a.y - b.y) == 1
  }

  /** The cell one step from `c` in direction `d`. */
  function Move(c: Cell, d: Direction): (r: Cell)
    ensures Adjacent(c, r) && Adjacent(r, c)
    ensures r != c
  {
    Cell(c.x + d.Dx(), c.y + d.Dy())
  }

  /** The reversal test of the game: `requested` is the exact negation of
      `current` as vectors (componentwise). */
  predicate IsReverse(requested: Direction, current: Direction) {
    requested.Dx() == -current.Dx() && requested.Dy() == -current.Dy()
  }

  /** The componentwise vector test is exactly "is the opposite direction". */
  lemma ReverseIsOpposite(requested: Direction, current: Direction)
    ensures IsReverse(requested, current) <==> requested == current.Opposite()
  {
  }

  /** Moving one way and then the other way returns to the start cell. */
  lemma MoveOppositeCancels(c: Cell, d: Direction)
    ensures Move(Move(c, d), d.Opposite()) == c
  {
  }

  /** The step to `Move(c, d)` and the step back from it are each other's
      reversal, so the only move from a head onto the cell behind it is a
      reversal of the direction that led there. */
  lemma MoveOntoNeckIsReversal(c: Cell, current: Direction, requested: Direction)
    ensures Move(c, requested) == Move(c, current.Opposite()) <==> IsReverse(requested, current)
  {
    ReverseIsOpposite(requested, current);
    if Move(c, requested) == Move(c, current.Opposite()) {
      assert requested.Dx() == current.Opposite().Dx();
      assert requested.Dy() == current.Opposite().Dy();
    }
  }

  /** `c` lies inside a board of `width` columns and `height` rows. */
  predicate InGrid(width: int, height: int, c: Cell) {
    0 <= c.x < width && 0 <= c.y < height
  }
}
