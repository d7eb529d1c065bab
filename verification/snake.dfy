/**
  The snake body: a head-first sequence of cells, the shape predicates a
  well-formed body satisfies, the initial body, and the single mutation a
  tick applies (prepend the new head, drop the tail unless the snake grew).
 */
module Snake {
  import opened Grid

  /** Linear scan for a segment equal to `c`, as the game's occupancy test
      does; it agrees with sequence membership. */
  function IsSnakePosition(snake: seq<Cell>, c: Cell): (b: bool)
    ensures b <==> c in snake
  {
    if snake == [] then false
    else snake[0] == c || IsSnakePosition(snake[1..], c)
  }

  /** No cell occurs twice. */
  predicate Distinct(s: seq<Cell>) {
    forall i, j :: 0 <= i < j < |s| ==> s[i] != s[j]
  }

  /** Every segment is on the board. */
  predicate AllInGrid(width: int, height: int, s: seq<Cell>) {
    forall i :: 0 <= i < |s| ==> InGrid(width, height, s[i])
  }

  /** Consecutive segments share an edge. */
  predicate Connected(s: seq<Cell>) {
    forall i :: 0 <= i < |s| - 1 ==> Adjacent(s[i], s[i + 1])
  }

  /** A body that a run may hold. */
  predicate WellShaped(width: int, height: int, s: seq<Cell>) {
    Distinct(s) && AllInGrid(width, height, s) && Connected(s)
  }

  /** The body a run starts with: three cells in a row, head at the centre of
      the board, the tail extending to the left. */
  function Initial(width: int, height: int): (s: seq<Cell>)
    ensures |s| == 3 && Distinct(s) && Connected(s)
    ensures s[0] == Cell(width / 2, height / 2)
    ensures s[1] == Move(s[0], Left) && s[2] == Move(s[1], Left)
    ensures AllInGrid(width, height, s) <==> width >= 4 && height >= 1
  {
    var cx := width / 2;
    var cy := height / 2;
    [Cell(cx, cy), Cell(cx - 1, cy), Cell(cx - 2, cy)]
  }

  /** The tick's commit: the new head is put in front and, unless the snake
      grew, the last segment is removed. */
  function Commit(s: seq<Cell>, head: Cell, grew: bool): (r: seq<Cell>)
    requires s != []
    ensures |r| == if grew then |s| + 1 else |s|
    ensures r[0] == head
    ensures r[1..] == if grew then s else s[..|s| - 1]
  {
    var pushed := [head] + s;
    if grew then pushed else pushed[..|pushed| - 1]
  }

  /** Committing a head that is adjacent to the old head, on the board and
      not on the old body keeps the body well shaped. */
  lemma CommitKeepsShape(width: int, height: int, s: seq<Cell>, head: Cell, grew: bool)
    requires s != [] && WellShaped(width, height, s)
    requires InGrid(width, height, head) && Adjacent(s[0], head) && head !in s
    ensures WellShaped(width, height, Commit(s, head, grew))
  {
    var r := Commit(s, head, grew);
    assert forall i :: 1 <= i < |r| ==> r[i] == s[i - 1] by {
      forall i | 1 <= i < |r|
        ensures r[i] == s[i - 1]
      {
        assert r[i] == r[1..][i - 1];
      }
    }
    forall i, j | 0 <= i < j < |r|
      ensures r[i] != r[j]
    {
      if i == 0 {
        assert r[j] == s[j - 1];
      }
    }
    forall i | 0 <= i < |r| - 1
      ensures Adjacent(r[i], r[i + 1])
    {
      if i == 0 {
        assert r[1] == s[0];
        assert Adjacent(head, s[0]);
      } else {
        assert r[i] == s[i - 1] && r[i + 1] == s[i];
      }
    }
  }
}
