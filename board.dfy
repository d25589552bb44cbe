/**
 * The tic-tac-toe board shared by every rule engine of the core: a 3×3 grid
 * held as a list of three lists, winner detection (`check_winner`, written
 * identically in three places) and draw detection (`is_draw`).
 *
 * Cells are arbitrary values: the legacy server stores whatever `symbol` a
 * command carries. The empty cell is the empty string.
 */
module Board {
  import opened Values

  const EmptyCell: Value := Str("")

  predicate IsGrid(b: Value)
  {
    b.List? && |b.items| == 3 &&
    forall r :: 0 <= r < 3 ==> b.items[r].List? && |b.items[r].items| == 3
  }

  predicate InRange(r: int, c: int)
  {
    0 <= r < 3 && 0 <= c < 3
  }

  function Cell(b: Value, r: int, c: int): Value
    requires IsGrid(b) && InRange(r, c)
  {
    b.items[r].items[c]
  }

  /** `board[r][c] = x`: the new grid differs from the old one in that cell only. */
  function SetCell(b: Value, r: int, c: int, x: Value): (b': Value)
    requires IsGrid(b) && InRange(r, c)
    ensures IsGrid(b')
    ensures Cell(b', r, c) == x
    ensures forall r', c' :: InRange(r', c') && (r', c') != (r, c) ==> Cell(b', r', c') == Cell(b, r', c')
  {
    List(b.items[r := List(b.items[r].items[c := x])])
  }

  /** `[['' for _ in range(3)] for _ in range(3)]`. */
  function EmptyGrid(): (b: Value)
    ensures IsGrid(b)
    ensures forall r, c :: InRange(r, c) ==> Cell(b, r, c) == EmptyCell
  {
    var row := List([EmptyCell, EmptyCell, EmptyCell]);
    List([row, row, row])
  }

  /** `all(all(cell != '' for cell in row) for row in board)`. */
  predicate IsFull(b: Value)
    requires IsGrid(b)
  {
    forall r, c :: 0 <= r < 3 && 0 <= c < 3 ==> Cell(b, r, c) != EmptyCell
  }

  datatype Pos = Pos(r: int, c: int)

  /** Three cells that make a line. */
  predicate IsLine(l: seq<Pos>)
  {
    |l| == 3 && forall k :: 0 <= k < 3 ==> InRange(l[k].r, l[k].c)
  }

  /** The eight lines in the order `check_winner` tests them: row i then column i for i = 0, 1, 2, then both diagonals. */
  function ScanOrder(): (ls: seq<seq<Pos>>)
    ensures |ls| == 8 && forall k :: 0 <= k < |ls| ==> IsLine(ls[k])
    ensures forall i :: 0 <= i < 3 ==> ls[2 * i] == RowLine(i) && ls[2 * i + 1] == ColumnLine(i)
  {
    [ RowLine(0), ColumnLine(0), RowLine(1), ColumnLine(1), RowLine(2), ColumnLine(2),
      [Pos(0, 0), Pos(1, 1), Pos(2, 2)], [Pos(0, 2), Pos(1, 1), Pos(2, 0)] ]
  }

  function RowLine(i: int): seq<Pos>
  {
    [Pos(i, 0), Pos(i, 1), Pos(i, 2)]
  }

  function ColumnLine(i: int): seq<Pos>
  {
    [Pos(0, i), Pos(1, i), Pos(2, i)]
  }

  function At(b: Value, p: Pos): Value
    requires IsGrid(b) && InRange(p.r, p.c)
  {
    Cell(b, p.r, p.c)
  }

  /** `a == b == c != ''`. */
  predicate Completed(b: Value, l: seq<Pos>)
    requires IsGrid(b) && IsLine(l)
  {
    At(b, l[0]) == At(b, l[1]) && At(b, l[1]) == At(b, l[2]) && At(b, l[2]) != EmptyCell
  }

  /** Some line of the board holds `x` in all three cells, and `x` is not the empty cell. */
  predicate HasLine(b: Value, x: Value)
    requires IsGrid(b)
  {
    exists k :: 0 <= k < 8 && Completed(b, ScanOrder()[k]) && At(b, ScanOrder()[k][0]) == x
  }

  predicate NoLine(b: Value)
    requires IsGrid(b)
  {
    forall k :: 0 <= k < 8 ==> !Completed(b, ScanOrder()[k])
  }

  /**
   * The cell value of the first completed line of `ls`, or `None` when no line is complete.
   * A line of `None` cells reports `None` too, exactly as the source's `return board[i][0]` does.
   */
  function FirstCompleted(b: Value, ls: seq<seq<Pos>>): (w: Value)
    requires IsGrid(b) && forall k :: 0 <= k < |ls| ==> IsLine(ls[k])
    ensures w != Null ==> w != EmptyCell && exists k :: 0 <= k < |ls| && Completed(b, ls[k]) && At(b, ls[k][0]) == w
    ensures (forall k :: 0 <= k < |ls| ==> !Completed(b, ls[k])) ==> w == Null
    ensures (forall k :: 0 <= k < |ls| ==> IsLine(ls[k]) && At(b, ls[k][0]) != Null) && w == Null ==>
              forall k :: 0 <= k < |ls| ==> !Completed(b, ls[k])
  {
    if ls == [] then Null
    else if Completed(b, ls[0]) then At(b, ls[0][0])
    else FirstCompleted(b, ls[1..])
  }

  /** What `check_winner(board)` returns (Null for `None`). */
  function Winner(b: Value): Value
    requires IsGrid(b)
  {
    FirstCompleted(b, ScanOrder())
  }

  /**
   * `check_winner` names a symbol only if that symbol fills some line, and on a
   * board without `None` cells it returns `None` exactly when no line is complete.
   */
  lemma WinnerIsLineOwner(b: Value)
    requires IsGrid(b)
    ensures Winner(b) != Null ==> Winner(b) != EmptyCell && HasLine(b, Winner(b))
    ensures NoLine(b) ==> Winner(b) == Null
    ensures (forall r, c :: InRange(r, c) ==> Cell(b, r, c) != Null) ==> (Winner(b) == Null <==> NoLine(b))
  {
    var w := Winner(b);
    if w != Null {
      var k :| 0 <= k < 8 && Completed(b, ScanOrder()[k]) && At(b, ScanOrder()[k][0]) == w;
      assert HasLine(b, w);
    }
    if (forall r, c :: InRange(r, c) ==> Cell(b, r, c) != Null) && w == Null {
      forall k | 0 <= k < 8 ensures !Completed(b, ScanOrder()[k]) {
        var p := ScanOrder()[k][0];
        assert IsLine(ScanOrder()[k]);
        assert At(b, p) != Null;
      }
    }
  }

  /** The empty board has no winner and is not full. */
  lemma EmptyGridIsOpen()
    ensures Winner(EmptyGrid()) == Null
    ensures !IsFull(EmptyGrid())
  {
    var b := EmptyGrid();
    assert Cell(b, 0, 0) == EmptyCell;
    forall k | 0 <= k < 8 ensures !Completed(b, ScanOrder()[k]) {
      assert IsLine(ScanOrder()[k]);
    }
  }

  /** When every completed line of `ls` holds `x`, the first completed one does too (or none is). */
  lemma {:induction false} FirstCompletedIsOnly(b: Value, ls: seq<seq<Pos>>, x: Value)
    requires IsGrid(b) && forall k :: 0 <= k < |ls| ==> IsLine(ls[k])
    requires forall k :: 0 <= k < |ls| && Completed(b, ls[k]) ==> At(b, ls[k][0]) == x
    ensures FirstCompleted(b, ls) == Null || FirstCompleted(b, ls) == x
  {
    if ls != [] && !Completed(b, ls[0]) {
      FirstCompletedIsOnly(b, ls[1..], x);
    }
  }

  /** A line that avoids cell (r, c) is complete after `SetCell(b, r, c, x)` exactly when it was before. */
  lemma LineAvoidingCell(b: Value, r: int, c: int, x: Value, l: seq<Pos>)
    requires IsGrid(b) && InRange(r, c) && IsLine(l)
    ensures (forall j :: 0 <= j < 3 ==> l[j] != Pos(r, c)) ==>
              (Completed(SetCell(b, r, c, x), l) <==> Completed(b, l))
  {
  }

  /**
   * Placing `x` on a board with no completed line can only complete lines through
   * the placed cell, so the winner afterwards is `x` or nobody.
   */
  lemma MoveWinnerIsMover(b: Value, r: int, c: int, x: Value)
    requires IsGrid(b) && InRange(r, c) && NoLine(b)
    ensures Winner(SetCell(b, r, c, x)) == Null || Winner(SetCell(b, r, c, x)) == x
  {
    var b' := SetCell(b, r, c, x);
    var ls := ScanOrder();
    forall k | 0 <= k < 8 && Completed(b', ls[k]) ensures At(b', ls[k][0]) == x {
      var l := ls[k];
      LineAvoidingCell(b, r, c, x, l);
      assert !Completed(b, l);
      var j :| 0 <= j < 3 && l[j] == Pos(r, c);
      assert At(b', l[j]) == x;
    }
    FirstCompletedIsOnly(b', ls, x);
  }

  datatype Placement =
    | Rejected                   // out of range, or the cell is truthy: the move is ignored
    | Raises(failure: Failure)   // a coordinate is not an integer, so a comparison raises
    | Free(r: nat, c: nat)       // the move goes ahead on this empty cell

  /**
   * The move check shared by both servers. It compares `row` first and only
   * looks at `col` when `row` is in range, exactly as Python's short-circuit
   * evaluation does; `bool` coordinates count as 0 and 1.
   */
  function CheckPlacement(b: Value, row: Value, col: Value): (p: Placement)
    requires IsGrid(b)
    ensures p.Free? <==> AsInt(row).Some? && AsInt(col).Some? && InRange(AsInt(row).value, AsInt(col).value) &&
                         !Truthy(Cell(b, AsInt(row).value, AsInt(col).value))
    ensures p.Free? ==> p.r == AsInt(row).value && p.c == AsInt(col).value
    ensures p.Raises? <==> AsInt(row).None? || (0 <= AsInt(row).value < 3 && AsInt(col).None?)
    ensures p.Raises? ==> p.failure == TypeError
  {
    match AsInt(row)
    case None => Raises(TypeError)
    case Some(r) =>
      if !(0 <= r < 3) then Rejected
      else
        match AsInt(col)
        case None => Raises(TypeError)
        case Some(c) =>
          if !(0 <= c < 3) || Truthy(Cell(b, r, c)) then Rejected else Free(r, c)
  }

  /** Lines known not to be complete can be skipped. */
  lemma {:induction false} FirstCompletedSkip(b: Value, ls: seq<seq<Pos>>, k: nat)
    requires IsGrid(b) && forall j :: 0 <= j < |ls| ==> IsLine(ls[j])
    requires k <= |ls| && forall j :: 0 <= j < k ==> !Completed(b, ls[j])
    ensures FirstCompleted(b, ls) == FirstCompleted(b, ls[k..])
  {
    if k > 0 {
      FirstCompletedSkip(b, ls[1..], k - 1);
      assert ls[1..][k - 1..] == ls[k..];
    }
  }

  /**
   * `check_winner`: tests row i and column i for i = 0, 1, 2, then the two
   * diagonals, and returns the first complete line's value.
   */
  method CheckWinner(b: Value) returns (w: Value)
    requires IsGrid(b)
    ensures w == Winner(b)
  {
    var ls := ScanOrder();
    var i := 0;
    while i < 3
      invariant 0 <= i <= 3
      invariant forall k :: 0 <= k < 2 * i ==> !Completed(b, ls[k])
    {
      assert ls[2 * i] == RowLine(i) && ls[2 * i + 1] == ColumnLine(i);
      if Completed(b, RowLine(i)) {
        FirstCompletedSkip(b, ls, 2 * i);
        return Cell(b, i, 0);
      }
      if Completed(b, ColumnLine(i)) {
        FirstCompletedSkip(b, ls, 2 * i + 1);
        return Cell(b, 0, i);
      }
      i := i + 1;
    }
    w := CheckDiagonals(b);
  }

  /** The tail of `check_winner`, reached once no row or column is complete: the main diagonal, then the anti-diagonal. */
  method CheckDiagonals(b: Value) returns (w: Value)
    requires IsGrid(b) && forall k :: 0 <= k < 6 ==> !Completed(b, ScanOrder()[k])
    ensures w == Winner(b)
  {
    var ls := ScanOrder();
    FirstCompletedSkip(b, ls, 6);
    assert ls[6..] == [ls[6], ls[7]];
    if Cell(b, 0, 0) == Cell(b, 1, 1) && Cell(b, 1, 1) == Cell(b, 2, 2) && Cell(b, 2, 2) != EmptyCell {
      return Cell(b, 0, 0);
    }
    assert ls[6..][1..] == [ls[7]];
    if Cell(b, 0, 2) == Cell(b, 1, 1) && Cell(b, 1, 1) == Cell(b, 2, 0) && Cell(b, 2, 0) != EmptyCell {
      return Cell(b, 0, 2);
    }
    return Null;
  }
}
