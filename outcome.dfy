/** The outcome evaluator: winner, winning line, draw and status message of a
    board, all computed from the board (and whose turn it is) alone. */
module Outcome {
  import opened Boards

  datatype Option<T> = None | Some(value: T)

  /** Three square indices; `WinningLine` in the hook is such a triple. */
  datatype Line = Line(a: Index, b: Index, c: Index)

  /** The eight lines, in the order the hook scans them: rows, columns,
      diagonals. */
  const Lines: seq<Line> := [
    Line(0, 1, 2), Line(3, 4, 5), Line(6, 7, 8),
    Line(0, 3, 6), Line(1, 4, 7), Line(2, 5, 8),
    Line(0, 4, 8), Line(2, 4, 6)
  ]

  /** The test inside the scan: the first square holds a mark and the other
      two hold the same one. */
  predicate Completes(bd: Board, l: Line) {
    bd[l.a] != Empty && bd[l.a] == bd[l.b] && bd[l.a] == bd[l.c]
  }

  /** Some line of the board is complete. */
  predicate HasLine(bd: Board) {
    exists i :: 0 <= i < |Lines| && Completes(bd, Lines[i])
  }

  /** The index, among `Lines[k..]`, of the first complete line. */
  function FirstLineFrom(bd: Board, k: nat): (r: Option<nat>)
    requires k <= |Lines|
    ensures r.Some? ==> k <= r.value < |Lines| && Completes(bd, Lines[r.value])
    ensures r.Some? ==> forall j :: k <= j < r.value ==> !Completes(bd, Lines[j])
    ensures r.None? <==> forall j :: k <= j < |Lines| ==> !Completes(bd, Lines[j])
    decreases |Lines| - k
  {
    if k == |Lines| then None
    else if Completes(bd, Lines[k]) then Some(k)
    else FirstLineFrom(bd, k + 1)
  }

  /** The index of the first complete line, in scan order. */
  function FirstLine(bd: Board): (r: Option<nat>)
    ensures r.None? <==> !HasLine(bd)
    ensures r.Some? ==> r.value < |Lines| && Completes(bd, Lines[r.value])
    ensures r.Some? ==> forall j :: 0 <= j < r.value ==> !Completes(bd, Lines[j])
  {
    FirstLineFrom(bd, 0)
  }

  /** The value `calculateWinner` returns: the mark on the first complete
      line, or `Empty` (the hook's null) when there is none. */
  function Winner(bd: Board): (w: Cell)
    ensures w != Empty <==> HasLine(bd)
  {
    match FirstLine(bd)
    case None => Empty
    case Some(i) => bd[Lines[i].a]
  }

  /** The value `getWinningLine` returns: the first complete line, if any. */
  function WinningLine(bd: Board): (r: Option<Line>)
    ensures r.Some? <==> HasLine(bd)
    ensures r.Some? ==> r.value in Lines && Completes(bd, r.value)
  {
    match FirstLine(bd)
    case None => None
    case Some(i) => Some(Lines[i])
  }

  /** `calculateWinner`: scans the eight lines in order and returns the mark
      of the first complete one, or `Empty`. */
  method CalculateWinner(bd: Board) returns (w: Cell)
    ensures w == Winner(bd)
  {
    var i := 0;
    while i < |Lines|
      invariant 0 <= i <= |Lines|
      invariant FirstLine(bd) == FirstLineFrom(bd, i)
    {
      var line := Lines[i];
      if bd[line.a] != Empty && bd[line.a] == bd[line.b] && bd[line.a] == bd[line.c] {
        return bd[line.a];
      }
      i := i + 1;
    }
    return Empty;
  }

  /** `getWinningLine`: the same scan, returning the line itself. */
  method GetWinningLine(bd: Board) returns (r: Option<Line>)
    ensures r == WinningLine(bd)
  {
    var i := 0;
    while i < |Lines|
      invariant 0 <= i <= |Lines|
      invariant FirstLine(bd) == FirstLineFrom(bd, i)
    {
      var line := Lines[i];
      if bd[line.a] != Empty && bd[line.a] == bd[line.b] && bd[line.a] == bd[line.c] {
        return Some(line);
      }
      i := i + 1;
    }
    return None;
  }

  /** The two scans agree: there is a winning line exactly when there is a
      winner, and the winner is the mark on that line's first square. */
  lemma WinnerOnWinningLine(bd: Board)
    ensures WinningLine(bd).Some? <==> Winner(bd) != Empty
    ensures WinningLine(bd).Some? ==> Winner(bd) == bd[WinningLine(bd).value.a]
    ensures WinningLine(bd).Some? ==> Winner(bd) == bd[WinningLine(bd).value.b] == bd[WinningLine(bd).value.c]
  {
  }

  /** The winner is the mark of the first complete line in scan order: for
      every line index `i` that is complete and preceded by no complete line,
      the winner is the mark on line `i`. */
  lemma WinnerIsFirstCompleteLine(bd: Board, i: nat)
    requires i < |Lines| && Completes(bd, Lines[i])
    requires forall j :: 0 <= j < i ==> !Completes(bd, Lines[j])
    ensures Winner(bd) == bd[Lines[i].a]
    ensures WinningLine(bd) == Some(Lines[i])
  {
  }

  /** The starting board has no winner. */
  lemma EmptyBoardHasNoLine()
    ensures !HasLine(EmptyBoard()) && Winner(EmptyBoard()) == Empty
  {
  }

  /** `isDraw`: no winner and every square filled. */
  function IsDraw(bd: Board): (d: bool)
    ensures d <==> !HasLine(bd) && IsFull(bd)
  {
    Winner(bd) == Empty && IsFull(bd)
  }

  function Mark(c: Cell): string {
    match c
    case Empty => ""
    case X => "X"
    case O => "O"
  }

  /** `status`: the winner takes precedence over a draw, and a game still
      going names the player whose turn it is. */
  function Status(bd: Board, xIsNext: bool): (s: string)
    ensures HasLine(bd) ==> s == "Winner: " + Mark(Winner(bd))
    ensures HasLine(bd) ==> s == "Winner: X" || s == "Winner: O"
    ensures !HasLine(bd) && IsFull(bd) ==> s == "Game ended in a draw!"
    ensures !HasLine(bd) && !IsFull(bd) ==> s == (if xIsNext then "Next player: X" else "Next player: O")
  {
    var winner := Winner(bd);
    if winner != Empty then "Winner: " + Mark(winner)
    else if IsDraw(bd) then "Game ended in a draw!"
    else "Next player: " + (if xIsNext then "X" else "O")
  }

  /** Concrete scenario: X completes the top row. */
  lemma TopRowWin()
    ensures var bd: Board := [X, X, X, O, O, Empty, Empty, Empty, Empty];
      Winner(bd) == X && WinningLine(bd) == Some(Line(0, 1, 2)) && Status(bd, false) == "Winner: X"
  {
  }

  /** Concrete scenario: a full board with no complete line is a draw. */
  lemma FullBoardDraw()
    ensures var bd: Board := [X, O, X, X, O, O, O, X, X];
      Winner(bd) == Empty && IsDraw(bd) && Status(bd, true) == "Game ended in a draw!"
  {
  }
}
