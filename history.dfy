/** The shape of a game history: each snapshot is the one before it with one
    more mark, the players alternate starting with X, and no move is made
    once a board has a complete line. */
module History {
  import opened Boards
  import opened Outcome

  /** The mark of the player to move at history index `m`: the hook's
      `xIsNext ? "X" : "O"` with `xIsNext == (m % 2 == 0)`. */
  function MoverAt(m: nat): (c: Cell)
    ensures c != Empty
    ensures c == X <==> m % 2 == 0
  {
    if m % 2 == 0 then X else O
  }

  /** `next` is `prev` with the empty square `i` now holding `mover`. */
  predicate MoveAt(prev: Board, next: Board, i: Index, mover: Cell) {
    prev[i] == Empty && next[i] == mover &&
    forall j :: 0 <= j < |next| && j != i ==> next[j] == prev[j]
  }

  /** `next` differs from `prev` in exactly one square, which goes from empty
      to `mover`. */
  ghost predicate OneMove(prev: Board, next: Board, mover: Cell) {
    exists i: Index :: MoveAt(prev, next, i, mover)
  }

  /** The step from `h[k]` to `h[k + 1]` is a move by the player whose turn
      it was, made on a board with no complete line. */
  ghost predicate StepAt(h: seq<Board>, k: nat)
    requires k + 1 < |h|
  {
    !HasLine(h[k]) && OneMove(h[k], h[k + 1], MoverAt(k))
  }

  /** A history as the game builds it: it starts at the empty board and every
      later snapshot is one legal move after the one before it. */
  ghost predicate WellFormed(h: seq<Board>) {
    |h| >= 1 && h[0] == EmptyBoard() &&
    forall k: nat :: k + 1 < |h| ==> StepAt(h, k)
  }

  /** A move writes one mark into one empty square. */
  lemma {:induction false} MoveFillsOne(prev: Board, next: Board, mover: Cell)
    requires mover != Empty && OneMove(prev, next, mover)
    ensures Filled(next) == Filled(prev) + 1
  {
    var i: Index :| MoveAt(prev, next, i, mover);
    assert next == prev[i := mover];
    FilledUpdate(prev, i, mover);
  }

  /** The board at history index `k` holds exactly `k` marks. */
  lemma {:induction false} FilledAtIndex(h: seq<Board>, k: nat)
    requires WellFormed(h) && k < |h|
    ensures Filled(h[k]) == k
  {
    if k == 0 {
      assert Filled(h[0]) == 0;
    } else {
      FilledAtIndex(h, k - 1);
      assert StepAt(h, k - 1);
      MoveFillsOne(h[k - 1], h[k], MoverAt(k - 1));
    }
  }

  /** A game history never holds more than ten boards: the empty board and
      one per square. */
  lemma HistoryBounded(h: seq<Board>)
    requires WellFormed(h)
    ensures |h| <= 10
  {
    FilledAtIndex(h, |h| - 1);
  }

  /** The tenth board of a history is full. */
  lemma NinthMoveFillsBoard(h: seq<Board>)
    requires WellFormed(h) && |h| == 10
    ensures IsFull(h[9])
  {
    FilledAtIndex(h, 9);
    FilledAll(h[9]);
  }

  /** A move on a board with no complete line can only complete lines
      through the square just written, so every complete line afterwards
      carries the mover's mark. */
  lemma NewLinesBelongToMover(prev: Board, next: Board, mover: Cell)
    requires !HasLine(prev) && OneMove(prev, next, mover)
    ensures forall j :: 0 <= j < |Lines| && Completes(next, Lines[j]) ==> next[Lines[j].a] == mover
  {
  }

  /** On every board of a history, all complete lines carry the same mark,
      so the order in which the lines are scanned can change only which line
      is reported, never the winner. */
  lemma OneWinnerPerBoard(h: seq<Board>, k: nat)
    requires WellFormed(h) && k < |h|
    ensures forall j :: 0 <= j < |Lines| && Completes(h[k], Lines[j]) ==> h[k][Lines[j].a] == Winner(h[k])
  {
    if k > 0 {
      assert StepAt(h, k - 1);
      NewLinesBelongToMover(h[k - 1], h[k], MoverAt(k - 1));
      var f := FirstLine(h[k]);
      if f.Some? {
        assert h[k][Lines[f.value].a] == MoverAt(k - 1);
      }
    } else {
      EmptyBoardHasNoLine();
    }
  }
}
