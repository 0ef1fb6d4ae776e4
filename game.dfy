/** The state machine of `useTicTacToe`: the four state fields and the three
    handlers that update them. React's setters are plain assignments here;
    every handler reads only the values the fields had when it was called. */
module Game {
  import opened Boards
  import opened Outcome
  import opened History

  class TicTacToe {
    var squares: Board
    var xIsNext: bool
    var gameHistory: seq<Board>
    var currentMove: int

    /** The stored fields agree with each other: `squares` and `xIsNext` are
        the board and the turn that `gameHistory` and `currentMove` determine,
        and the history is one the game could have built. */
    ghost predicate Valid()
      reads this
    {
      0 <= currentMove < |gameHistory| &&
      squares == gameHistory[currentMove] &&
      xIsNext == (currentMove % 2 == 0) &&
      WellFormed(gameHistory)
    }

    /** The initial `useState` values: an empty board, X to move, a history
        holding only the empty board, and the pointer at it. */
    constructor ()
      ensures Valid()
      ensures squares == EmptyBoard() && xIsNext
      ensures gameHistory == [EmptyBoard()] && currentMove == 0
    {
      squares := EmptyBoard();
      xIsNext := true;
      gameHistory := [EmptyBoard()];
      currentMove := 0;
    }

    /** `winner`: a winner exists only after some move, and it is the player
        who made the last move. */
    function CurrentWinner(): (w: Cell)
      reads this
      requires Valid()
      ensures w != Empty <==> HasLine(squares)
      ensures w != Empty ==> currentMove > 0 && w == MoverAt(currentMove - 1)
    {
      LastMoverWins();
      Winner(squares)
    }

    /** `winningLine`: present exactly when there is a winner; it is the first
        of the eight lines, in scan order, that is complete, and it carries
        the winner's mark in all three squares. */
    function CurrentWinningLine(): (r: Option<Line>)
      reads this
      requires Valid()
      ensures r.Some? <==> CurrentWinner() != Empty
      ensures r.Some? ==> r.value in Lines && Completes(squares, r.value)
      ensures forall i :: (0 <= i < |Lines| && Completes(squares, Lines[i]) &&
                           forall j :: 0 <= j < i ==> !Completes(squares, Lines[j]))
                          ==> r == Some(Lines[i])
      ensures r.Some? ==> var l := r.value;
        squares[l.a] == squares[l.b] == squares[l.c] == CurrentWinner()
    {
      WinnerOnWinningLine(squares);
      forall i | 0 <= i < |Lines| && Completes(squares, Lines[i]) &&
        (forall j :: 0 <= j < i ==> !Completes(squares, Lines[j]))
        ensures WinningLine(squares) == Some(Lines[i])
      {
        WinnerIsFirstCompleteLine(squares, i);
      }
      WinningLine(squares)
    }

    /** `isDraw`: the game is drawn exactly when nine moves have been made
        and none of them completed a line. */
    function CurrentIsDraw(): (d: bool)
      reads this
      requires Valid()
      ensures d <==> !HasLine(squares) && currentMove == 9
    {
      FilledAtIndex(gameHistory, currentMove);
      FilledAll(squares);
      IsDraw(squares)
    }

    /** `status`: while the game goes on, it names X after an even number of
        moves and O after an odd number. */
    function CurrentStatus(): (s: string)
      reads this
      requires Valid()
      ensures CurrentWinner() == X ==> s == "Winner: X"
      ensures CurrentWinner() == O ==> s == "Winner: O"
      ensures CurrentIsDraw() ==> s == "Game ended in a draw!"
      ensures !HasLine(squares) && !CurrentIsDraw() ==>
        s == (if currentMove % 2 == 0 then "Next player: X" else "Next player: O")
    {
      Status(squares, xIsNext)
    }

    /** A board with a complete line was reached by a move, and every line it
        completes carries the mark of whoever made that move. */
    lemma LastMoverWins()
      requires Valid()
      ensures HasLine(squares) ==> currentMove > 0 && Winner(squares) == MoverAt(currentMove - 1)
    {
      EmptyBoardHasNoLine();
      if currentMove > 0 && HasLine(squares) {
        assert StepAt(gameHistory, currentMove - 1);
        NewLinesBelongToMover(gameHistory[currentMove - 1], squares, MoverAt(currentMove - 1));
        var f := FirstLine(squares);
        assert squares[Lines[f.value].a] == MoverAt(currentMove - 1);
      }
    }

    /** `handleSquareClick`: ignored after a win or on a filled square;
        otherwise the mover's mark goes into a copy of the board, the history
        after the current move is dropped, the copy is appended, and the turn
        passes. */
    method HandleSquareClick(index: int)
      requires Valid() && 0 <= index < 9
      modifies this
      ensures Valid()
      ensures old(Winner(squares)) != Empty || old(squares[index]) != Empty ==>
        squares == old(squares) && xIsNext == old(xIsNext) &&
        gameHistory == old(gameHistory) && currentMove == old(currentMove)
      ensures old(Winner(squares)) == Empty && old(squares[index]) == Empty ==>
        squares == old(squares)[index := if old(xIsNext) then X else O] &&
        gameHistory == old(gameHistory)[..old(currentMove) + 1] + [squares] &&
        currentMove == old(currentMove) + 1 == |gameHistory| - 1 &&
        xIsNext == !old(xIsNext)
    {
      var winner := CalculateWinner(squares);
      if winner != Empty || squares[index] != Empty {
        return;
      }

      var nextSquares := squares[index := if xIsNext then X else O];
      var nextHistory := gameHistory[..currentMove + 1] + [nextSquares];

      ghost var h, cm := gameHistory, currentMove;
      forall k: nat | k + 1 < |nextHistory| ensures StepAt(nextHistory, k) {
        if k < cm {
          assert StepAt(h, k);
          assert nextHistory[k] == h[k] && nextHistory[k + 1] == h[k + 1];
        } else {
          assert MoveAt(nextHistory[k], nextHistory[k + 1], index, MoverAt(k));
        }
      }

      gameHistory := nextHistory;
      currentMove := |nextHistory| - 1;
      squares := nextSquares;
      xIsNext := !xIsNext;
    }

    /** `resetGame`: back to the initial state, whatever the state before. */
    method ResetGame()
      modifies this
      ensures Valid()
      ensures squares == EmptyBoard() && xIsNext
      ensures gameHistory == [EmptyBoard()] && currentMove == 0
    {
      squares := EmptyBoard();
      xIsNext := true;
      gameHistory := [EmptyBoard()];
      currentMove := 0;
    }

    /** `jumpToMove`: moves the pointer and re-derives the board and the turn
        from it; the history is kept, so jumping to 0 shows the empty board
        with X to move. */
    method JumpToMove(move: int)
      requires Valid() && 0 <= move < |gameHistory|
      modifies this
      ensures Valid()
      ensures currentMove == move && gameHistory == old(gameHistory)
      ensures squares == gameHistory[move] && xIsNext == (move % 2 == 0)
      ensures move == 0 ==> squares == EmptyBoard() && xIsNext
    {
      currentMove := move;
      squares := gameHistory[move];
      xIsNext := move % 2 == 0;
    }
  }

  /** Time travel branches the timeline: after three moves, going back to
      move 1 and playing again leaves a history of three boards. */
  method TimeTravelScenario() {
    var game := new TicTacToe();
    game.HandleSquareClick(0);
    game.HandleSquareClick(4);
    game.HandleSquareClick(8);
    assert |game.gameHistory| == 4 && game.currentMove == 3;
    game.JumpToMove(1);
    assert game.squares == EmptyBoard()[0 := X] && !game.xIsNext;
    game.HandleSquareClick(2);
    assert |game.gameHistory| == 3 && game.currentMove == 2;
    assert game.squares == EmptyBoard()[0 := X][2 := O];
    assert game.CurrentStatus() == "Next player: X";
  }
}
