/** Squares and boards of a tic-tac-toe game.

    A square holds "X", "O" or nothing (null in the hook's `SquareValue`);
    a board is the nine squares in row-major order. */
module Boards {

  datatype Cell = Empty | X | O

  /** A square index, 0..8. */
  type Index = i: nat | i < 9

  /** `BoardState`: always exactly nine squares. */
  type Board = b: seq<Cell> | |b| == 9
    witness [Empty, Empty, Empty, Empty, Empty, Empty, Empty, Empty, Empty]

  /** `Array(9).fill(null)`. */
  function EmptyBoard(): (b: Board)
    ensures forall i :: 0 <= i < |b| ==> b[i] == Empty
  {
    [Empty, Empty, Empty, Empty, Empty, Empty, Empty, Empty, Empty]
  }

  /** `squares.every((square) => square !== null)`. */
  predicate IsFull(b: Board) {
    forall i :: 0 <= i < |b| ==> b[i] != Empty
  }

  /** Number of squares of `s` that hold a mark. */
  function Filled(s: seq<Cell>): (n: nat)
    ensures n <= |s|
    ensures n == 0 <==> forall i :: 0 <= i < |s| ==> s[i] == Empty
  {
    if s == [] then 0 else (if s[0] == Empty then 0 else 1) + Filled(s[1..])
  }

  /** Writing a mark into an empty square fills exactly one more square. */
  lemma {:induction false} FilledUpdate(s: seq<Cell>, i: nat, c: Cell)
    requires i < |s| && s[i] == Empty && c != Empty
    ensures Filled(s[i := c]) == Filled(s) + 1
  {
    if i == 0 {
      assert s[i := c][1..] == s[1..];
    } else {
      FilledUpdate(s[1..], i - 1, c);
      assert s[i := c][1..] == s[1..][i - 1 := c];
    }
  }

  /** A board whose nine squares all hold a mark is exactly a full board. */
  lemma {:induction false} FilledAll(s: seq<Cell>)
    ensures Filled(s) == |s| <==> forall i :: 0 <= i < |s| ==> s[i] != Empty
  {
    if s != [] {
      FilledAll(s[1..]);
      assert forall i :: 0 < i < |s| ==> s[i] == s[1..][i - 1];
    }
  }
}
