/**
 * The board: nine cells in row-major order (cell `3 * row + col`), each
 * empty or holding an X or an O. In the source a cell is `null`, "X" or "O".
 */
module Board {

  datatype Mark = Empty | X | O

  /** A cell index as the board hands it out. */
  type Cell = i: int | 0 <= i < 9

  /** One board snapshot: exactly nine marks. */
  type Squares = b: seq<Mark> | |b| == 9
    witness [Empty, Empty, Empty, Empty, Empty, Empty, Empty, Empty, Empty]

  /** The starting board, every cell empty. */
  const EmptyBoard: Squares := [Empty, Empty, Empty, Empty, Empty, Empty, Empty, Empty, Empty]

  /** The mark placed by the player to move: X when X is next, O otherwise. */
  function Player(xIsNext: bool): (m: Mark)
    ensures m != Empty
    ensures m == X <==> xIsNext
  {
    if xIsNext then X else O
  }

  /** The number of cells of `b` holding `m`. */
  function Count(b: seq<Mark>, m: Mark): (n: nat)
    ensures n <= |b|
    ensures n == 0 <==> m !in b
  {
    if b == [] then 0 else (if b[0] == m then 1 else 0) + Count(b[1..], m)
  }

  /** The number of marks (X or O) on the board. */
  function MarkCount(b: seq<Mark>): nat {
    Count(b, X) + Count(b, O)
  }

  /** Every cell holds exactly one of the three values. */
  lemma {:induction false} CountPartition(b: seq<Mark>)
    ensures Count(b, X) + Count(b, O) + Count(b, Empty) == |b|
  {
    if b != [] {
      CountPartition(b[1..]);
    }
  }

  /** Overwriting one cell moves one unit of count from the old value to the new one. */
  lemma {:induction false} CountUpdate(b: seq<Mark>, i: nat, m: Mark, x: Mark)
    requires i < |b|
    ensures Count(b[i := m], x)
         == Count(b, x) - (if b[i] == x then 1 else 0) + (if m == x then 1 else 0)
  {
    if i > 0 {
      assert b[i := m][1..] == b[1..][i - 1 := m];
      CountUpdate(b[1..], i - 1, m, x);
    }
  }

  /** A full board carries nine marks; fewer than nine marks leave an empty cell. */
  lemma FullIffNineMarks(b: Squares)
    ensures Empty !in b <==> MarkCount(b) == 9
  {
    CountPartition(b);
  }

  /** Any board holds at most nine marks. */
  lemma MarkCountBound(b: Squares)
    ensures MarkCount(b) <= 9
  {
    CountPartition(b);
  }

  /** Three different cells holding `m` make `m` appear at least three times. */
  lemma CountAtLeastThree(b: seq<Mark>, i: nat, j: nat, k: nat, m: Mark)
    requires i < |b| && j < |b| && k < |b| && i != j && j != k && i != k
    requires m != Empty && b[i] == m && b[j] == m && b[k] == m
    ensures Count(b, m) >= 3
  {
    var b1 := b[i := Empty];
    var b2 := b1[j := Empty];
    CountUpdate(b, i, Empty, m);
    CountUpdate(b1, j, Empty, m);
    CountUpdate(b2, k, Empty, m);
  }
}
