/**
  Each player's total, derived from the score table on every read: a left fold over
  the rounds in which every column's running total is clamped at zero after each
  round, not only at the end.
 */
module Totals {
  import opened Ledger

  /** `max(0, x)`: a running total never drops below zero. */
  function Floor(x: int): (r: int)
    ensures r >= 0 && r >= x
    ensures r == 0 || r == x
  {
    if x < 0 then 0 else x
  }

  /** Folds one more round into the running totals, clamping each column. */
  function AddRound(acc: seq<int>, row: Row): (r: seq<int>)
    requires |acc| == |row|
    ensures |r| == |row|
    ensures forall j :: 0 <= j < |row| ==> r[j] == Floor(acc[j] + row[j])
  {
    seq(|row|, j requires 0 <= j < |row| => Floor(acc[j] + row[j]))
  }

  /**
    The totals of all `n` players over the table, starting from zero for everyone.
    There is one total per player, none is negative, and an empty table gives zeros.
   */
  function TotalScores(t: Table, n: nat): (r: seq<int>)
    requires Rectangular(t, n)
    ensures |r| == n
    ensures forall j :: 0 <= j < n ==> r[j] >= 0
    ensures |t| == 0 ==> r == Zeros(n)
    decreases |t|
  {
    if |t| == 0 then Zeros(n)
    else AddRound(TotalScores(t[..|t| - 1], n), t[|t| - 1])
  }

  /** The clamped running total of a single column, as a reference definition. */
  function ColumnTotal(col: seq<int>): (r: int)
    ensures r >= 0
    decreases |col|
  {
    if |col| == 0 then 0
    else Floor(ColumnTotal(col[..|col| - 1]) + col[|col| - 1])
  }

  /** The plain sum of a column, with no clamping at all. */
  function Sum(col: seq<int>): (r: int)
    decreases |col|
  {
    if |col| == 0 then 0 else Sum(col[..|col| - 1]) + col[|col| - 1]
  }

  /** A player's total depends only on that player's own column. */
  lemma {:induction false} TotalScoresByColumn(t: Table, n: nat, j: int)
    requires Rectangular(t, n) && 0 <= j < n
    ensures TotalScores(t, n)[j] == ColumnTotal(Column(t, j))
    decreases |t|
  {
    if |t| > 0 {
      var front := t[..|t| - 1];
      TotalScoresByColumn(front, n, j);
      assert Column(t, j)[..|t| - 1] == Column(front, j);
    }
  }

  /** Without negative cells, clamping never bites: the total is the plain sum. */
  lemma {:induction false} ColumnTotalOfNonNegative(col: seq<int>)
    requires forall k :: 0 <= k < |col| ==> col[k] >= 0
    ensures ColumnTotal(col) == Sum(col)
    decreases |col|
  {
    if |col| > 0 {
      ColumnTotalOfNonNegative(col[..|col| - 1]);
    }
  }

  /**
    Clamping after every round never yields less than the plain sum, nor less than
    the sum clamped once at the end.
   */
  lemma {:induction false} ColumnTotalDominatesSum(col: seq<int>)
    ensures ColumnTotal(col) >= Sum(col)
    ensures ColumnTotal(col) >= Floor(Sum(col))
    decreases |col|
  {
    if |col| > 0 {
      ColumnTotalDominatesSum(col[..|col| - 1]);
    }
  }

  /** When no cell is negative, every player's total is the plain column sum. */
  lemma TotalScoresOfNonNegative(t: Table, n: nat, j: int)
    requires Rectangular(t, n) && 0 <= j < n
    requires forall i :: 0 <= i < |t| ==> t[i][j] >= 0
    ensures TotalScores(t, n)[j] == Sum(Column(t, j))
  {
    TotalScoresByColumn(t, n, j);
    ColumnTotalOfNonNegative(Column(t, j));
  }

  /** Opening a round that nobody has played yet leaves every total as it was. */
  lemma AppendZeroRoundKeepsTotals(t: Table, n: nat)
    requires Rectangular(t, n)
    ensures Rectangular(t + [Zeros(n)], n)
    ensures TotalScores(t + [Zeros(n)], n) == TotalScores(t, n)
  {
    var t' := t + [Zeros(n)];
    assert t'[..|t'| - 1] == t;
    var before := TotalScores(t, n);
    assert AddRound(before, Zeros(n)) == before;
  }

  /**
    The rounds [[400, 0], [-500, 0], [0, 400]] give [0, 400]: the penalty wipes the
    first player's 400 in the second round.
   */
  lemma PenaltySample()
    ensures TotalScores([[400, 0], [-500, 0], [0, 400]], 2) == [0, 400]
  {
    var t: Table := [[400, 0], [-500, 0], [0, 400]];
    assert t[..1][..0] == [];
    assert TotalScores(t[..1], 2) == [400, 0];
    assert t[..2][..1] == t[..1];
    assert TotalScores(t[..2], 2) == [0, 0];
    assert t[..2] == t[..|t| - 1];
  }

  /**
    Step-wise clamping differs from clamping once at the end: 400, -500, 300 totals
    300, while the plain sum clamped at the end would be 200.
   */
  lemma StepwiseIsNotEndFloor()
    ensures ColumnTotal([400, -500, 300]) == 300
    ensures Floor(Sum([400, -500, 300])) == 200
  {
    var col := [400, -500, 300];
    assert col[..1][..0] == [];
    assert ColumnTotal(col[..1]) == 400 && Sum(col[..1]) == 400;
    assert col[..2][..1] == col[..1];
    assert ColumnTotal(col[..2]) == 0 && Sum(col[..2]) == -100;
    assert col[..2] == col[..|col| - 1];
  }
}
