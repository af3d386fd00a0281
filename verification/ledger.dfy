/**
  The score table of a game: one row per round, one cell per player, holding the
  raw score each player wrote in that round. These are the shape helpers shared
  by the application shell and the play screen.
 */
module Ledger {

  /** One round: the score of every player, in roster order. */
  type Row = seq<int>

  /** Every round opened so far, oldest first. */
  type Table = seq<Row>

  /** A round nobody has played yet: `n` zero cells. */
  function Zeros(n: nat): (r: Row)
    ensures |r| == n
    ensures forall j :: 0 <= j < n ==> r[j] == 0
  {
    seq(n, _ => 0)
  }

  /** The round currently being played. */
  function Last(t: Table): (r: Row)
    requires |t| > 0
  {
    t[|t| - 1]
  }

  /** Every round has exactly one cell per player. */
  predicate Rectangular(t: Table, n: nat) {
    forall i :: 0 <= i < |t| ==> |t[i]| == n
  }

  /** Every round has a cell in column `j`. */
  predicate HasColumn(t: Table, j: int) {
    0 <= j && forall i :: 0 <= i < |t| ==> j < |t[i]|
  }

  /** The scores of the player in column `j`, round by round. */
  function Column(t: Table, j: int): (col: seq<int>)
    requires HasColumn(t, j)
    ensures |col| == |t|
    ensures forall i :: 0 <= i < |t| ==> col[i] == t[i][j]
  {
    seq(|t|, i requires 0 <= i < |t| => t[i][j])
  }

  /** The table after `d` has been added to cell (i, j); no other cell changes. */
  function AddToCell(t: Table, i: int, j: int, d: int): (r: Table)
    requires 0 <= i < |t| && 0 <= j < |t[i]|
    ensures |r| == |t|
    ensures forall k :: 0 <= k < |t| ==> |r[k]| == |t[k]|
    ensures forall k, m :: 0 <= k < |t| && 0 <= m < |t[k]| ==>
              r[k][m] == t[k][m] + (if k == i && m == j then d else 0)
  {
    t[i := t[i][j := t[i][j] + d]]
  }

  /** The table after cell (i, j) has been overwritten with `v`; no other cell changes. */
  function SetCell(t: Table, i: int, j: int, v: int): (r: Table)
    requires 0 <= i < |t| && 0 <= j < |t[i]|
    ensures |r| == |t|
    ensures forall k :: 0 <= k < |t| ==> |r[k]| == |t[k]|
    ensures forall k, m :: 0 <= k < |t| && 0 <= m < |t[k]| ==>
              r[k][m] == (if k == i && m == j then v else t[k][m])
  {
    t[i := t[i][j := v]]
  }

  /** Adding zero to a cell leaves the table as it was. */
  lemma AddZeroToCell(t: Table, i: int, j: int)
    requires 0 <= i < |t| && 0 <= j < |t[i]|
    ensures AddToCell(t, i, j, 0) == t
  {
    assert t[i][j := t[i][j] + 0] == t[i];
  }

  /** Two additions to the same cell are one addition of their sum. */
  lemma AddToCellTwice(t: Table, i: int, j: int, a: int, b: int)
    requires 0 <= i < |t| && 0 <= j < |t[i]|
    ensures AddToCell(AddToCell(t, i, j, a), i, j, b) == AddToCell(t, i, j, a + b)
  {
    var once := AddToCell(t, i, j, a);
    assert once[i][j := once[i][j] + b] == t[i][j := t[i][j] + a + b];
  }
}
