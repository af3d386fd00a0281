/**
  The play screen: submitting a typed score, editing a recorded cell, reporting a
  miss with the triple-miss penalty, and the invariant that play keeps on the table.
 */
module GamePlay {
  import opened Ledger
  import opened Validator
  import opened App
  import opened Totals

  /** The score a player loses for three missed turns in a row. */
  const Penalty: int := -500

  /** The score field as submitted: empty, or holding a number. */
  datatype Entry = Blank | Entered(value: int)

  /** A submission passes the gate when the field is not empty and holds a legal score. */
  predicate Accepts(e: Entry) {
    e.Entered? && IsValidScore(e.value)
  }

  /**
    Pressing Enter in the score field. A blank or illegal entry leaves the game as it
    was; a legal one is recorded by exactly one score update.
   */
  function SubmitScore(g: Game, e: Entry): (r: Game)
    requires Ready(g)
    ensures Ready(r)
    ensures !Accepts(e) ==> r == g
    ensures Accepts(e) ==> r == UpdateScore(g, e.value)
  {
    if Accepts(e) then UpdateScore(g, e.value) else g
  }

  /**
    Editing cell (row, idx) of the table in place. A blank or illegal value changes
    nothing; otherwise exactly that cell takes the new value and the shape stays.
   */
  function ChangeScore(t: Table, e: Entry, row: int, idx: int): (r: Table)
    requires 0 <= row < |t| && 0 <= idx < |t[row]|
    ensures |r| == |t|
    ensures forall i :: 0 <= i < |t| ==> |r[i]| == |t[i]|
    ensures forall i, j :: 0 <= i < |t| && 0 <= j < |t[i]| && (i != row || j != idx) ==>
              r[i][j] == t[i][j]
    ensures r[row][idx] == (if Accepts(e) then e.value else t[row][idx])
  {
    if !Accepts(e) then t else SetCell(t, row, idx, e.value)
  }

  /** A cell edit can only write a legal score, so it keeps every cell legal. */
  lemma ChangeScoreKeepsLegalCells(t: Table, e: Entry, row: int, idx: int)
    requires 0 <= row < |t| && 0 <= idx < |t[row]| && LegalCells(t)
    ensures LegalCells(ChangeScore(t, e, row, idx))
  {
    var r := ChangeScore(t, e, row, idx);
    forall i, j | 0 <= i < |r| && 0 <= j < |r[i]|
      ensures IsValidScore(r[i][j]) || r[i][j] == Penalty
    {
      assert |r[i]| == |t[i]|;
      if i == row && j == idx {
        assert r[i][j] == (if Accepts(e) then e.value else t[i][j]);
      } else {
        assert r[i][j] == t[i][j];
      }
    }
  }

  /** Repeating the same edit changes nothing more. */
  lemma ChangeScoreIdempotent(t: Table, e: Entry, row: int, idx: int)
    requires 0 <= row < |t| && 0 <= idx < |t[row]|
    ensures var once := ChangeScore(t, e, row, idx);
            ChangeScore(once, e, row, idx) == once
  {
    var once := ChangeScore(t, e, row, idx);
    if Accepts(e) {
      assert once[row][idx := e.value] == once[row];
    }
  }

  /**
    Whether the last three recorded scores of player `c` are all zero: the column's
    last three cells, taken only when the table has at least three rounds.
   */
  function LastThreeScoresAreZero(t: Table, c: int): (b: bool)
    requires HasColumn(t, c)
    ensures b <==> |t| >= 3 && t[|t| - 3][c] == 0 && t[|t| - 2][c] == 0 && t[|t| - 1][c] == 0
  {
    var col := Column(t, c);
    var lastThree := if |col| >= 3 then col[|col| - 3..] else col;
    |lastThree| == 3 && forall k :: 0 <= k < 3 ==> lastThree[k] == 0
  }

  /** The score a miss finally writes: the penalty if it completes three zeros, else zero. */
  function MissScore(g: Game): (d: int)
    requires Ready(g)
    ensures d == 0 || d == Penalty
    ensures d == Penalty <==> LastThreeScoresAreZero(g.scores, g.cursor)
  {
    if LastThreeScoresAreZero(g.scores, g.cursor) then Penalty else 0
  }

  /**
    The "Ciao!" button. Both score updates it issues run against the same captured
    table and cursor: the first adds 0 to the active cell of a row shared with the
    captured table, the three-zeros condition reads that same table, and, if it
    fires, the second adds the penalty to that same shared cell and its result
    replaces the first. The net effect is one turn: the active cell gains 0 or the
    penalty, the cursor moves on once, and at most one round is opened.
   */
  function Miss(g: Game): (r: Game)
    requires Ready(g)
    ensures Ready(r)
    ensures r.phase == g.phase && r.players == g.players
    ensures r.cursor == (g.cursor + 1) % |g.players|
    ensures |g.scores| <= |r.scores| <= |g.scores| + 1
    ensures r == UpdateScore(g, MissScore(g))
  {
    var last := |g.scores| - 1;
    var shared := AddToCell(g.scores, last, g.cursor, 0);
    if LastThreeScoresAreZero(shared, g.cursor) then
      var penalised := AddToCell(shared, last, g.cursor, Penalty);
      AddZeroToCell(g.scores, last, g.cursor);
      AddToCellTwice(g.scores, last, g.cursor, 0, Penalty);
      EndTurn(g, penalised)
    else
      AddZeroToCell(g.scores, last, g.cursor);
      EndTurn(g, shared)
  }

  /**
    Issuing the two updates one after the other would be different: with two or
    more players, the turn would pass twice and skip the next player.
   */
  lemma MissIsNotTwoUpdates(g: Game)
    requires Ready(g) && |g.players| >= 2
    ensures UpdateScore(UpdateScore(g, 0), Penalty).cursor != Miss(g).cursor
  {
    var n, c := |g.players|, g.cursor;
    var once := UpdateScore(g, 0);
    var twice := UpdateScore(once, Penalty);
    if c == n - 1 {
      DivModUnique(c + 1, n, 1, 0);
      DivModUnique(once.cursor + 1, n, 0, 1);
    } else {
      DivModUnique(c + 1, n, 0, c + 1);
      if c == n - 2 {
        DivModUnique(once.cursor + 1, n, 1, 0);
      } else {
        DivModUnique(once.cursor + 1, n, 0, c + 2);
      }
    }
  }

  /** Every recorded cell holds a legal score or the penalty. */
  predicate LegalCells(t: Table) {
    forall i, j :: 0 <= i < |t| && 0 <= j < |t[i]| ==> IsValidScore(t[i][j]) || t[i][j] == Penalty
  }

  /** No recorded cell holds the penalty. */
  predicate PenaltyFree(t: Table) {
    forall i, j :: 0 <= i < |t| && 0 <= j < |t[i]| ==> t[i][j] != Penalty
  }

  /**
    The invariant of play: the table is ready for scoring, every cell holds a legal
    score or the penalty, and in the current round every player from the cursor on
    has not played yet (their cells are zero).
   */
  predicate PlayInv(g: Game) {
    && Ready(g)
    && LegalCells(g.scores)
    && forall j :: g.cursor <= j < |g.players| ==> Last(g.scores)[j] == 0
  }

  /** Recording a legal score or the penalty for the active player keeps every cell legal. */
  lemma UpdateScoreKeepsLegalCells(g: Game, d: int)
    requires PlayInv(g) && (IsValidScore(d) || d == Penalty)
    ensures LegalCells(UpdateScore(g, d).scores)
    ensures UpdateScore(g, d).scores[|g.scores| - 1][g.cursor] == d
  {
    var r := UpdateScore(g, d);
    var last := |g.scores| - 1;
    assert Last(g.scores)[g.cursor] == 0;
    forall i, j | 0 <= i < |r.scores| && 0 <= j < |r.scores[i]|
      ensures IsValidScore(r.scores[i][j]) || r.scores[i][j] == Penalty
    {
      if i < |g.scores| {
        assert r.scores[i][j] == g.scores[i][j] + (if i == last && j == g.cursor then d else 0);
      } else {
        assert r.scores[i][j] == 0;
      }
    }
  }

  /** After any score update, the players from the new cursor on have not played this round. */
  lemma UpdateScoreKeepsUnplayedZero(g: Game, d: int)
    requires PlayInv(g)
    ensures var r := UpdateScore(g, d);
            forall j :: r.cursor <= j < |r.players| ==> Last(r.scores)[j] == 0
  {
    var r := UpdateScore(g, d);
    var n, c, last := |g.players|, g.cursor, |g.scores| - 1;
    if c == n - 1 {
      DivModUnique(c + 1, n, 1, 0);
    } else {
      DivModUnique(c + 1, n, 0, c + 1);
      forall j | c + 1 <= j < n
        ensures Last(r.scores)[j] == 0
      {
        assert Last(g.scores)[j] == 0;
        assert r.scores[last][j] == g.scores[last][j] + (if j == c then d else 0);
      }
    }
  }

  /** Recording a legal score or the penalty for the active player keeps the play invariant. */
  lemma UpdateScoreKeepsPlayInv(g: Game, d: int)
    requires PlayInv(g) && (IsValidScore(d) || d == Penalty)
    ensures PlayInv(UpdateScore(g, d))
    ensures UpdateScore(g, d).scores[|g.scores| - 1][g.cursor] == d
  {
    UpdateScoreKeepsLegalCells(g, d);
    UpdateScoreKeepsUnplayedZero(g, d);
  }

  /** Submitting keeps the play invariant, whatever the entry. */
  lemma SubmitKeepsPlayInv(g: Game, e: Entry)
    requires PlayInv(g)
    ensures PlayInv(SubmitScore(g, e))
  {
    if Accepts(e) {
      UpdateScoreKeepsPlayInv(g, e.value);
    }
  }

  /** A miss keeps the play invariant. */
  lemma MissKeepsPlayInv(g: Game)
    requires PlayInv(g)
    ensures PlayInv(Miss(g))
  {
    UpdateScoreKeepsPlayInv(g, MissScore(g));
  }

  /**
    A miss records 0 for the active player, and that same cell ends at the penalty
    exactly when the player's column then ends in three zeros.
   */
  lemma MissRecordsZeroOrPenalty(g: Game)
    requires PlayInv(g)
    ensures Miss(g).scores[|g.scores| - 1][g.cursor] ==
              (if LastThreeScoresAreZero(g.scores, g.cursor) then Penalty else 0)
  {
    UpdateScoreKeepsPlayInv(g, MissScore(g));
  }

  /**
    The penalty enters the table only through a miss: a submission on a table
    without penalty cells leaves it without penalty cells.
   */
  lemma SubmitNeverRecordsPenalty(g: Game, e: Entry)
    requires PlayInv(g) && PenaltyFree(g.scores)
    ensures PenaltyFree(SubmitScore(g, e).scores)
  {
    if Accepts(e) {
      var r := SubmitScore(g, e);
      var last := |g.scores| - 1;
      UpdateScoreKeepsPlayInv(g, e.value);
      NegativeScoresAreInvalid(Penalty);
      forall i, j | 0 <= i < |r.scores| && 0 <= j < |r.scores[i]|
        ensures r.scores[i][j] != Penalty
      {
        if i < |g.scores| {
          assert r.scores[i][j] == g.scores[i][j] + (if i == last && j == g.cursor then e.value else 0);
        } else {
          assert r.scores[i][j] == 0;
        }
      }
    }
  }

  /**
    A score update changes the totals only through the active cell: the round it
    opens on a wrap is all zeros and adds nothing.
   */
  lemma UpdateScoreTotals(g: Game, d: int)
    requires Ready(g)
    ensures var t := AddToCell(g.scores, |g.scores| - 1, g.cursor, d);
            Rectangular(t, |g.players|) &&
            TotalScores(UpdateScore(g, d).scores, |g.players|) == TotalScores(t, |g.players|)
  {
    var n := |g.players|;
    var t := AddToCell(g.scores, |g.scores| - 1, g.cursor, d);
    if g.cursor == n - 1 {
      AppendZeroRoundKeepsTotals(t, n);
    }
  }
}
