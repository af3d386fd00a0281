/**
  The application shell: the game phase, the roster, the score table and the turn
  cursor, with the transitions the shell performs on them (opening the roster,
  adding a player, starting the game, and recording one turn's score).
 */
module App {
  import opened Ledger

  /** The three screens of the application; they are only ever visited in this order. */
  datatype Phase = New | PlayerCreation | Started

  /** The whole game state: phase, roster, score table and whose turn it is. */
  datatype Game = Game(phase: Phase, players: seq<string>, scores: Table, cursor: nat)

  /** The position of a phase in its one-way order. */
  function Rank(p: Phase): (r: nat) {
    match p
    case New => 0
    case PlayerCreation => 1
    case Started => 2
  }

  /** The state when the application first shows: no players, no rounds, cursor at 0. */
  function Initial(): (g: Game) {
    Game(New, [], [], 0)
  }

  /** The "Start Player Creation" button. */
  function OpenRoster(g: Game): (r: Game) {
    g.(phase := PlayerCreation)
  }

  /**
    Adds the typed name as the last player. An empty name changes nothing; otherwise
    the first player opens the first round [0], and every later player gets one more
    zero cell at the end of the last round, leaving earlier rounds untouched.
   */
  function AddPlayer(g: Game, name: string): (r: Game)
    ensures name == [] ==> r == g
    ensures r.phase == g.phase && r.cursor == g.cursor
    ensures name != [] ==> r.players == g.players + [name]
    ensures name != [] && g.scores == [] ==> r.scores == [[0]]
    ensures name != [] && g.scores != [] ==>
              && |r.scores| == |g.scores|
              && r.scores[..|g.scores| - 1] == g.scores[..|g.scores| - 1]
              && Last(r.scores) == Last(g.scores) + [0]
  {
    if name == [] then g
    else
      var scores :=
        if g.scores == [] then [[0]]
        else g.scores[..|g.scores| - 1] + [Last(g.scores) + [0]];
      g.(players := g.players + [name], scores := scores)
  }

  /** The "Start" button: play begins with the first player. */
  function StartGame(g: Game): (r: Game) {
    g.(phase := Started, cursor := 0)
  }

  /**
    The shape of the table during setup: no rounds while there are no players, and
    otherwise exactly one unplayed round with one cell per player.
   */
  predicate SetupShape(g: Game) {
    && (g.players == [] <==> g.scores == [])
    && (g.players != [] ==> g.scores == [Zeros(|g.players|)])
  }

  /** Adding a player, named or not, keeps the setup shape of the table. */
  lemma AddPlayerKeepsSetupShape(g: Game, name: string)
    requires SetupShape(g)
    ensures SetupShape(AddPlayer(g, name))
  {
    if name != [] {
      if g.scores == [] {
        assert [0] == Zeros(1);
      } else {
        assert g.scores[..|g.scores| - 1] == [];
        assert Zeros(|g.players|) + [0] == Zeros(|g.players| + 1);
      }
    }
  }

  /**
    What recording a score needs: at least one player, at least one round, one cell
    per player in every round, and a cursor naming a player.
   */
  predicate Ready(g: Game) {
    && |g.players| > 0
    && |g.scores| > 0
    && Rectangular(g.scores, |g.players|)
    && g.cursor < |g.players|
  }

  /** Starting a game whose roster is not empty makes it ready for scoring. */
  lemma StartGameMakesReady(g: Game)
    requires SetupShape(g) && |g.players| > 0
    ensures Ready(StartGame(g))
    ensures StartGame(g).phase == Started && StartGame(g).cursor == 0
    ensures StartGame(g).players == g.players && StartGame(g).scores == g.scores
  {
  }

  /**
    Ends the active player's turn once the table `t` holds their score: if the last
    player has just played, a new unplayed round is opened; the turn passes on.
   */
  function EndTurn(g: Game, t: Table): (r: Game)
    requires Ready(g) && |t| == |g.scores| && Rectangular(t, |g.players|)
    ensures Ready(r)
  {
    var n := |g.players|;
    g.(scores := if g.cursor == n - 1 then t + [Zeros(n)] else t,
       cursor := (g.cursor + 1) % n)
  }

  /**
    Records score `d` for the active player: only cell (last round, cursor) changes,
    by `d`; a new all-zero round is opened exactly when the last player has played;
    the cursor moves to the next player, wrapping to the first.
   */
  function UpdateScore(g: Game, d: int): (r: Game)
    requires Ready(g)
    ensures Ready(r)
    ensures r.phase == g.phase && r.players == g.players
    ensures r.cursor == (g.cursor + 1) % |g.players|
    ensures |r.scores| == |g.scores| + (if g.cursor == |g.players| - 1 then 1 else 0)
    ensures forall i, j :: 0 <= i < |g.scores| && 0 <= j < |g.players| ==>
              r.scores[i][j] == g.scores[i][j] + (if i == |g.scores| - 1 && j == g.cursor then d else 0)
    ensures g.cursor == |g.players| - 1 ==> Last(r.scores) == Zeros(|g.players|)
  {
    EndTurn(g, AddToCell(g.scores, |g.scores| - 1, g.cursor, d))
  }

  /** Records the scores `ds` one turn after another. */
  function UpdateMany(g: Game, ds: seq<int>): (r: Game)
    requires Ready(g)
    ensures Ready(r) && r.players == g.players
    decreases |ds|
  {
    if ds == [] then g else UpdateMany(UpdateScore(g, ds[0]), ds[1..])
  }

  /** Quotient and remainder are determined by any decomposition x = q * n + s with 0 <= s < n. */
  lemma DivModUnique(x: int, n: int, q: int, s: int)
    requires n > 0 && 0 <= s < n && x == q * n + s
    ensures x / n == q && x % n == s
  {
    var q0, s0 := x / n, x % n;
    assert (q - q0) * n == s0 - s;
    if q > q0 {
      assert (q - q0) * n >= n by { MulAtLeast(q - q0, n); }
    } else if q < q0 {
      assert (q0 - q) * n >= n by { MulAtLeast(q0 - q, n); }
    }
  }

  /** A positive multiple of n is at least n. */
  lemma MulAtLeast(a: int, n: int)
    requires a >= 1 && n > 0
    ensures a * n >= n
  {
  }

  /** Moving on by one turn and then k - 1 more is moving on by k turns. */
  lemma TurnArithmetic(c: nat, k: nat, n: nat)
    requires c < n && k >= 1
    ensures ((c + 1) % n + (k - 1)) / n + (if c == n - 1 then 1 else 0) == (c + k) / n
    ensures ((c + 1) % n + (k - 1)) % n == (c + k) % n
  {
    if c == n - 1 {
      var x := k - 1;
      assert (c + 1) % n == 0;
      DivModUnique(x, n, x / n, x % n);
      DivModUnique(c + k, n, x / n + 1, x % n);
    } else {
      assert (c + 1) % n == c + 1;
    }
  }

  /**
    After k recorded turns the cursor has moved on k players (mod n) and one round
    has been opened for every wrap past the last player.
   */
  lemma {:induction false} UpdatesCountRounds(g: Game, ds: seq<int>)
    requires Ready(g)
    ensures UpdateMany(g, ds).cursor == (g.cursor + |ds|) % |g.players|
    ensures |UpdateMany(g, ds).scores| == |g.scores| + (g.cursor + |ds|) / |g.players|
    decreases |ds|
  {
    var n := |g.players|;
    if ds != [] {
      var g' := UpdateScore(g, ds[0]);
      UpdatesCountRounds(g', ds[1..]);
      TurnArithmetic(g.cursor, |ds|, n);
    }
  }

  /**
    From a fresh start (one round, first player to play), k turns leave 1 + k div n
    rounds, and n turns bring the cursor back to the first player.
   */
  lemma FreshStartRounds(g: Game, ds: seq<int>)
    requires Ready(g) && |g.scores| == 1 && g.cursor == 0
    ensures |UpdateMany(g, ds).scores| == 1 + |ds| / |g.players|
    ensures |ds| == |g.players| ==> UpdateMany(g, ds).cursor == 0
  {
    UpdatesCountRounds(g, ds);
    assert g.cursor + |ds| == |ds|;
    if |ds| == |g.players| {
      DivModUnique(|ds|, |g.players|, 1, 0);
    }
  }
}
