/**
  The game as a whole: the user actions each screen offers, one step per action,
  runs of many actions from the first screen, and the invariant every reachable
  state keeps.
 */
module Session {
  import opened Wrappers
  import opened Ledger
  import opened App
  import opened GamePlay

  /** The user actions the screens offer. */
  datatype Action =
    | BeginSetup            // "Start Player Creation"
    | Add(name: string)     // the add-player button, with the typed name
    | Start                 // "Start"
    | Submit(entry: Entry)  // Enter in the score field
    | MissTurn              // "Ciao!"

  /**
    Whether the screen of the current phase shows the action: the roster screen
    only once asked for, players only during player creation, the Start button only
    once there is a player, and scoring only after the game has started.
   */
  predicate Enabled(g: Game, a: Action) {
    match a
    case BeginSetup => g.phase == New
    case Add(_) => g.phase == PlayerCreation
    case Start => g.phase == PlayerCreation && |g.players| > 0
    case Submit(_) => g.phase == Started
    case MissTurn => g.phase == Started
  }

  /**
    What holds in every phase: before setup there is nothing; during setup the
    table has the setup shape and the cursor is at the first player; during play the
    play invariant holds.
   */
  predicate Inv(g: Game) {
    match g.phase
    case New => g.players == [] && g.scores == [] && g.cursor == 0
    case PlayerCreation => SetupShape(g) && g.cursor == 0
    case Started => PlayInv(g)
  }

  /** The first screen satisfies the invariant. */
  lemma InitialInv()
    ensures Inv(Initial()) && Initial().phase == New
  {
  }

  /**
    One user action. An action the current screen does not show has no effect
    (`None`); any other keeps the invariant, moves the phase forward by at most one
    step, never changes the roster once play has started, and starts play with the
    cursor at the first player.
   */
  function Step(g: Game, a: Action): (r: Option<Game>)
    requires Inv(g)
    ensures r.Some? <==> Enabled(g, a)
    ensures r.Some? ==> Inv(r.value)
    ensures r.Some? ==> Rank(g.phase) <= Rank(r.value.phase) <= Rank(g.phase) + 1
    ensures r.Some? && g.phase == Started ==> r.value.players == g.players
    ensures r.Some? && g.phase != Started && r.value.phase == Started ==>
              r.value.cursor == 0 && r.value.scores == [Zeros(|g.players|)]
  {
    if !Enabled(g, a) then None
    else
      match a
      case BeginSetup =>
        Some(OpenRoster(g))
      case Add(name) =>
        AddPlayerKeepsSetupShape(g, name);
        Some(AddPlayer(g, name))
      case Start =>
        StartGameMakesReady(g);
        Some(StartGame(g))
      case Submit(e) =>
        SubmitKeepsPlayInv(g, e);
        Some(SubmitScore(g, e))
      case MissTurn =>
        MissKeepsPlayInv(g);
        Some(Miss(g))
  }

  /**
    A sequence of actions, one after the other; `None` as soon as one of them is not
    offered. The state reached keeps the invariant, and its phase is never earlier
    than the one the run started in.
   */
  function Run(g: Game, actions: seq<Action>): (r: Option<Game>)
    requires Inv(g)
    ensures r.Some? ==> Inv(r.value) && Rank(g.phase) <= Rank(r.value.phase)
    ensures r.Some? && g.phase == Started ==> r.value.players == g.players
    decreases |actions|
  {
    if actions == [] then Some(g)
    else
      match Step(g, actions[0])
      case None => None
      case Some(next) => Run(next, actions[1..])
  }

  /** Every state reachable from the first screen keeps the invariant. */
  lemma ReachableStatesKeepInv(actions: seq<Action>)
    ensures Run(Initial(), actions).Some? ==> Inv(Run(Initial(), actions).value)
  {
    InitialInv();
  }

  /** A run of one action after another is that action's step followed by the rest. */
  lemma RunCons(g: Game, a: Action, rest: seq<Action>, next: Game, final: Game)
    requires Inv(g) && Step(g, a) == Some(next) && Inv(next) && Run(next, rest) == Some(final)
    ensures Run(g, [a] + rest) == Some(final)
  {
    assert ([a] + rest)[0] == a;
    assert ([a] + rest)[1..] == rest;
  }

  /** The roster A, B of the scenario below. */
  function Ab(): (r: seq<string>) {
    ["A", "B"]
  }

  /** Opening the roster screen. */
  lemma ScenarioOpen()
    ensures Step(Initial(), BeginSetup) == Some(Game(PlayerCreation, [], [], 0))
  {
  }

  /** Adding A opens the first round with A's zero cell. */
  lemma ScenarioAddA()
    ensures Step(Game(PlayerCreation, [], [], 0), Add("A")) == Some(Game(PlayerCreation, ["A"], [[0]], 0))
  {
    var g := Game(PlayerCreation, [], [], 0);
    assert "A" != [];
    assert [] + ["A"] == ["A"];
    assert AddPlayer(g, "A") == Game(PlayerCreation, ["A"], [[0]], 0);
  }

  /** Adding B adds B's zero cell to that round. */
  lemma ScenarioAddB()
    ensures Inv(Game(PlayerCreation, ["A"], [[0]], 0))
    ensures Step(Game(PlayerCreation, ["A"], [[0]], 0), Add("B")) == Some(Game(PlayerCreation, Ab(), [[0, 0]], 0))
  {
    var g := Game(PlayerCreation, ["A"], [[0]], 0);
    assert [0] == Zeros(1);
    assert "B" != [];
    assert g.scores[..0] == [];
    assert [0] + [0] == [0, 0];
    assert ["A"] + ["B"] == Ab();
    assert AddPlayer(g, "B") == Game(PlayerCreation, Ab(), [[0, 0]], 0);
  }

  /** Starting the game with A to play. */
  lemma ScenarioStart()
    ensures Inv(Game(PlayerCreation, Ab(), [[0, 0]], 0))
    ensures Step(Game(PlayerCreation, Ab(), [[0, 0]], 0), Start) == Some(Game(Started, Ab(), [[0, 0]], 0))
  {
    var g := Game(PlayerCreation, Ab(), [[0, 0]], 0);
    assert [0, 0] == Zeros(2);
    assert Enabled(g, Start);
    assert StartGame(g) == Game(Started, Ab(), [[0, 0]], 0);
  }

  /** A's first miss records 0 and passes the turn to B. */
  lemma ScenarioFirstMiss()
    ensures Step(Game(Started, Ab(), [[0, 0]], 0), MissTurn) == Some(Game(Started, Ab(), [[0, 0]], 1))
  {
    var g := Game(Started, Ab(), [[0, 0]], 0);
    assert !LastThreeScoresAreZero(g.scores, 0);
    AddZeroToCell(g.scores, 0, 0);
    assert Miss(g) == UpdateScore(g, 0);
  }

  /** B's 400 completes the first round and opens the second. */
  lemma ScenarioFirstScore()
    ensures Step(Game(Started, Ab(), [[0, 0]], 1), Submit(Entered(400)))
            == Some(Game(Started, Ab(), [[0, 400], [0, 0]], 0))
  {
    var g := Game(Started, Ab(), [[0, 0]], 1);
    assert Accepts(Entered(400));
    assert [0, 0][1 := 0 + 400] == [0, 400];
    assert AddToCell(g.scores, 0, 1, 400) == [[0, 400]];
    assert Zeros(2) == [0, 0];
    assert [[0, 400]] + [Zeros(2)] == [[0, 400], [0, 0]];
    assert (1 + 1) % 2 == 0;
    assert UpdateScore(g, 400) == Game(Started, Ab(), [[0, 400], [0, 0]], 0);
    assert SubmitScore(g, Entered(400)) == UpdateScore(g, 400);
  }

  /** A's second miss: only two rounds exist, so no penalty. */
  lemma ScenarioSecondMiss()
    ensures Step(Game(Started, Ab(), [[0, 400], [0, 0]], 0), MissTurn)
            == Some(Game(Started, Ab(), [[0, 400], [0, 0]], 1))
  {
    var g := Game(Started, Ab(), [[0, 400], [0, 0]], 0);
    assert !LastThreeScoresAreZero(g.scores, 0);
    AddZeroToCell(g.scores, 1, 0);
  }

  /** B's typed 0 completes the second round and opens the third. */
  lemma ScenarioSecondScore()
    ensures Step(Game(Started, Ab(), [[0, 400], [0, 0]], 1), Submit(Entered(0)))
            == Some(Game(Started, Ab(), [[0, 400], [0, 0], [0, 0]], 0))
  {
    var g := Game(Started, Ab(), [[0, 400], [0, 0]], 1);
    assert Accepts(Entered(0));
    AddZeroToCell(g.scores, 1, 1);
    assert Zeros(2) == [0, 0];
    assert g.scores + [Zeros(2)] == [[0, 400], [0, 0], [0, 0]];
    assert (1 + 1) % 2 == 0;
    assert UpdateScore(g, 0) == Game(Started, Ab(), [[0, 400], [0, 0], [0, 0]], 0);
    assert SubmitScore(g, Entered(0)) == UpdateScore(g, 0);
  }

  /** A's third miss completes three zeros: the cell becomes the penalty and B plays next. */
  lemma ScenarioThirdMiss()
    ensures Step(Game(Started, Ab(), [[0, 400], [0, 0], [0, 0]], 0), MissTurn)
            == Some(Game(Started, Ab(), [[0, 400], [0, 0], [Penalty, 0]], 1))
  {
    var g := Game(Started, Ab(), [[0, 400], [0, 0], [0, 0]], 0);
    var r := Game(Started, Ab(), [[0, 400], [0, 0], [Penalty, 0]], 1);
    assert LastThreeScoresAreZero(g.scores, 0);
    assert MissScore(g) == Penalty;
    assert [0, 0][0 := 0 + Penalty] == [Penalty, 0];
    var t := AddToCell(g.scores, 2, 0, Penalty);
    assert t == [[0, 400], [0, 0], [Penalty, 0]];
    assert (0 + 1) % 2 == 1;
    assert UpdateScore(g, Penalty) == EndTurn(g, t);
    assert EndTurn(g, t) == r;
    assert Miss(g) == r;
  }

  /**
    Two players, A missing three rounds in a row while B scores 400 then 0: the third
    miss turns A's cell of the third round into the penalty, and the turn passes to
    B, who is not skipped.
   */
  lemma TripleMissScenario()
    ensures Run(Initial(), [BeginSetup, Add("A"), Add("B"), Start,
                            MissTurn, Submit(Entered(400)),
                            MissTurn, Submit(Entered(0)),
                            MissTurn])
            == Some(Game(Started, Ab(), [[0, 400], [0, 0], [Penalty, 0]], 1))
  {
    ScenarioOpen();
    ScenarioAddA();
    ScenarioAddB();
    ScenarioStart();
    ScenarioFirstMiss();
    ScenarioFirstScore();
    ScenarioSecondMiss();
    ScenarioSecondScore();
    ScenarioThirdMiss();
    var g1 := Game(PlayerCreation, [], [], 0);
    var g2 := Game(PlayerCreation, ["A"], [[0]], 0);
    var g3 := Game(PlayerCreation, Ab(), [[0, 0]], 0);
    var g4 := Game(Started, Ab(), [[0, 0]], 0);
    var g5 := Game(Started, Ab(), [[0, 0]], 1);
    var g6 := Game(Started, Ab(), [[0, 400], [0, 0]], 0);
    var g7 := Game(Started, Ab(), [[0, 400], [0, 0]], 1);
    var g8 := Game(Started, Ab(), [[0, 400], [0, 0], [0, 0]], 0);
    var g9 := Game(Started, Ab(), [[0, 400], [0, 0], [Penalty, 0]], 1);
    assert Run(g9, []) == Some(g9);
    RunCons(g8, MissTurn, [], g9, g9);
    RunCons(g7, Submit(Entered(0)), [MissTurn], g8, g9);
    RunCons(g6, MissTurn, [Submit(Entered(0)), MissTurn], g7, g9);
    RunCons(g5, Submit(Entered(400)), [MissTurn, Submit(Entered(0)), MissTurn], g6, g9);
    RunCons(g4, MissTurn, [Submit(Entered(400)), MissTurn, Submit(Entered(0)), MissTurn], g5, g9);
    RunCons(g3, Start, [MissTurn, Submit(Entered(400)), MissTurn, Submit(Entered(0)), MissTurn], g4, g9);
    RunCons(g2, Add("B"), [Start, MissTurn, Submit(Entered(400)), MissTurn, Submit(Entered(0)), MissTurn], g3, g9);
    RunCons(g1, Add("A"), [Add("B"), Start, MissTurn, Submit(Entered(400)), MissTurn, Submit(Entered(0)), MissTurn], g2, g9);
    RunCons(Initial(), BeginSetup, [Add("A"), Add("B"), Start, MissTurn, Submit(Entered(400)), MissTurn, Submit(Entered(0)), MissTurn], g1, g9);
  }
}
