/** The local-play page: its own copy of the tick, the keyboard-driven
    paddle step and the restart, each as a function from the previous
    game state to the next. */
module LocalGame {
  import opened Wrappers
  import opened GameRules

  /** The initial value handed to useState. */
  function InitialState(s: Serve): (g: GameState)
    ensures g == CreateInitialGameState(s)
    ensures g.scores == Scores(0, 0) && g.paddles == Paddles(160.0, 160.0)
    ensures g.ball.x == 400.0 && g.ball.y == 200.0 && g.gameActive && g.winner == None
  {
    GameState(Ball(GameWidth / 2.0, GameHeight / 2.0,
                   if s.dir > 0.5 then BallSpeed else -BallSpeed,
                   (s.spin - 0.5) * BallSpeed),
              Paddles(GameHeight / 2.0 - PaddleHeight / 2.0, GameHeight / 2.0 - PaddleHeight / 2.0),
              Scores(0, 0), true, None)
  }

  /** The page's resetBall: the ball back at the centre, served afresh. */
  function ResetBall(g: GameState, s: Serve): (r: GameState)
    ensures r == GameRules.ResetBall(g, s)
  {
    g.(ball := Ball(GameWidth / 2.0, GameHeight / 2.0,
                    if s.dir > 0.5 then BallSpeed else -BallSpeed,
                    (s.spin - 0.5) * BallSpeed))
  }

  /** The page's updateGameState updater, written out as the page writes
      it: move, walls, left paddle, right paddle, scoring, win check. */
  function UpdateGameState(prev: GameState, s: Serve): (r: GameState)
    ensures !prev.gameActive ==> r == prev
  {
    if !prev.gameActive then prev
    else
      var x := prev.ball.x + prev.ball.dx;
      var y := prev.ball.y + prev.ball.dy;
      var dy0 := if y <= 8.0 || y >= GameHeight - 8.0 then -prev.ball.dy else prev.ball.dy;
      var ballLeft, ballRight, ballTop, ballBottom := x - 8.0, x + 8.0, y - 8.0, y + 8.0;
      var p1, p2 := prev.paddles.player1, prev.paddles.player2;
      var hitLeft := ballLeft <= 30.0 && ballRight >= 20.0 && ballBottom >= p1 && ballTop <= p1 + PaddleHeight;
      var dx1 := if hitLeft then Abs(prev.ball.dx) else prev.ball.dx;
      var dy1 := if hitLeft then ((y - p1) / PaddleHeight - 0.5) * BallSpeed else dy0;
      var hitRight := ballRight >= GameWidth - 30.0 && ballLeft <= GameWidth - 20.0 &&
                      ballBottom >= p2 && ballTop <= p2 + PaddleHeight;
      var dx2 := if hitRight then -Abs(dx1) else dx1;
      var dy2 := if hitRight then ((y - p2) / PaddleHeight - 0.5) * BallSpeed else dy1;
      var moved := prev.(ball := Ball(x, y, dx2, dy2));
      var scored :=
        if x < 0.0 then ResetBall(moved.(scores := moved.scores.(player2 := moved.scores.player2 + 1)), s)
        else if x > GameWidth then ResetBall(moved.(scores := moved.scores.(player1 := moved.scores.player1 + 1)), s)
        else moved;
      if scored.scores.player1 >= MaxScore then scored.(winner := Some(Player1), gameActive := false)
      else if scored.scores.player2 >= MaxScore then scored.(winner := Some(Player2), gameActive := false)
      else scored
  }

  /** The page's tick and the server's tick give the same successor for
      the same state and the same random draws. */
  lemma UpdateMatchesServerTick(prev: GameState, s: Serve)
    ensures UpdateGameState(prev, s) == Tick(prev, s)
  {
  }

  /** Which keys are held down at the moment the interval fires. */
  datatype Keys = Keys(keyW: bool, keyS: bool, arrowUp: bool, arrowDown: bool)

  /** The paddle updater run before each tick: W then S move player 1,
      ArrowUp then ArrowDown move player 2, each step clamped on one side. */
  function KeyStep(prev: GameState, keys: Keys): (r: GameState)
    ensures r.ball == prev.ball && r.scores == prev.scores
    ensures r.gameActive == prev.gameActive && r.winner == prev.winner
  {
    var p1a := if keys.keyW then Max(0.0, prev.paddles.player1 - PaddleSpeed) else prev.paddles.player1;
    var p1b := if keys.keyS then Min(GameHeight - PaddleHeight, p1a + PaddleSpeed) else p1a;
    var p2a := if keys.arrowUp then Max(0.0, prev.paddles.player2 - PaddleSpeed) else prev.paddles.player2;
    var p2b := if keys.arrowDown then Min(GameHeight - PaddleHeight, p2a + PaddleSpeed) else p2a;
    prev.(paddles := Paddles(p1b, p2b))
  }


  /** Paddles that start in [0, 320] stay there. */
  lemma KeyStepInBounds(prev: GameState, keys: Keys)
    requires PaddlesInBounds(prev.paddles)
    ensures PaddlesInBounds(KeyStep(prev, keys).paddles)
  {
  }

  /** W and S move only player 1; the arrows move only player 2. */
  lemma KeyStepSeparatesPlayers(prev: GameState, keys: Keys)
    ensures KeyStep(prev, keys).paddles.player1 ==
            KeyStep(prev, keys.(arrowUp := false, arrowDown := false)).paddles.player1
    ensures KeyStep(prev, keys).paddles.player2 ==
            KeyStep(prev, keys.(keyW := false, keyS := false)).paddles.player2
    ensures !keys.keyW && !keys.keyS ==> KeyStep(prev, keys).paddles.player1 == prev.paddles.player1
    ensures !keys.arrowUp && !keys.arrowDown ==> KeyStep(prev, keys).paddles.player2 == prev.paddles.player2
  {
  }

  /** W alone moves up by the paddle speed, stopping at 0; S alone moves
      down, stopping at 320; with both held, W is applied and then S. */
  lemma KeyStepPlayer1(prev: GameState, keys: Keys)
    ensures var p, q := prev.paddles.player1, KeyStep(prev, keys).paddles.player1;
      (keys.keyW && !keys.keyS ==> q == Max(0.0, p - 5.0)) &&
      (!keys.keyW && keys.keyS ==> q == Min(320.0, p + 5.0)) &&
      (keys.keyW && keys.keyS ==> q == Min(320.0, Max(0.0, p - 5.0) + 5.0))
  {
  }

  /** ArrowUp alone moves player 2 up by the paddle speed, stopping at 0;
      ArrowDown alone moves it down, stopping at 320; with both held,
      ArrowUp is applied and then ArrowDown. */
  lemma KeyStepPlayer2(prev: GameState, keys: Keys)
    ensures var p, q := prev.paddles.player2, KeyStep(prev, keys).paddles.player2;
      (keys.arrowUp && !keys.arrowDown ==> q == Max(0.0, p - 5.0)) &&
      (!keys.arrowUp && keys.arrowDown ==> q == Min(320.0, p + 5.0)) &&
      (keys.arrowUp && keys.arrowDown ==> q == Min(320.0, Max(0.0, p - 5.0) + 5.0))
  {
  }

  /** Holding both keys is not a no-op next to the top edge: from 2 the
      paddle goes to 0 and then to 5. */
  lemma BothKeysNearTop(prev: GameState)
    requires prev.paddles.player1 == 2.0
    ensures KeyStep(prev, Keys(true, true, false, false)).paddles.player1 == 5.0
  {
  }

  /** One firing of the page's interval: the key step, then the tick.
      It is the server's tick applied after the keys have moved the
      paddles, and the tick leaves the paddles where the keys put them. */
  function Frame(prev: GameState, keys: Keys, s: Serve): (r: GameState)
    ensures r == Tick(KeyStep(prev, keys), s)
    ensures r.paddles == KeyStep(prev, keys).paddles
    ensures !prev.gameActive ==> r == KeyStep(prev, keys)
  {
    UpdateMatchesServerTick(KeyStep(prev, keys), s);
    UpdateGameState(KeyStep(prev, keys), s)
  }

  /** A frame keeps the paddles in bounds, the speeds bounded and the
      winner, flag and scores consistent. */
  lemma FramePreservesGood(prev: GameState, keys: Keys, s: Serve)
    requires Good(prev)
    ensures Good(Frame(prev, keys, s))
  {
    KeyStepInBounds(prev, keys);
    UpdateMatchesServerTick(KeyStep(prev, keys), s);
    TickPreservesGood(KeyStep(prev, keys), s);
  }

  /** handleRestart: whatever the state was, it is replaced by the same
      literal the page starts from (winner explicitly cleared). */
  function HandleRestart(s: Serve): (g: GameState)
    ensures g.scores == Scores(0, 0) && g.paddles == Paddles(160.0, 160.0)
    ensures g.ball.x == 400.0 && g.ball.y == 200.0 && g.gameActive && g.winner == None
    ensures Good(g)
  {
    InitialState(s).(winner := None)
  }
}
