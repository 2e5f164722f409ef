/** The rules of the game shared by the server and the local-play page:
    the game-state record, the constants, the initial state, the serve and
    one tick of the physics, each as a specification function, together
    with the lemmas that say what one tick and a run of ticks do. */
module GameRules {
  import opened Wrappers

  // Field and game constants.
  const GameWidth: real := 800.0
  const GameHeight: real := 400.0
  const PaddleHeight: real := 80.0
  const PaddleSpeed: real := 5.0
  const BallSpeed: real := 4.0
  const MaxScore: nat := 5

  /** The ball's half-size, written as the literal 8 in the collision tests. */
  const BallRadius: real := 8.0
  /** The left paddle occupies the band 20 <= x <= 30; the right paddle
      the band GameWidth - 30 <= x <= GameWidth - 20. */
  const PaddleOuter: real := 20.0
  const PaddleInner: real := 30.0

  /** The largest legal paddle offset: GameHeight - PaddleHeight = 320. */
  const PaddleMax: real := GameHeight - PaddleHeight
  /** The largest vertical speed a paddle hit can give: 0.6 * BallSpeed. */
  const SpinMax: real := 2.4

  /** A value `Math.random()` can return. */
  type Random = r: real | 0.0 <= r < 1.0

  /** The two draws one serve consumes, in the order the code makes them:
      the first picks the horizontal direction, the second the vertical speed. */
  datatype Serve = Serve(dir: Random, spin: Random)

  datatype Ball = Ball(x: real, y: real, dx: real, dy: real)
  datatype Paddles = Paddles(player1: real, player2: real)
  datatype Scores = Scores(player1: nat, player2: nat)
  /** The winner field holds the string 'player1' or 'player2'. */
  datatype Slot = Player1 | Player2
  datatype GameState = GameState(ball: Ball, paddles: Paddles, scores: Scores,
                                 gameActive: bool, winner: Option<Slot>)

  function Abs(r: real): (a: real)
    ensures a >= 0.0 && (a == r || a == -r)
  {
    if r < 0.0 then -r else r
  }

  /** Math.min and Math.max. */
  function Min(a: real, b: real): real { if a < b then a else b }
  function Max(a: real, b: real): real { if a > b then a else b }

  /** The ball put back at the centre with a fresh random velocity. */
  function ServedBall(s: Serve): (b: Ball)
    ensures b.x == GameWidth / 2.0 && b.y == GameHeight / 2.0
    ensures b.dx == (if s.dir > 0.5 then BallSpeed else -BallSpeed)
    ensures Abs(b.dx) == BallSpeed
    ensures -2.0 <= b.dy < 2.0 && b.dy == (s.spin - 0.5) * BallSpeed
  {
    Ball(GameWidth / 2.0, GameHeight / 2.0,
         if s.dir > 0.5 then BallSpeed else -BallSpeed,
         (s.spin - 0.5) * BallSpeed)
  }

  /** resetBall: only the ball changes, and it is served afresh. */
  function ResetBall(g: GameState, s: Serve): (r: GameState)
    ensures r.ball == ServedBall(s)
    ensures r.paddles == g.paddles && r.scores == g.scores
    ensures r.gameActive == g.gameActive && r.winner == g.winner
  {
    g.(ball := ServedBall(s))
  }

  /** createInitialGameState: the serve configuration. */
  function CreateInitialGameState(s: Serve): (g: GameState)
    ensures g.ball == ServedBall(s)
    ensures g.paddles == Paddles(160.0, 160.0)
    ensures g.scores == Scores(0, 0)
    ensures g.gameActive && g.winner == None
    ensures Good(g)
  {
    GameState(ServedBall(s),
              Paddles(GameHeight / 2.0 - PaddleHeight / 2.0, GameHeight / 2.0 - PaddleHeight / 2.0),
              Scores(0, 0), true, None)
  }

  // ---------------------------------------------------------------------
  // The steps of one tick, in the order the code runs them.

  /** Integrate the position by the velocity. */
  function MoveBall(b: Ball): Ball
  {
    b.(x := b.x + b.dx, y := b.y + b.dy)
  }

  predicate AtWall(b: Ball)
  {
    b.y <= BallRadius || b.y >= GameHeight - BallRadius
  }

  /** The wall rule negates dy once when the ball touches the top or the
      bottom edge, and changes nothing else: in particular y is not clamped. */
  function WallBounce(b: Ball): (r: Ball)
    ensures r.x == b.x && r.y == b.y && r.dx == b.dx
    ensures AtWall(b) ==> r.dy == -b.dy
    ensures !AtWall(b) ==> r.dy == b.dy
    ensures Abs(r.dy) == Abs(b.dy)
  {
    if AtWall(b) then b.(dy := -b.dy) else b
  }

  /** The ball's box overlaps the left paddle's band and its vertical span. */
  predicate HitsLeft(b: Ball, p1: real)
    ensures HitsLeft(b, p1) ==>
      PaddleOuter - BallRadius <= b.x <= PaddleInner + BallRadius &&
      p1 - BallRadius <= b.y <= p1 + PaddleHeight + BallRadius
  {
    b.x - BallRadius <= PaddleInner && b.x + BallRadius >= PaddleOuter &&
    b.y + BallRadius >= p1 && b.y - BallRadius <= p1 + PaddleHeight
  }

  predicate HitsRight(b: Ball, p2: real)
    ensures HitsRight(b, p2) ==>
      GameWidth - PaddleInner - BallRadius <= b.x <= GameWidth - PaddleOuter + BallRadius &&
      p2 - BallRadius <= b.y <= p2 + PaddleHeight + BallRadius
  {
    b.x + BallRadius >= GameWidth - PaddleInner && b.x - BallRadius <= GameWidth - PaddleOuter &&
    b.y + BallRadius >= p2 && b.y - BallRadius <= p2 + PaddleHeight
  }

  /** The vertical speed a hit gives: where the ball meets the paddle,
      as a fraction of its height, shifted to be centred on 0. */
  function Spin(y: real, paddle: real): (r: real)
    ensures r == 0.0 <==> y == paddle + PaddleHeight / 2.0
    ensures r > 0.0 <==> y > paddle + PaddleHeight / 2.0
    ensures y == paddle ==> r == -BallSpeed / 2.0
    ensures y == paddle + PaddleHeight ==> r == BallSpeed / 2.0
  {
    ((y - paddle) / PaddleHeight - 0.5) * BallSpeed
  }

  /** The overlap test keeps y within [paddle - 8, paddle + 88], so a hit
      never gives a vertical speed above 2.4 in magnitude. */
  lemma SpinBounded(y: real, paddle: real)
    requires y + BallRadius >= paddle && y - BallRadius <= paddle + PaddleHeight
    ensures -SpinMax <= Spin(y, paddle) <= SpinMax
  {
  }

  /** Left paddle: dx becomes |dx| and dy the spin of the contact point. */
  function LeftBounce(b: Ball, p1: real): (r: Ball)
    ensures r.x == b.x && r.y == b.y
    ensures HitsLeft(b, p1) ==>
      r.dx == Abs(b.dx) && r.dx >= 0.0 &&
      r.dy == Spin(b.y, p1) && -SpinMax <= r.dy <= SpinMax
    ensures !HitsLeft(b, p1) ==> r == b
  {
    if HitsLeft(b, p1) then
      SpinBounded(b.y, p1);
      b.(dx := Abs(b.dx), dy := Spin(b.y, p1))
    else b
  }

  /** Right paddle: dx becomes -|dx| and dy the spin of the contact point. */
  function RightBounce(b: Ball, p2: real): (r: Ball)
    ensures r.x == b.x && r.y == b.y
    ensures HitsRight(b, p2) ==>
      r.dx == -Abs(b.dx) && r.dx <= 0.0 &&
      r.dy == Spin(b.y, p2) && -SpinMax <= r.dy <= SpinMax
    ensures !HitsRight(b, p2) ==> r == b
  {
    if HitsRight(b, p2) then
      SpinBounded(b.y, p2);
      b.(dx := -Abs(b.dx), dy := Spin(b.y, p2))
    else b
  }

  /** The ball after the move, the wall rule and both paddle rules, before
      the scoring rule looks at it. */
  function BallInFlight(g: GameState): Ball
  {
    RightBounce(LeftBounce(WallBounce(MoveBall(g.ball)), g.paddles.player1), g.paddles.player2)
  }

  /** Scoring: past the left edge is a point for player 2, otherwise past
      the right edge a point for player 1; either way the ball is re-served. */
  function ScorePoint(g: GameState, s: Serve): (r: GameState)
    ensures r.paddles == g.paddles && r.gameActive == g.gameActive && r.winner == g.winner
    ensures g.ball.x < 0.0 ==>
      r.scores == Scores(g.scores.player1, g.scores.player2 + 1) && r.ball == ServedBall(s)
    ensures g.ball.x > GameWidth ==>
      r.scores == Scores(g.scores.player1 + 1, g.scores.player2) && r.ball == ServedBall(s)
    ensures 0.0 <= g.ball.x <= GameWidth ==> r == g
  {
    if g.ball.x < 0.0 then
      ResetBall(g.(scores := g.scores.(player2 := g.scores.player2 + 1)), s)
    else if g.ball.x > GameWidth then
      ResetBall(g.(scores := g.scores.(player1 := g.scores.player1 + 1)), s)
    else g
  }

  /** The win check: player 1 first, then player 2. */
  function CheckWinner(g: GameState): (r: GameState)
    ensures r.ball == g.ball && r.paddles == g.paddles && r.scores == g.scores
    ensures g.scores.player1 >= MaxScore ==> r.winner == Some(Player1) && !r.gameActive
    ensures g.scores.player1 < MaxScore && g.scores.player2 >= MaxScore ==>
      r.winner == Some(Player2) && !r.gameActive
    ensures g.scores.player1 < MaxScore && g.scores.player2 < MaxScore ==> r == g
  {
    if g.scores.player1 >= MaxScore then g.(winner := Some(Player1), gameActive := false)
    else if g.scores.player2 >= MaxScore then g.(winner := Some(Player2), gameActive := false)
    else g
  }

  /** One tick of updateGameState (without the broadcast). An inactive
      game is returned as it is, no tick moves a paddle, and no tick
      makes an ended game active again. */
  function Tick(g: GameState, s: Serve): (r: GameState)
    ensures !g.gameActive ==> r == g
    ensures r.paddles == g.paddles
    ensures r.gameActive ==> g.gameActive && r.winner == g.winner
  {
    if !g.gameActive then g
    else CheckWinner(ScorePoint(g.(ball := BallInFlight(g)), s))
  }

  /** The interval firing once per draw: a run of ticks. The interval
      goes on firing after a win, but an ended game stays as it is, and
      the paddles are never moved by the loop. */
  function Run(g: GameState, serves: seq<Serve>): (r: GameState)
    ensures !g.gameActive ==> r == g
    ensures r.paddles == g.paddles
    ensures r.gameActive ==> g.gameActive
    decreases |serves|
  {
    if serves == [] then g else Run(Tick(g, serves[0]), serves[1..])
  }

  // ---------------------------------------------------------------------
  // Invariants of a game state.

  predicate PaddlesInBounds(p: Paddles)
  {
    0.0 <= p.player1 <= PaddleMax && 0.0 <= p.player2 <= PaddleMax
  }

  /** |dx| is always the ball speed; |dy| never exceeds the largest spin. */
  predicate SpeedBounded(b: Ball)
  {
    Abs(b.dx) == BallSpeed && Abs(b.dy) <= SpinMax
  }

  /** The winner field, the active flag and the scores agree: a game is
      active exactly while nobody has won, and a winner has exactly five. */
  predicate Consistent(g: GameState)
  {
    match g.winner
    case None => g.gameActive && g.scores.player1 < MaxScore && g.scores.player2 < MaxScore
    case Some(Player1) => !g.gameActive && g.scores.player1 == MaxScore && g.scores.player2 < MaxScore
    case Some(Player2) => !g.gameActive && g.scores.player2 == MaxScore && g.scores.player1 < MaxScore
  }

  predicate Good(g: GameState)
  {
    PaddlesInBounds(g.paddles) && SpeedBounded(g.ball) && Consistent(g)
  }

  // ---------------------------------------------------------------------
  // What one tick does.

  /** Scores never decrease and their total rises by at most one. */
  lemma TickScoresMonotone(g: GameState, s: Serve)
    ensures g.scores.player1 <= Tick(g, s).scores.player1
    ensures g.scores.player2 <= Tick(g, s).scores.player2
    ensures Tick(g, s).scores.player1 + Tick(g, s).scores.player2
            <= g.scores.player1 + g.scores.player2 + 1
  {
  }

  /** The scoring rule, seen from the whole tick. */
  lemma TickScoring(g: GameState, s: Serve)
    requires g.gameActive
    ensures var b, r := BallInFlight(g), Tick(g, s);
      (b.x < 0.0 ==>
         r.scores == Scores(g.scores.player1, g.scores.player2 + 1) && r.ball == ServedBall(s)) &&
      (b.x > GameWidth ==>
         r.scores == Scores(g.scores.player1 + 1, g.scores.player2) && r.ball == ServedBall(s)) &&
      (0.0 <= b.x <= GameWidth ==> r.scores == g.scores && r.ball == b)
  {
  }

  /** The win check runs after scoring in the same tick; player 1 has priority. */
  lemma TickWinner(g: GameState, s: Serve)
    requires g.gameActive
    ensures var sc, r := ScorePoint(g.(ball := BallInFlight(g)), s).scores, Tick(g, s);
      (sc.player1 >= MaxScore ==> r.winner == Some(Player1) && !r.gameActive) &&
      (sc.player1 < MaxScore && sc.player2 >= MaxScore ==> r.winner == Some(Player2) && !r.gameActive) &&
      (sc.player1 < MaxScore && sc.player2 < MaxScore ==> r.winner == g.winner && r.gameActive)
  {
  }

  /** A left-paddle hit: the ball leaves with dx = |dx| and the spin of
      the contact point, and nobody scores on that tick. */
  lemma TickLeftHit(g: GameState, s: Serve)
    requires g.gameActive
    requires HitsLeft(WallBounce(MoveBall(g.ball)), g.paddles.player1)
    ensures var b, r := WallBounce(MoveBall(g.ball)), Tick(g, s);
      r.ball == b.(dx := Abs(b.dx), dy := Spin(b.y, g.paddles.player1)) &&
      r.ball.dx >= 0.0 && -SpinMax <= r.ball.dy <= SpinMax &&
      r.scores == g.scores
  {
  }

  /** A right-paddle hit: the ball leaves with dx = -|dx| and the spin of
      the contact point, and nobody scores on that tick. */
  lemma TickRightHit(g: GameState, s: Serve)
    requires g.gameActive
    requires HitsRight(WallBounce(MoveBall(g.ball)), g.paddles.player2)
    ensures var b, r := WallBounce(MoveBall(g.ball)), Tick(g, s);
      r.ball == b.(dx := -Abs(b.dx), dy := Spin(b.y, g.paddles.player2)) &&
      r.ball.dx <= 0.0 && -SpinMax <= r.ball.dy <= SpinMax &&
      r.scores == g.scores
  {
  }

  /** Away from both paddles and inside the field, the ball just flies:
      x and y move by the velocity and dy is negated once at a wall. */
  lemma TickFreeFlight(g: GameState, s: Serve)
    requires g.gameActive
    requires var m := MoveBall(g.ball);
      !HitsLeft(m, g.paddles.player1) && !HitsRight(m, g.paddles.player2) &&
      0.0 <= m.x <= GameWidth
    ensures var r := Tick(g, s).ball;
      r.x == g.ball.x + g.ball.dx && r.y == g.ball.y + g.ball.dy && r.dx == g.ball.dx &&
      r.dy == (if AtWall(MoveBall(g.ball)) then -g.ball.dy else g.ball.dy)
  {
  }

  /** One tick keeps the paddles in bounds, the speeds bounded and the
      winner, flag and scores consistent. */
  lemma TickPreservesGood(g: GameState, s: Serve)
    requires Good(g)
    ensures Good(Tick(g, s))
  {
    if g.gameActive {
      var w := WallBounce(MoveBall(g.ball));
      var l := LeftBounce(w, g.paddles.player1);
      var b := RightBounce(l, g.paddles.player2);
      assert Abs(l.dx) == BallSpeed && Abs(l.dy) <= SpinMax;
      assert SpeedBounded(b);
      var sc := ScorePoint(g.(ball := b), s);
      assert SpeedBounded(sc.ball);
    }
  }

  // ---------------------------------------------------------------------
  // What a run of ticks does.

  lemma {:induction false} RunPreservesGood(g: GameState, serves: seq<Serve>)
    requires Good(g)
    ensures Good(Run(g, serves))
    decreases |serves|
  {
    if serves != [] {
      TickPreservesGood(g, serves[0]);
      RunPreservesGood(Tick(g, serves[0]), serves[1..]);
    }
  }

  /** Over a run, scores never decrease, paddles never move, and the total
      score rises by at most the number of ticks. */
  lemma {:induction false} RunScores(g: GameState, serves: seq<Serve>)
    ensures var r := Run(g, serves);
      g.scores.player1 <= r.scores.player1 && g.scores.player2 <= r.scores.player2 &&
      r.scores.player1 + r.scores.player2 <= g.scores.player1 + g.scores.player2 + |serves| &&
      r.paddles == g.paddles
    decreases |serves|
  {
    if serves != [] {
      TickScoresMonotone(g, serves[0]);
      RunScores(Tick(g, serves[0]), serves[1..]);
    }
  }

  // ---------------------------------------------------------------------
  // Worked cases.

  /** Scores 4-2 and the ball passes the right edge: 5-2, player 1 wins
      and the game stops. */
  lemma ScoreToWin(s: Serve)
    ensures var g := GameState(Ball(799.0, 200.0, 4.0, 0.0), Paddles(0.0, 0.0), Scores(4, 2), true, None);
      var r := Tick(g, s);
      r.scores == Scores(5, 2) && r.winner == Some(Player1) && !r.gameActive
  {
  }

  /** The same from a state that keeps the invariant: a ball at y = 9
      moving up by 2 ends at y = 7 with dy = 2, inside the top band
      rather than at its edge. */
  lemma WallContactInsideBand(s: Serve)
    ensures var g := GameState(Ball(400.0, 9.0, 4.0, -2.0), Paddles(160.0, 160.0), Scores(0, 0), true, None);
      var r := Tick(g, s);
      Good(g) && Good(r) && r.ball.y == 7.0 && r.ball.y < BallRadius && r.ball.dy == 2.0
  {
  }

  /** Ball at y = 2 moving up by 3: after one tick dy = 3 but, as there is
      no clamping, y = -1 (outside the field). */
  lemma WallContactNotClamped(s: Serve)
    ensures var g := GameState(Ball(400.0, 2.0, 4.0, -3.0), Paddles(160.0, 160.0), Scores(0, 0), true, None);
      var r := Tick(g, s);
      r.ball.y == -1.0 && r.ball.dy == 3.0
  {
  }
}
