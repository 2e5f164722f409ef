/** The game server: the matchmaking queue and the rooms map, with the
    socket handlers as methods that change them step by step, and the
    room's tick as a method that updates the game state field by field. */
module Server {
  import opened Wrappers
  import opened GameRules

  /** A connection handle (socket.id). */
  type SocketId = string
  /** A room id (`room_` followed by the clock reading at pairing time). */
  type RoomId = string
  /** The handle `setInterval` returns; the caller supplies it. */
  type TimerHandle = nat

  datatype Player = Player(id: SocketId, isPlayer1: bool, roomId: RoomId)

  /** indexOf: the first position of x in s, or -1. */
  function IndexOf<T(==)>(s: seq<T>, x: T): (i: int)
    ensures -1 <= i < |s|
    ensures i >= 0 ==> s[i] == x && forall j :: 0 <= j < i ==> s[j] != x
    ensures i == -1 ==> x !in s
  {
    if s == [] then -1
    else if s[0] == x then 0
    else var k := IndexOf(s[1..], x); if k < 0 then -1 else k + 1
  }

  /** findIndex(p => p.id === sock): the first player with that id, or -1. */
  function IndexOfPlayer(players: seq<Player>, sock: SocketId): (i: int)
    ensures -1 <= i < |players|
    ensures i >= 0 ==> players[i].id == sock && forall j :: 0 <= j < i ==> players[j].id != sock
    ensures i == -1 ==> forall j :: 0 <= j < |players| ==> players[j].id != sock
  {
    if players == [] then -1
    else if players[0].id == sock then 0
    else var k := IndexOfPlayer(players[1..], sock); if k < 0 then -1 else k + 1
  }

  /** splice(i, 1). */
  function RemoveAt<T>(s: seq<T>, i: nat): (r: seq<T>)
    requires i < |s|
    ensures |r| == |s| - 1
    ensures forall j :: 0 <= j < i ==> r[j] == s[j]
    ensures forall j :: i <= j < |r| ==> r[j] == s[j + 1]
  {
    s[..i] + s[i + 1..]
  }

  /** The queue after a disconnect: the first occurrence of x removed, if any. */
  function WithoutFirst<T(==)>(s: seq<T>, x: T): (r: seq<T>)
    ensures x in s ==> |r| == |s| - 1
    ensures x !in s ==> r == s
  {
    var i := IndexOf(s, x);
    if i < 0 then s else RemoveAt(s, i)
  }

  /** Exactly one copy of x, if there is one, leaves the queue; the order
      of the others is kept. */
  lemma WithoutFirstRemovesOne<T>(s: seq<T>, x: T)
    ensures multiset(WithoutFirst(s, x)) == multiset(s) - multiset{x}
    ensures x in s ==> WithoutFirst(s, x) == s[..IndexOf(s, x)] + s[IndexOf(s, x) + 1..]
  {
    var i := IndexOf(s, x);
    if i >= 0 {
      assert s == s[..i] + [x] + s[i + 1..];
    }
  }

  /** The paddle an accepted move leaves: current + direction * speed,
      clamped into [0, PaddleMax]. */
  function MovedPaddle(current: real, direction: real): (r: real)
    ensures 0.0 <= r <= PaddleMax
    ensures var target := current + direction * PaddleSpeed;
      (0.0 <= target <= PaddleMax ==> r == target) &&
      (target < 0.0 ==> r == 0.0) &&
      (target > PaddleMax ==> r == PaddleMax)
  {
    Max(0.0, Min(PaddleMax, current + direction * PaddleSpeed))
  }


  /** Removing an entry from a list without repeats keeps it without
      repeats and drops exactly that entry. */
  lemma WithoutFirstDistinct<T>(s: seq<T>, x: T)
    requires forall i, j :: 0 <= i < j < |s| ==> s[i] != s[j]
    ensures var r := WithoutFirst(s, x);
      (forall i, j :: 0 <= i < j < |r| ==> r[i] != r[j]) &&
      (forall y :: y in r <==> y in s && y != x)
  {
    var r := WithoutFirst(s, x);
    var i := IndexOf(s, x);
    if i >= 0 {
      assert r == RemoveAt(s, i);
      forall y ensures y in r <==> y in s && y != x {
        if y in r {
          var j :| 0 <= j < |r| && r[j] == y;
          if j < i { assert s[j] == y; } else { assert s[j + 1] == y; }
        }
        if y in s && y != x {
          var j :| 0 <= j < |s| && s[j] == y;
          if j < i { assert r[j] == y; } else { assert j != i; assert r[j - 1] == y; }
        }
      }
    }
  }

  /** The paddle move on a game state: only the mover's paddle changes
      (isPlayer1 selects player1) and it ends up in bounds. */
  function MovePaddle(g: GameState, isPlayer1: bool, direction: real): (r: GameState)
    ensures r.ball == g.ball && r.scores == g.scores
    ensures r.gameActive == g.gameActive && r.winner == g.winner
    ensures isPlayer1 ==>
      r.paddles == Paddles(MovedPaddle(g.paddles.player1, direction), g.paddles.player2)
    ensures !isPlayer1 ==>
      r.paddles == Paddles(g.paddles.player1, MovedPaddle(g.paddles.player2, direction))
    ensures PaddlesInBounds(g.paddles) ==> PaddlesInBounds(r.paddles)
  {
    if isPlayer1 then g.(paddles := g.paddles.(player1 := MovedPaddle(g.paddles.player1, direction)))
    else g.(paddles := g.paddles.(player2 := MovedPaddle(g.paddles.player2, direction)))
  }

  /** One matched game: its id, its two (later one) players, its game
      state and the handle of its running interval, if any. */
  datatype Room = Room(id: RoomId, players: seq<Player>, gameState: GameState,
                       gameLoop: Option<TimerHandle>)

  /** A room keeps at most two players, all tagged with its id, and a game
      state that keeps the rules' invariant (paddles in bounds among it). */
  predicate RoomValid(r: Room)
  {
    |r.players| <= 2 &&
    (forall i :: 0 <= i < |r.players| ==> r.players[i].roomId == r.id) &&
    Good(r.gameState)
  }

  /** The handlers' room test: the socket is one of the room's players
      (and, for a restart, the room has exactly two). */
  predicate Accepts(room: Room, sock: SocketId, pairOnly: bool)
  {
    IndexOfPlayer(room.players, sock) >= 0 && (!pairOnly || |room.players| == 2)
  }

  /** roomOrder lists each key of rooms exactly once. */
  ghost predicate OrderMatches(order: seq<RoomId>, rooms: map<RoomId, Room>)
  {
    (forall k :: k in rooms <==> k in order) &&
    (forall i, j :: 0 <= i < j < |order| ==> order[i] != order[j])
  }

  /** Every room in the map carries its own key, keeps its invariant and is
      not empty: a room is deleted as soon as its last player has left. */
  predicate RoomsValid(rooms: map<RoomId, Room>)
  {
    forall k :: k in rooms ==> rooms[k].id == k && RoomValid(rooms[k]) && |rooms[k].players| >= 1
  }

  /** Installing a valid, non-empty room under its own key keeps every room valid. */
  lemma RoomsValidSet(rooms: map<RoomId, Room>, k: RoomId, r: Room)
    requires RoomsValid(rooms) && r.id == k && RoomValid(r) && |r.players| >= 1
    ensures RoomsValid(rooms[k := r])
  {
  }

  /** Deleting a key keeps every remaining room valid. */
  lemma RoomsValidRemove(rooms: map<RoomId, Room>, k: RoomId)
    requires RoomsValid(rooms)
    ensures RoomsValid(rooms - {k})
  {
  }

  /** Deleting a key and its entry in roomOrder keeps the two in step. */
  lemma OrderMatchesRemove(order: seq<RoomId>, rooms: map<RoomId, Room>, k: RoomId)
    requires OrderMatches(order, rooms)
    ensures OrderMatches(WithoutFirst(order, k), rooms - {k})
  {
    WithoutFirstDistinct(order, k);
  }

  /** The position in order, from i on, of the first room whose test
      passes; |order| when there is none. */
  function FirstRoomFrom(order: seq<RoomId>, rooms: map<RoomId, Room>, i: nat,
                         sock: SocketId, pairOnly: bool): (r: nat)
    requires i <= |order| && forall j :: 0 <= j < |order| ==> order[j] in rooms
    ensures i <= r <= |order|
    ensures forall j :: i <= j < r ==> !Accepts(rooms[order[j]], sock, pairOnly)
    ensures r < |order| ==> Accepts(rooms[order[r]], sock, pairOnly)
    decreases |order| - i
  {
    if i == |order| then i
    else if Accepts(rooms[order[i]], sock, pairOnly) then i
    else FirstRoomFrom(order, rooms, i + 1, sock, pairOnly)
  }

  /** The key of the room the handlers' `for` loop stops at, if any: the
      first key in insertion order whose room passes the test. */
  function FirstRoom(order: seq<RoomId>, rooms: map<RoomId, Room>,
                     sock: SocketId, pairOnly: bool): (r: Option<RoomId>)
    requires forall j :: 0 <= j < |order| ==> order[j] in rooms
    ensures r.Some? ==> r.value in rooms && Accepts(rooms[r.value], sock, pairOnly)
    ensures r.None? ==> forall j :: 0 <= j < |order| ==> !Accepts(rooms[order[j]], sock, pairOnly)
  {
    var j := FirstRoomFrom(order, rooms, 0, sock, pairOnly);
    if j < |order| then Some(order[j]) else None
  }

  /** When every key is listed, no room passing the test is missed. */
  lemma FirstRoomNone(order: seq<RoomId>, rooms: map<RoomId, Room>, sock: SocketId, pairOnly: bool)
    requires OrderMatches(order, rooms)
    requires FirstRoom(order, rooms, sock, pairOnly).None?
    ensures forall k :: k in rooms ==> !Accepts(rooms[k], sock, pairOnly)
  {
    forall k | k in rooms
      ensures !Accepts(rooms[k], sock, pairOnly)
    {
      var j :| 0 <= j < |order| && order[j] == k;
    }
  }

  /** When exactly one room passes the test, the scan finds that room,
      whatever the insertion order. */
  lemma FirstRoomOnly(order: seq<RoomId>, rooms: map<RoomId, Room>, sock: SocketId,
                      pairOnly: bool, k: RoomId)
    requires OrderMatches(order, rooms)
    requires k in rooms && Accepts(rooms[k], sock, pairOnly)
    requires forall k' :: k' in rooms && k' != k ==> !Accepts(rooms[k'], sock, pairOnly)
    ensures FirstRoom(order, rooms, sock, pairOnly) == Some(k)
  {
    var j :| 0 <= j < |order| && order[j] == k;
    var f := FirstRoomFrom(order, rooms, 0, sock, pairOnly);
    assert f <= j;
    assert order[f] in rooms;
  }

  /** startGameLoop: afterwards a loop is installed; one already running
      is kept, so starting twice is starting once. */
  function StartGameLoop(r: Room, timer: TimerHandle): (r': Room)
    ensures r'.gameLoop.Some?
    ensures r.gameLoop.Some? ==> r' == r
    ensures r' == r.(gameLoop := r'.gameLoop)
  {
    if r.gameLoop.Some? then r else r.(gameLoop := Some(timer))
  }

  /** stopGameLoop: afterwards no loop is installed; with none running
      nothing changes, so stopping twice is stopping once. */
  function StopGameLoop(r: Room): (r': Room)
    ensures r'.gameLoop.None?
    ensures r.gameLoop.None? ==> r' == r
    ensures r' == r.(gameLoop := r'.gameLoop)
  {
    if r.gameLoop.Some? then r.(gameLoop := None) else r
  }

  lemma StartStopIdempotent(r: Room, t1: TimerHandle, t2: TimerHandle)
    ensures StartGameLoop(StartGameLoop(r, t1), t2) == StartGameLoop(r, t1)
    ensures StopGameLoop(StopGameLoop(r)) == StopGameLoop(r)
  {
  }

  /** resetBall(gameState), one field at a time. */
  method ResetBall(g: GameState, s: Serve) returns (gameState: GameState)
    ensures gameState == GameRules.ResetBall(g, s)
  {
    gameState := g;
    gameState := gameState.(ball := gameState.ball.(x := GameWidth / 2.0));
    gameState := gameState.(ball := gameState.ball.(y := GameHeight / 2.0));
    gameState := gameState.(ball := gameState.ball.(dx := if s.dir > 0.5 then BallSpeed else -BallSpeed));
    gameState := gameState.(ball := gameState.ball.(dy := (s.spin - 0.5) * BallSpeed));
  }

  /** updateGameState(room), without the broadcast: the fields of the game
      state are updated in the order the code updates them, and the result
      is one tick of the rules. */
  method UpdateGameState(g: GameState, s: Serve) returns (gameState: GameState)
    ensures gameState == Tick(g, s)
  {
    gameState := g;
    if !gameState.gameActive {
      return;
    }

    gameState := gameState.(ball := gameState.ball.(x := gameState.ball.x + gameState.ball.dx));
    gameState := gameState.(ball := gameState.ball.(y := gameState.ball.y + gameState.ball.dy));
    assert gameState.ball == MoveBall(g.ball);

    if gameState.ball.y <= BallRadius || gameState.ball.y >= GameHeight - BallRadius {
      gameState := gameState.(ball := gameState.ball.(dy := -gameState.ball.dy));
    }
    assert gameState.ball == WallBounce(MoveBall(g.ball));

    var ballLeft := gameState.ball.x - BallRadius;
    var ballRight := gameState.ball.x + BallRadius;
    var ballTop := gameState.ball.y - BallRadius;
    var ballBottom := gameState.ball.y + BallRadius;

    if ballLeft <= PaddleInner && ballRight >= PaddleOuter &&
       ballBottom >= gameState.paddles.player1 &&
       ballTop <= gameState.paddles.player1 + PaddleHeight {
      gameState := gameState.(ball := gameState.ball.(dx := Abs(gameState.ball.dx)));
      var hitPos := (gameState.ball.y - gameState.paddles.player1) / PaddleHeight;
      gameState := gameState.(ball := gameState.ball.(dy := (hitPos - 0.5) * BallSpeed));
    }
    assert gameState.ball == LeftBounce(WallBounce(MoveBall(g.ball)), g.paddles.player1);

    if ballRight >= GameWidth - PaddleInner && ballLeft <= GameWidth - PaddleOuter &&
       ballBottom >= gameState.paddles.player2 &&
       ballTop <= gameState.paddles.player2 + PaddleHeight {
      gameState := gameState.(ball := gameState.ball.(dx := -Abs(gameState.ball.dx)));
      var hitPos := (gameState.ball.y - gameState.paddles.player2) / PaddleHeight;
      gameState := gameState.(ball := gameState.ball.(dy := (hitPos - 0.5) * BallSpeed));
    }
    assert gameState == g.(ball := BallInFlight(g));

    if gameState.ball.x < 0.0 {
      gameState := gameState.(scores := gameState.scores.(player2 := gameState.scores.player2 + 1));
      gameState := ResetBall(gameState, s);
    } else if gameState.ball.x > GameWidth {
      gameState := gameState.(scores := gameState.scores.(player1 := gameState.scores.player1 + 1));
      gameState := ResetBall(gameState, s);
    }
    assert gameState == ScorePoint(g.(ball := BallInFlight(g)), s);

    if gameState.scores.player1 >= MaxScore {
      gameState := gameState.(winner := Some(Player1));
      gameState := gameState.(gameActive := false);
    } else if gameState.scores.player2 >= MaxScore {
      gameState := gameState.(winner := Some(Player2));
      gameState := gameState.(gameActive := false);
    }
  }

  /** The server's two collections: the FIFO of waiting sockets and the
      rooms map, whose keys iterate in insertion order (roomOrder). */
  class Server {
    var waitingPlayers: seq<SocketId>
    var rooms: map<RoomId, Room>
    var roomOrder: seq<RoomId>

    /** The queue never holds two sockets once a connection is handled,
        roomOrder lists the keys, and every room is valid and non-empty. */
    ghost predicate Valid()
      reads this
    {
      |waitingPlayers| <= 1 && OrderMatches(roomOrder, rooms) && RoomsValid(rooms)
    }

    constructor ()
      ensures Valid()
      ensures waitingPlayers == [] && rooms == map[] && roomOrder == []
    {
      waitingPlayers := [];
      rooms := map[];
      roomOrder := [];
    }

    /** The `for ... of rooms` scan of the handlers. */
    method FindRoom(sock: SocketId, pairOnly: bool) returns (found: Option<RoomId>)
      requires Valid()
      ensures found == FirstRoom(roomOrder, rooms, sock, pairOnly)
    {
      var i := 0;
      while i < |roomOrder|
        invariant 0 <= i <= |roomOrder|
        invariant FirstRoomFrom(roomOrder, rooms, i, sock, pairOnly) ==
                  FirstRoomFrom(roomOrder, rooms, 0, sock, pairOnly)
      {
        var room := rooms[roomOrder[i]];
        if Accepts(room, sock, pairOnly) {
          return Some(roomOrder[i]);
        }
        i := i + 1;
      }
      return None;
    }

    /** The connection handler: the socket joins the tail of the queue;
        with two or more waiting, the two oldest leave it, in order, and
        form a fresh room under roomId (replacing any room of that id),
        the first on the left paddle. The queue ends with fewer than two.
        The two playerAssigned payloads are returned. */
    method Connect(sock: SocketId, roomId: RoomId, s: Serve) returns (paired: Option<(Player, Player)>)
      requires Valid()
      modifies this
      ensures Valid()
      ensures |waitingPlayers| < 2
      ensures var q := old(waitingPlayers) + [sock];
        if |q| >= 2 then
          var p1, p2 := Player(q[0], true, roomId), Player(q[1], false, roomId);
          paired == Some((p1, p2)) &&
          waitingPlayers == q[2..] &&
          rooms == old(rooms)[roomId := Room(roomId, [p1, p2], CreateInitialGameState(s), None)] &&
          roomOrder == (if roomId in old(rooms) then old(roomOrder) else old(roomOrder) + [roomId])
        else
          paired == None && waitingPlayers == q &&
          rooms == old(rooms) && roomOrder == old(roomOrder)
    {
      waitingPlayers := waitingPlayers + [sock];
      paired := None;
      if |waitingPlayers| >= 2 {
        var player1Id := waitingPlayers[0];
        waitingPlayers := waitingPlayers[1..];
        var player2Id := waitingPlayers[0];
        waitingPlayers := waitingPlayers[1..];
        var players := [Player(player1Id, true, roomId), Player(player2Id, false, roomId)];
        var room := Room(roomId, players, CreateInitialGameState(s), None);
        if roomId !in rooms {
          roomOrder := roomOrder + [roomId];
        }
        rooms := rooms[roomId := room];
        paired := Some((players[0], players[1]));
      }
    }

    /** The one-second timeout after pairing: the room's loop is started. */
    method GameStartTimeout(roomId: RoomId, timer: TimerHandle)
      requires Valid()
      modifies this
      ensures Valid()
      ensures rooms == if roomId in old(rooms)
                       then old(rooms)[roomId := StartGameLoop(old(rooms)[roomId], timer)]
                       else old(rooms)
      ensures waitingPlayers == old(waitingPlayers) && roomOrder == old(roomOrder)
    {
      if roomId in rooms {
        rooms := rooms[roomId := StartGameLoop(rooms[roomId], timer)];
      }
    }

    /** The room's interval firing: one tick of its game. */
    method LoopFired(roomId: RoomId, s: Serve)
      requires Valid()
      requires roomId in rooms && rooms[roomId].gameLoop.Some?
      modifies this
      ensures Valid()
      ensures rooms == old(rooms)[roomId := old(rooms)[roomId].(gameState := Tick(old(rooms)[roomId].gameState, s))]
      ensures waitingPlayers == old(waitingPlayers) && roomOrder == old(roomOrder)
    {
      var room := rooms[roomId];
      TickPreservesGood(room.gameState, s);
      var next := UpdateGameState(room.gameState, s);
      rooms := rooms[roomId := room.(gameState := next)];
    }

    /** The disconnect handler: the socket leaves the queue if it is there,
        and leaves the first room that holds it, if any. That room is
        deleted, and its loop cleared, exactly when it becomes empty;
        otherwise its remaining player is the one notified. No other room
        changes. Returns the notified socket and the cleared timer. */
    method Disconnect(sock: SocketId) returns (notified: Option<SocketId>, cleared: Option<TimerHandle>)
      requires Valid()
      modifies this
      ensures Valid()
      ensures waitingPlayers == WithoutFirst(old(waitingPlayers), sock)
      ensures match FirstRoom(old(roomOrder), old(rooms), sock, false)
        case None =>
          rooms == old(rooms) && roomOrder == old(roomOrder) && notified == None && cleared == None
        case Some(k) =>
          var r := old(rooms)[k];
          var left := RemoveAt(r.players, IndexOfPlayer(r.players, sock));
          if left == [] then
            rooms == old(rooms) - {k} && roomOrder == WithoutFirst(old(roomOrder), k) &&
            notified == None && cleared == r.gameLoop
          else
            rooms == old(rooms)[k := r.(players := left)] && roomOrder == old(roomOrder) &&
            notified == Some(left[0].id) && cleared == None
    {
      var waitingIndex := IndexOf(waitingPlayers, sock);
      if waitingIndex > -1 {
        waitingPlayers := RemoveAt(waitingPlayers, waitingIndex);
      }

      notified, cleared := None, None;
      var found := FindRoom(sock, false);
      if found.Some? {
        var roomId := found.value;
        var room := rooms[roomId];
        var playerIndex := IndexOfPlayer(room.players, sock);
        room := room.(players := RemoveAt(room.players, playerIndex));
        if |room.players| > 0 {
          notified := Some(room.players[0].id);
          RoomsValidSet(rooms, roomId, room);
          rooms := rooms[roomId := room];
        } else {
          // stopGameLoop(room), then rooms.delete(roomId)
          cleared := room.gameLoop;
          room := StopGameLoop(room);
          OrderMatchesRemove(roomOrder, rooms, roomId);
          RoomsValidRemove(rooms, roomId);
          rooms := rooms - {roomId};
          roomOrder := WithoutFirst(roomOrder, roomId);
        }
      }
    }

    /** The paddleMove handler: in the first room holding the socket, the
        mover's paddle moves by direction * speed, clamped into bounds.
        No other paddle, room or field changes. */
    method PaddleMove(sock: SocketId, direction: real)
      requires Valid()
      modifies this
      ensures Valid()
      ensures waitingPlayers == old(waitingPlayers) && roomOrder == old(roomOrder)
      ensures match FirstRoom(old(roomOrder), old(rooms), sock, false)
        case None => rooms == old(rooms)
        case Some(k) =>
          var r := old(rooms)[k];
          var mover := r.players[IndexOfPlayer(r.players, sock)];
          rooms == old(rooms)[k := r.(gameState := MovePaddle(r.gameState, mover.isPlayer1, direction))]
    {
      var found := FindRoom(sock, false);
      if found.Some? {
        var room := rooms[found.value];
        var player := room.players[IndexOfPlayer(room.players, sock)];
        var currentPos := if player.isPlayer1 then room.gameState.paddles.player1
                          else room.gameState.paddles.player2;
        var newPos := currentPos + direction * PaddleSpeed;
        var bounded := Max(0.0, Min(PaddleMax, newPos));
        var paddles := if player.isPlayer1 then room.gameState.paddles.(player1 := bounded)
                       else room.gameState.paddles.(player2 := bounded);
        var moved := room.(gameState := room.gameState.(paddles := paddles));
        assert moved.gameState == MovePaddle(room.gameState, player.isPlayer1, direction);
        RoomsValidSet(rooms, found.value, moved);
        rooms := rooms[found.value := moved];
      }
    }

    /** The restartGame handler: in the first room that holds the socket
        and has exactly two players, a fresh initial state is installed and
        the loop started (kept, if it is running). Nothing else changes. */
    method RestartGame(sock: SocketId, s: Serve, timer: TimerHandle)
      requires Valid()
      modifies this
      ensures Valid()
      ensures waitingPlayers == old(waitingPlayers) && roomOrder == old(roomOrder)
      ensures match FirstRoom(old(roomOrder), old(rooms), sock, true)
        case None => rooms == old(rooms)
        case Some(k) =>
          var r := old(rooms)[k];
          rooms == old(rooms)[k := StartGameLoop(r.(gameState := CreateInitialGameState(s)), timer)]
    {
      var found := FindRoom(sock, true);
      if found.Some? {
        var room := rooms[found.value];
        room := room.(gameState := CreateInitialGameState(s));
        room := StartGameLoop(room, timer);
        rooms := rooms[found.value := room];
      }
    }
  }

  /** Two sockets pair up, a third socket's paddle move changes nothing,
      and once the second player has left, a restart from the first is
      ignored because its room no longer has two players. */
  method PairingScenario(h1: SocketId, h2: SocketId, h3: SocketId, id: RoomId,
                         s: Serve, s2: Serve, direction: real, timer: TimerHandle)
    returns (paired: Option<(Player, Player)>, told: Option<SocketId>, finalRooms: map<RoomId, Room>)
    requires h1 != h2 && h3 != h1 && h3 != h2
    ensures paired == Some((Player(h1, true, id), Player(h2, false, id)))
    ensures told == Some(h1)
    ensures finalRooms == map[id := Room(id, [Player(h1, true, id)], CreateInitialGameState(s), None)]
  {
    var server := new Server();
    var first := server.Connect(h1, id, s);
    assert first == None && server.waitingPlayers == [h1];
    paired := server.Connect(h2, id, s);
    assert paired == Some((Player(h1, true, id), Player(h2, false, id)));
    assert server.waitingPlayers == [] && server.roomOrder == [id];
    var room := Room(id, [Player(h1, true, id), Player(h2, false, id)], CreateInitialGameState(s), None);
    assert server.rooms == map[id := room];

    assert !Accepts(room, h3, false);
    server.PaddleMove(h3, direction);
    assert server.rooms == map[id := room];

    assert IndexOfPlayer(room.players, h2) == 1;
    var cleared;
    told, cleared := server.Disconnect(h2);
    var alone := room.(players := [Player(h1, true, id)]);
    assert RemoveAt(room.players, 1) == [Player(h1, true, id)];
    assert told == Some(h1) && cleared == None && server.rooms == map[id := alone];

    assert !Accepts(alone, h1, true);
    server.RestartGame(h1, s2, timer);
    finalRooms := server.rooms;
  }
}
