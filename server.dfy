/**
 * The framework's `GameServer` with the tic-tac-toe hooks of
 * `TicTacToeServer`, as an object whose handlers update its registry in
 * place. Players are identified by their connection; their `game_id` and
 * `name` fields live in two maps of the server. A game's record, state
 * included, is a value in the registry map. Every handler is proved to
 * perform exactly the transition of the same name in `ServerSpec`, so the
 * lemmas proved there hold of the server.
 */
module NexusServer {
  import opened Values
  import opened Messages
  import opened Board
  import opened GameStates
  import opened TicTacToeServerState
  import opened ServerSpec

  class TicTacToeServer {
    var games: map<Value, GameView>
    var queue: seq<PlayerId>
    var gameIds: map<PlayerId, Value>
    var names: map<PlayerId, Value>
    var outbox: seq<Delivery>

    /** The registry snapshot the server's fields stand for. */
    function Abs(): Registry
      reads this
    {
      Registry(games, queue, gameIds, names, outbox)
    }

    ghost predicate Valid()
      reads this
    {
      RegistryInv(Abs())
    }

    constructor ()
      ensures Valid() && Abs() == EmptyRegistry
    {
      games := map[];
      queue := [];
      gameIds := map[];
      names := map[];
      outbox := [];
      new;
      EmptyRegistryInv();
    }

    /** `send_game_update(game, ...)`: each member, in seat order, is sent its own perspective. */
    method SendGameUpdate(key: Value)
      requires key in games
      modifies this`outbox
      ensures outbox == old(outbox) + Broadcast(games[key])
    {
      var g := games[key];
      ghost var sends := Broadcast(g);
      var i := 0;
      while i < |g.players|
        invariant 0 <= i <= |g.players|
        invariant outbox == old(outbox) + sends[..i]
      {
        var p := g.players[i];
        var data := Perspective(g.state, IndexOf(g.players, p));
        assert sends[..i + 1] == sends[..i] + [Sent(p, UpdateMsg(GameStateUpdate, data))];
        outbox := outbox + [Sent(p, UpdateMsg(GameStateUpdate, data))];
        i := i + 1;
      }
      assert sends[..i] == sends;
    }

    /** One `send_game_update` per member of the game, as `join_game` does after a player joins. */
    method SendToEachMember(key: Value)
      requires key in games
      modifies this`outbox
      ensures outbox == old(outbox) + Repeat(Broadcast(games[key]), |games[key].players|)
    {
      var n := |games[key].players|;
      var i := 0;
      while i < n
        invariant 0 <= i <= n
        invariant outbox == old(outbox) + Repeat(Broadcast(games[key]), i)
      {
        SendGameUpdate(key);
        i := i + 1;
      }
    }

    /** `end_game(game)`: release every member, then drop the game stored under its name. */
    method EndGame(key: Value)
      requires key in games && games[key].name == key
      modifies this`gameIds, this`games
      ensures Abs() == EndSpec(old(Abs()), key)
    {
      var ps := games[key].players;
      var name := games[key].name;
      var i := 0;
      while i < |ps|
        invariant 0 <= i <= |ps|
        invariant games == old(games)
        invariant AssignIds(gameIds, ps[i..], Null) == AssignIds(old(gameIds), ps, Null)
      {
        assert ps[i..][1..] == ps[i + 1..];
        gameIds := gameIds[ps[i] := Null];
        i := i + 1;
      }
      assert ps[i..] == [];
      if name in games {
        games := games - {name};
      }
    }

    /** `create_game(player, name, password, max_players)`. */
    method CreateGame(p: PlayerId, name: Value, password: Value, maxPlayers: Value) returns (o: Outcome)
      requires Valid()
      modifies this
      ensures Valid()
      ensures (o, Abs()) == CreateSpec(old(Abs()), p, name, password, maxPlayers)
    {
      CreateKeepsInv(Abs(), p, name, password, maxPlayers);
      if !Hashable(name) {
        return Raised(TypeError);
      }
      if name in games {
        outbox := outbox + [Sent(p, ErrorText("Game name already exists"))];
        return Done;
      }
      games := games[name := GameView(name, password, maxPlayers, [p], InitialView, false)];
      gameIds := gameIds[p := name];
      SendGameUpdate(name);
      return Done;
    }

    /** `join_game(player, game_name, password)`. */
    method JoinGame(p: PlayerId, name: Value, password: Value) returns (o: Outcome)
      requires Valid()
      modifies this
      ensures Valid()
      ensures (o, Abs()) == JoinSpec(old(Abs()), p, name, password)
    {
      JoinKeepsInv(Abs(), p, name, password);
      if !Hashable(name) {
        return Raised(TypeError);
      }
      if name !in games {
        outbox := outbox + [Sent(p, ErrorText("Game not found"))];
        return Done;
      }
      var g := games[name];
      if Truthy(g.password) && g.password != password {
        outbox := outbox + [Sent(p, ErrorText("Invalid password"))];
        return Done;
      }
      var m := AsInt(g.maxPlayers);
      if m.None? {
        return Raised(TypeError);
      }
      if |g.players| >= m.value {
        outbox := outbox + [Sent(p, ErrorText("Game is full"))];
        return Done;
      }
      JoinSucceeds(Abs(), p, name, password, g, m.value);
      g := g.(players := g.players + [p]);
      if |g.players| == m.value {
        g := g.(state := g.state.(phase := InGame));
      }
      games := games[name := g];
      gameIds := gameIds[p := name];
      SendToEachMember(name);
      return Done;
    }

    /** `find_game(player)`. */
    method FindGame(p: PlayerId)
      requires Valid()
      modifies this
      ensures Valid()
      ensures Abs() == FindSpec(old(Abs()), p)
    {
      FindKeepsInv(Abs(), p);
      queue := queue + [p];
      if |queue| >= 2 {
        var pair := queue[..2];
        queue := queue[2..];
        var name := MatchName(|games|);
        games := games[name := GameView(name, Null, Int(2), pair, InitialView, true)];
        SeatMatched(name);
      }
    }

    /** The pairing loop of `find_game`: each matched player in turn gets the game's name as `game_id`, and a broadcast goes out. */
    method SeatMatched(name: Value)
      requires name in games
      modifies this`gameIds, this`outbox
      ensures gameIds == AssignIds(old(gameIds), games[name].players, name)
      ensures outbox == old(outbox) + Repeat(Broadcast(games[name]), |games[name].players|)
    {
      var pair := games[name].players;
      var i := 0;
      while i < |pair|
        invariant 0 <= i <= |pair|
        invariant AssignIds(gameIds, pair[i..], name) == AssignIds(old(gameIds), pair, name)
        invariant outbox == old(outbox) + Repeat(Broadcast(games[name]), i)
      {
        assert pair[i..][1..] == pair[i + 1..];
        gameIds := gameIds[pair[i] := name];
        SendGameUpdate(name);
        i := i + 1;
      }
      assert pair[i..] == [];
    }

    /**
     * The state part of an accepted move in `handle_game_command`: write the
     * cell, look for a winner and a draw, pass the turn, and end the game on
     * a win or a draw.
     */
    method PlayMove(v: StateView, r: int, c: int, symbol: Value) returns (v': StateView)
      requires IsGrid(v.board) && InRange(r, c)
      ensures v' == AfterMove(v, r, c, symbol)
    {
      var board := SetCell(v.board, r, c, symbol);
      var winner := CheckWinner(board);
      var isDraw := IsFull(board);
      var phase := v.phase;
      if Truthy(winner) {
        phase := GamePhase.EndGame;
      } else if isDraw {
        phase := GamePhase.EndGame;
      }
      v' := StateView(phase, board, NextSymbol(symbol));
    }

    /** `handle_surrender(game, player)`, for the game the player's `game_id` names. */
    method HandleSurrender(p: PlayerId)
      requires Valid() && GameIdOf(Abs(), p) in games
      modifies this
      ensures Valid()
      ensures Abs() == SurrenderSpec(old(Abs()), p)
    {
      SurrenderKeepsInv(Abs(), p);
      var key := if p in gameIds then gameIds[p] else Null;
      if !Truthy(key) {
        return;
      }
      var g := games[key];
      games := games[key := g.(state := g.state.(phase := GamePhase.EndGame))];
      SendGameUpdate(key);
      EndGame(key);
    }

    /** `TicTacToeServer.handle_game_command(game, player, cmd)`, for the IN_GAME game stored under `key`. */
    method HandleGameCommand(key: Value, p: PlayerId, data: map<string, Value>) returns (o: Outcome)
      requires Valid() && key in games && games[key].state.phase == InGame
      modifies this
      ensures Valid()
      ensures (o, Abs()) == MoveSpec(old(Abs()), key, p, data)
    {
      var g := games[key];
      if |g.players| == 0 {
        return Raised(IndexError);
      }
      var symbol := if p == g.players[0] then Str("X") else Str("O");
      if symbol != g.state.current {
        return Done;
      }
      if "row" !in data {
        return Raised(KeyError(Str("row")));
      }
      if "col" !in data {
        return Raised(KeyError(Str("col")));
      }
      var placement := CheckPlacement(g.state.board, data["row"], data["col"]);
      if placement.Raises? {
        return Raised(placement.failure);
      }
      if placement.Rejected? {
        return Done;
      }
      MoveKeepsInv(Abs(), key, p, data);
      AcceptMove(key, placement.r, placement.c, symbol);
      return Done;
    }

    /** An accepted move: the game's state becomes the one after the move, and every member is sent the update. */
    method AcceptMove(key: Value, r: int, c: int, symbol: Value)
      requires key in games && IsGrid(games[key].state.board) && InRange(r, c)
      modifies this`games, this`outbox
      ensures var g' := old(games[key]).(state := AfterMove(old(games[key].state), r, c, symbol));
        games == old(games)[key := g'] && outbox == old(outbox) + Broadcast(g')
    {
      var g := games[key];
      var state := PlayMove(g.state, r, c, symbol);
      games := games[key := g.(state := state)];
      SendGameUpdate(key);
    }

    /** `handle_disconnect(player)`. */
    method HandleDisconnect(p: PlayerId) returns (o: Outcome)
      requires Valid()
      modifies this
      ensures Valid()
      ensures (o, Abs()) == DisconnectSpec(old(Abs()), p)
    {
      DisconnectKeepsInv(Abs(), p);
      if p in queue {
        queue := RemoveFirst(queue, p);
      }
      var key := if p in gameIds then gameIds[p] else Null;
      if !Truthy(key) {
        return Done;
      }
      if !Hashable(key) {
        return Raised(TypeError);
      }
      if key !in games {
        return Raised(KeyError(key));
      }
      var g := games[key];
      if p !in g.players {
        return Raised(ValueError);
      }
      g := g.(players := RemoveFirst(g.players, p));
      games := games[key := g];
      if |g.players| < 2 {
        EndGame(key);
      } else {
        SendGameUpdate(key);
      }
      return Done;
    }

    /** `handle_command(player, cmd)`. */
    method HandleCommand(p: PlayerId, commandType: Value, data: map<string, Value>) returns (o: Outcome)
      requires Valid()
      modifies this
      ensures Valid()
      ensures (o, Abs()) == HandleCommandSpec(old(Abs()), p, commandType, data)
    {
      var playerName := Get(data, "player_name", Str(""));
      if commandType == Str("create_game") {
        if "name" !in data {
          return Raised(KeyError(Str("name")));
        }
        o := CreateGame(p, data["name"], Get(data, "password", Null), Get(data, "max_players", Int(2)));
        if o.Done? {
          names := names[p := playerName];
        }
      } else if commandType == Str("join_game") {
        if "name" !in data {
          return Raised(KeyError(Str("name")));
        }
        o := JoinGame(p, data["name"], Get(data, "password", Null));
        if o.Done? {
          names := names[p := playerName];
        }
      } else if commandType == Str("find_game") {
        names := names[p := playerName];
        FindGame(p);
        o := Done;
      } else {
        o := RouteToGame(p, commandType, data);
      }
    }

    /** The branch of `handle_command` for any other command: it goes to the sender's game. */
    method RouteToGame(p: PlayerId, commandType: Value, data: map<string, Value>) returns (o: Outcome)
      requires Valid()
      requires commandType != Str("create_game") && commandType != Str("join_game") && commandType != Str("find_game")
      modifies this
      ensures Valid()
      ensures (o, Abs()) == HandleCommandSpec(old(Abs()), p, commandType, data)
    {
      var key := if p in gameIds then gameIds[p] else Null;
      if !Hashable(key) {
        return Raised(TypeError);
      }
      if key !in games {
        return Done;
      }
      if commandType == Str("surrender") {
        HandleSurrender(p);
        return Done;
      }
      if !Validate(games[key].state.phase, commandType) {
        return Done;
      }
      o := HandleGameCommand(key, p, data);
    }

    /** One received command, as `handle_connection` processes it: an exception becomes an error reply to the sender. */
    method Receive(p: PlayerId, commandType: Value, data: map<string, Value>)
      requires Valid()
      modifies this
      ensures Valid()
      ensures var (o, r) := HandleCommandSpec(old(Abs()), p, commandType, data);
        Abs() == if o.Raised? then r.(outbox := r.outbox + [Sent(p, ErrorRaised(o.failure))]) else r
    {
      var o := HandleCommand(p, commandType, data);
      if o.Raised? {
        outbox := outbox + [Sent(p, ErrorRaised(o.failure))];
      }
    }
  }
}
