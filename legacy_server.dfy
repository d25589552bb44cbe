/**
 * The older `WebSocketGameServer` as an object whose handlers update its
 * registry in place. Players are identified by their connection; their
 * `game_id` and `name` fields live in two maps of the server, and a game's
 * record, state included, is a value in the registry map. Every handler is
 * proved to perform exactly the transition of the same name in
 * `LegacySpec`, so the lemmas proved there hold of this server.
 */
module LegacyServer {
  import opened Values
  import opened Messages
  import opened Board
  import opened LegacySpec
  import ServerSpec

  class WebSocketGameServer {
    var games: map<Value, LegacyGame>
    var queue: seq<PlayerId>
    var gameIds: map<PlayerId, Value>
    var names: map<PlayerId, Value>
    var outbox: seq<Delivery>

    /** The registry snapshot the server's fields stand for. */
    function Abs(): LegacyRegistry
      reads this
    {
      LegacyRegistry(games, queue, gameIds, names, outbox)
    }

    ghost predicate Valid()
      reads this
    {
      LegacyInv(Abs())
    }

    constructor ()
      ensures Valid() && Abs() == EmptyRegistry
    {
      games := map[];
      queue := [];
      gameIds := map[];
      names := map[];
      outbox := [];
      new;
      EmptyRegistryInv();
    }

    /** `[p.name for p in ps]`, read from the players' current names. */
    method PlayerNames(ps: seq<PlayerId>) returns (v: Value)
      ensures v == Names(names, ps)
    {
      var items: seq<Value> := [];
      var i := 0;
      while i < |ps|
        invariant 0 <= i <= |ps|
        invariant |items| == i && forall j :: 0 <= j < i ==> items[j] == NameOf(names, ps[j])
      {
        var name := if ps[i] in names then names[ps[i]] else Str("");
        items := items + [name];
        i := i + 1;
      }
      v := List(items);
    }

    /** `send_game_update(game, GAME_STATE_UPDATE, data)` to every member `ps` of a game. */
    method SendToAll(ps: seq<PlayerId>, data: map<string, Value>)
      modifies this`outbox
      ensures outbox == old(outbox) + SendAll(ps, data)
    {
      var i := 0;
      while i < |ps|
        invariant 0 <= i <= |ps|
        invariant outbox == old(outbox) + SendAll(ps, data)[..i]
      {
        outbox := outbox + [Sent(ps[i], UpdateMsg(GameStateUpdate, data))];
        i := i + 1;
      }
      assert SendAll(ps, data)[..i] == SendAll(ps, data);
    }

    /** `end_game(game)`: release every member, then drop the game stored under its name. */
    method EndGame(key: Value)
      requires key in games && games[key].name == key
      modifies this`gameIds, this`games
      ensures Abs() == EndSpec(old(Abs()), key)
    {
      var ps := games[key].players;
      var name := games[key].name;
      var i := 0;
      while i < |ps|
        invariant 0 <= i <= |ps|
        invariant games == old(games)
        invariant ServerSpec.AssignIds(gameIds, ps[i..], Null) == ServerSpec.AssignIds(old(gameIds), ps, Null)
      {
        assert ps[i..][1..] == ps[i + 1..];
        gameIds := gameIds[ps[i] := Null];
        i := i + 1;
      }
      assert ps[i..] == [];
      if name in games {
        games := games - {name};
      }
    }

    /** `create_game(player, name, password, max_players)`. */
    method CreateGame(p: PlayerId, name: Value, password: Value, maxPlayers: Value) returns (o: Outcome)
      requires Valid()
      modifies this
      ensures Valid()
      ensures (o, Abs()) == CreateSpec(old(Abs()), p, name, password, maxPlayers)
    {
      CreateKeepsInv(Abs(), p, name, password, maxPlayers);
      if !Hashable(name) {
        return Raised(TypeError);
      }
      if name in games {
        outbox := outbox + [Sent(p, ErrorText("Game name already exists"))];
        return Done;
      }
      var players := PlayerNames([p]);
      games := games[name := LegacyGame(name, password, maxPlayers, [p], FreshState, false)];
      gameIds := gameIds[p := name];
      SendToAll([p], map["phase" := Str(LobbyPhase), "players" := players, "your_symbol" := Str("X")]);
      return Done;
    }

    /** The individual updates `join_game` sends, one per member in seat order. */
    method SendSeats(key: Value)
      requires key in games && |games[key].players| > 0
      modifies this`outbox
      ensures outbox == old(outbox) + SeatMessages(old(Abs()), games[key])
    {
      var g := games[key];
      var players := PlayerNames(g.players);
      var i := 0;
      while i < |g.players|
        invariant 0 <= i <= |g.players|
        invariant outbox == old(outbox) + SeatMessages(old(Abs()), g)[..i]
      {
        var q := g.players[i];
        var symbol := if q == g.players[0] then Str("X") else Str("O");
        var data := map["phase" := Str(g.state.phase), "players" := players, "your_symbol" := symbol,
                         "current_player" := Str("X"), "board" := g.state.board];
        outbox := outbox + [Sent(q, UpdateMsg(GameStateUpdate, data))];
        i := i + 1;
      }
      assert SeatMessages(old(Abs()), g)[..i] == SeatMessages(old(Abs()), g);
    }

    /** `join_game(player, game_name, password)`. */
    method JoinGame(p: PlayerId, name: Value, password: Value) returns (o: Outcome)
      requires Valid()
      modifies this
      ensures Valid()
      ensures (o, Abs()) == JoinSpec(old(Abs()), p, name, password)
    {
      JoinKeepsInv(Abs(), p, name, password);
      if !Hashable(name) {
        return Raised(TypeError);
      }
      if name !in games {
        outbox := outbox + [Sent(p, ErrorText("Game not found"))];
        return Done;
      }
      var g := games[name];
      if Truthy(g.password) && g.password != password {
        outbox := outbox + [Sent(p, ErrorText("Invalid password"))];
        return Done;
      }
      var m := AsInt(g.maxPlayers);
      if m.None? {
        return Raised(TypeError);
      }
      if |g.players| >= m.value {
        outbox := outbox + [Sent(p, ErrorText("Game is full"))];
        return Done;
      }
      g := g.(players := g.players + [p]);
      if |g.players| == m.value {
        g := g.(state := g.state.(phase := InGamePhase));
      }
      games := games[name := g];
      gameIds := gameIds[p := name];
      SendSeats(name);
      return Done;
    }

    /** `find_game(player)`. */
    method FindGame(p: PlayerId)
      requires Valid()
      modifies this
      ensures Valid()
      ensures Abs() == FindSpec(old(Abs()), p)
    {
      FindKeepsInv(Abs(), p);
      queue := queue + [p];
      if |queue| >= 2 {
        var pair := queue[..2];
        queue := queue[2..];
        var name := ServerSpec.MatchName(|games|);
        games := games[name := LegacyGame(name, Null, Int(2), pair, FreshState, true)];
        SeatMatched(name, pair);
      }
    }

    /** The pairing loop of `find_game`: each matched player in turn gets the game's name as `game_id` and is told its symbol. */
    method SeatMatched(name: Value, pair: seq<PlayerId>)
      modifies this`gameIds, this`outbox
      ensures gameIds == ServerSpec.AssignIds(old(gameIds), pair, name)
      ensures outbox == old(outbox) + MatchMessages(old(Abs()), pair)
    {
      var players := PlayerNames(pair);
      ghost var sends := MatchMessages(old(Abs()), pair);
      var i := 0;
      while i < |pair|
        invariant 0 <= i <= |pair|
        invariant ServerSpec.AssignIds(gameIds, pair[i..], name) == ServerSpec.AssignIds(old(gameIds), pair, name)
        invariant outbox == old(outbox) + sends[..i]
      {
        assert pair[i..][1..] == pair[i + 1..];
        gameIds := gameIds[pair[i] := name];
        var symbol := if i == 0 then Str("X") else Str("O");
        var data := map["phase" := Str(InGamePhase), "players" := players, "your_symbol" := symbol,
                         "current_player" := Str("X"), "board" := EmptyGrid()];
        assert sends[..i + 1] == sends[..i] + [Sent(pair[i], UpdateMsg(GameStateUpdate, data))];
        outbox := outbox + [Sent(pair[i], UpdateMsg(GameStateUpdate, data))];
        i := i + 1;
      }
      assert pair[i..] == [];
      assert sends[..i] == sends;
    }

    /** `handle_game_command(player, cmd)` for a `make_move` command. */
    method HandleGameCommand(p: PlayerId, data: map<string, Value>) returns (o: Outcome)
      requires Valid()
      modifies this
      ensures Valid()
      ensures (o, Abs()) == MoveSpec(old(Abs()), p, data)
    {
      MoveKeepsInv(Abs(), p, data);
      var key := if p in gameIds then gameIds[p] else Null;
      if !Hashable(key) {
        return Raised(TypeError);
      }
      if key !in games || games[key].state.phase != InGamePhase {
        return Done;
      }
      if "row" !in data {
        return Raised(KeyError(Str("row")));
      }
      if "col" !in data {
        return Raised(KeyError(Str("col")));
      }
      if "symbol" !in data {
        return Raised(KeyError(Str("symbol")));
      }
      var symbol := data["symbol"];
      var g := games[key];
      var placement := CheckPlacement(g.state.board, data["row"], data["col"]);
      if placement.Raises? {
        return Raised(placement.failure);
      }
      if placement.Rejected? {
        return Done;
      }
      AcceptMove(key, placement.r, placement.c, symbol);
      return Done;
    }

    /** An accepted move: the symbol goes into the stored board and every member is sent the outcome. */
    method AcceptMove(key: Value, r: int, c: int, symbol: Value)
      requires key in games && IsGrid(games[key].state.board) && InRange(r, c)
      modifies this`games, this`outbox
      ensures var g := old(games[key]); var b := SetCell(g.state.board, r, c, symbol);
        games == old(games)[key := g.(state := g.state.(board := b))] &&
        outbox == old(outbox) + SendAll(g.players, MoveData(b, symbol))
    {
      var g := games[key];
      var board := SetCell(g.state.board, r, c, symbol);
      games := games[key := g.(state := g.state.(board := board))];
      var update := MoveUpdate(board, symbol);
      SendToAll(g.players, update);
    }

    /** The data `handle_game_command` broadcasts after a move: the board, who moves next, and on a win or a draw the END_GAME phase and the winner. */
    method MoveUpdate(board: Value, symbol: Value) returns (update: map<string, Value>)
      requires IsGrid(board)
      ensures update == MoveData(board, symbol)
    {
      var winner := CheckWinner(board);
      var isDraw := IsFull(board);
      var nextPlayer := if symbol == Str("X") then Str("O") else Str("X");
      update := map["board" := board, "current_player" := if !Truthy(winner) && !isDraw then nextPlayer else Null];
      if Truthy(winner) {
        update := update["phase" := Str(EndGamePhase)]["winner" := winner];
      } else if isDraw {
        update := update["phase" := Str(EndGamePhase)];
      }
    }

    /** `handle_surrender(player)`. */
    method HandleSurrender(p: PlayerId) returns (o: Outcome)
      requires Valid()
      modifies this
      ensures Valid()
      ensures (o, Abs()) == SurrenderSpec(old(Abs()), p)
    {
      SurrenderKeepsInv(Abs(), p);
      var key := if p in gameIds then gameIds[p] else Null;
      if !Truthy(key) {
        return Done;
      }
      if !Hashable(key) {
        return Raised(TypeError);
      }
      if key !in games {
        return Raised(KeyError(key));
      }
      var g := games[key];
      games := games[key := g.(state := g.state.(phase := EndGamePhase))];
      var winner := FirstOther(g.players, p);
      SendToAll(g.players, map["phase" := Str(EndGamePhase), "winner" := winner, "reason" := Str("surrender")]);
      EndGame(key);
      return Done;
    }

    /** `winners[0] if winners else None`, scanning the members for the first one that is not `p`. */
    method FirstOther(ps: seq<PlayerId>, p: PlayerId) returns (w: Value)
      ensures w == FirstOtherName(names, ps, p)
    {
      var i := 0;
      while i < |ps| && ps[i] == p
        invariant 0 <= i <= |ps|
        invariant FirstOtherName(names, ps[i..], p) == FirstOtherName(names, ps, p)
      {
        assert ps[i..][1..] == ps[i + 1..];
        i := i + 1;
      }
      if i == |ps| {
        w := Null;
      } else {
        w := if ps[i] in names then names[ps[i]] else Str("");
      }
    }

    /** `handle_disconnect(player)`. */
    method HandleDisconnect(p: PlayerId) returns (o: Outcome)
      requires Valid()
      modifies this
      ensures Valid()
      ensures (o, Abs()) == DisconnectSpec(old(Abs()), p)
    {
      DisconnectKeepsInv(Abs(), p);
      if p in queue {
        queue := RemoveFirst(queue, p);
      }
      var key := if p in gameIds then gameIds[p] else Null;
      if !Truthy(key) {
        return Done;
      }
      if !Hashable(key) {
        return Raised(TypeError);
      }
      if key !in games {
        return Raised(KeyError(key));
      }
      var g := games[key];
      if p !in g.players {
        return Raised(ValueError);
      }
      g := g.(players := RemoveFirst(g.players, p));
      games := games[key := g];
      if |g.players| < 2 {
        EndGame(key);
      } else {
        var players := PlayerNames(g.players);
        SendToAll(g.players, map["players" := players]);
      }
      return Done;
    }

    /** `handle_command(player, cmd)`. */
    method HandleCommand(p: PlayerId, commandType: Value, data: map<string, Value>) returns (o: Outcome)
      requires Valid()
      modifies this
      ensures Valid()
      ensures (o, Abs()) == HandleCommandSpec(old(Abs()), p, commandType, data)
    {
      var playerName := Get(data, "player_name", Str(""));
      if commandType == Str("create_game") {
        if "name" !in data {
          return Raised(KeyError(Str("name")));
        }
        o := CreateGame(p, data["name"], Get(data, "password", Null), Get(data, "max_players", Int(2)));
        if o.Done? {
          names := names[p := playerName];
        }
      } else if commandType == Str("join_game") {
        if "name" !in data {
          return Raised(KeyError(Str("name")));
        }
        o := JoinGame(p, data["name"], Get(data, "password", Null));
        if o.Done? {
          names := names[p := playerName];
        }
      } else if commandType == Str("find_game") {
        names := names[p := playerName];
        FindGame(p);
        o := Done;
      } else if commandType == Str("surrender") {
        o := HandleSurrender(p);
      } else if commandType == Str("make_move") {
        o := HandleGameCommand(p, data);
      } else {
        o := Done;
      }
    }

    /** One received command, as `handle_connection` processes it: an exception becomes an error reply to the sender. */
    method Receive(p: PlayerId, commandType: Value, data: map<string, Value>)
      requires Valid()
      modifies this
      ensures Valid()
      ensures var (o, r) := HandleCommandSpec(old(Abs()), p, commandType, data);
        Abs() == if o.Raised? then r.(outbox := r.outbox + [Sent(p, ErrorRaised(o.failure))]) else r
    {
      var o := HandleCommand(p, commandType, data);
      if o.Raised? {
        outbox := outbox + [Sent(p, ErrorRaised(o.failure))];
      }
    }
  }
}
