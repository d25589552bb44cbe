/**
 * The session registry of the framework's `GameServer`, instantiated with the
 * tic-tac-toe hooks of `TicTacToeServer`, as pure transitions on a snapshot:
 * the games by name, the matchmaking queue, each player's `game_id` and
 * `name`, and the outbox of everything sent. Each handler is one function
 * returning how it ended and the next snapshot; the server class is proved
 * to follow these functions, and the lemmas below state what they promise.
 */
module ServerSpec {
  import opened Values
  import opened Messages
  import opened Board
  import opened GameStates
  import opened TicTacToeServerState

  /** A `Game`: name, password, max_players, players in seat order, its state, and whether matchmaking made it. */
  datatype GameView = GameView(
    name: Value,
    password: Value,
    maxPlayers: Value,
    players: seq<PlayerId>,
    state: StateView,
    isMatchmaking: bool)

  datatype Registry = Registry(
    games: map<Value, GameView>,
    queue: seq<PlayerId>,
    gameIds: map<PlayerId, Value>,
    names: map<PlayerId, Value>,
    outbox: seq<Delivery>)

  /** `player.game_id`, which starts out as `None`. */
  function GameIdOf(r: Registry, p: PlayerId): Value
  {
    if p in r.gameIds then r.gameIds[p] else Null
  }

  /** `player.name`, which starts out as `""`. */
  function NameOf(r: Registry, p: PlayerId): Value
  {
    if p in r.names then r.names[p] else Str("")
  }

  /** The registry apart from the outbox. */
  function Tables(r: Registry): Registry
  {
    r.(outbox := [])
  }

  function SendError(r: Registry, p: PlayerId, message: string): Registry
  {
    r.(outbox := r.outbox + [Sent(p, ErrorText(message))])
  }

  /**
   * `send_game_update` as this server performs it: whatever data it is given,
   * every member in seat order receives the state's perspective of the first
   * seat that member holds.
   */
  function Broadcast(g: GameView): seq<Delivery>
  {
    seq(|g.players|, i requires 0 <= i < |g.players| =>
      Sent(g.players[i], UpdateMsg(GameStateUpdate, Perspective(g.state, IndexOf(g.players, g.players[i])))))
  }

  /** `n` broadcasts in a row. */
  function Repeat(ds: seq<Delivery>, n: nat): seq<Delivery>
  {
    if n == 0 then [] else Repeat(ds, n - 1) + ds
  }

  /** `n` repetitions of a batch of sends hold `n` times as many deliveries. */
  lemma {:induction false} RepeatLength(ds: seq<Delivery>, n: nat)
    ensures |Repeat(ds, n)| == n * |ds|
  {
    if n > 0 {
      RepeatLength(ds, n - 1);
      assert n * |ds| == (n - 1) * |ds| + |ds|;
    }
  }

  /**
   * A broadcast reaches every member once, in seat order; a member is told it
   * plays X exactly when it holds the first seat; and the data never carries a
   * winner, whatever the caller computed.
   */
  lemma BroadcastSeats(g: GameView)
    ensures |Broadcast(g)| == |g.players|
    ensures forall i :: 0 <= i < |g.players| ==> Broadcast(g)[i].to == g.players[i]
    ensures forall i :: 0 <= i < |g.players| ==>
              Broadcast(g)[i].msg.UpdateMsg? && Broadcast(g)[i].msg.updateType == GameStateUpdate &&
              "winner" !in Broadcast(g)[i].msg.data &&
              (Broadcast(g)[i].msg.data["your_symbol"] == Str("X") <==> g.players[i] == g.players[0])
  {
    forall i | 0 <= i < |g.players|
      ensures Broadcast(g)[i].msg.data["your_symbol"] == Str("X") <==> g.players[i] == g.players[0]
    {
      var k := IndexOf(g.players, g.players[i]);
      assert k == 0 <==> g.players[i] == g.players[0];
    }
  }

  // create_game

  /**
   * `create_game(player, name, password, max_players)`. `name in self.games`
   * raises TypeError for an unhashable name.
   */
  function CreateSpec(r: Registry, p: PlayerId, name: Value, password: Value, maxPlayers: Value): (Outcome, Registry)
  {
    if !Hashable(name) then (Raised(TypeError), r)
    else if name in r.games then (Done, SendError(r, p, "Game name already exists"))
    else
      var g := GameView(name, password, maxPlayers, [p], InitialView, false);
      (Done, r.(games := r.games[name := g], gameIds := r.gameIds[p := name], outbox := r.outbox + Broadcast(g)))
  }

  /** Creating a game under a taken name sends the creator one error and changes nothing else. */
  lemma CreateDuplicateUnchanged(r: Registry, p: PlayerId, name: Value, password: Value, maxPlayers: Value)
    requires name in r.games && Hashable(name)
    ensures CreateSpec(r, p, name, password, maxPlayers).0 == Done
    ensures Tables(CreateSpec(r, p, name, password, maxPlayers).1) == Tables(r)
    ensures CreateSpec(r, p, name, password, maxPlayers).1.outbox == r.outbox + [Sent(p, ErrorText("Game name already exists"))]
  {
  }

  /**
   * A successful create stores a lobby game holding just its creator, with the
   * given password and limit, points the creator at it, touches no other
   * game, and tells the creator it holds X and has the move.
   */
  lemma CreateStores(r: Registry, p: PlayerId, name: Value, password: Value, maxPlayers: Value)
    requires name !in r.games && Hashable(name)
    ensures var (o, r') := CreateSpec(r, p, name, password, maxPlayers);
      o == Done && name in r'.games &&
      r'.games[name].players == [p] && r'.games[name].password == password &&
      r'.games[name].maxPlayers == maxPlayers && r'.games[name].state == InitialView &&
      !r'.games[name].isMatchmaking &&
      GameIdOf(r', p) == name &&
      (forall k :: k != name ==> (k in r'.games <==> k in r.games) && (k in r.games ==> r'.games[k] == r.games[k])) &&
      |r'.outbox| == |r.outbox| + 1 && r'.outbox[..|r.outbox|] == r.outbox &&
      r'.outbox[|r.outbox|].to == p &&
      r'.outbox[|r.outbox|].msg.data["your_symbol"] == Str("X") &&
      r'.outbox[|r.outbox|].msg.data["is_your_turn"] == Bool(true)
  {
    var g := CreateSpec(r, p, name, password, maxPlayers).1.games[name];
    BroadcastSeats(g);
  }

  // join_game

  /**
   * `join_game(player, game_name, password)`: rejects an unknown game, then a
   * wrong password (only when the game has a truthy one), then a full game;
   * otherwise appends the player, starts the game when it is now full, and
   * runs one broadcast per member. A `max_players` that is not a number
   * makes the `>=` raise TypeError.
   */
  function JoinSpec(r: Registry, p: PlayerId, name: Value, password: Value): (Outcome, Registry)
  {
    if !Hashable(name) then (Raised(TypeError), r)
    else if name !in r.games then (Done, SendError(r, p, "Game not found"))
    else
      var g := r.games[name];
      if Truthy(g.password) && g.password != password then (Done, SendError(r, p, "Invalid password"))
      else
        match AsInt(g.maxPlayers)
        case None => (Raised(TypeError), r)
        case Some(m) =>
          if |g.players| >= m then (Done, SendError(r, p, "Game is full"))
          else
            var ps := g.players + [p];
            var g' := g.(players := ps, state := if |ps| == m then g.state.(phase := InGame) else g.state);
            (Done, r.(games := r.games[name := g'], gameIds := r.gameIds[p := name],
                      outbox := r.outbox + Repeat(Broadcast(g'), |ps|)))
  }

  /**
   * A join is rejected, in this order, for an unknown game, a wrong password
   * and a full game; each rejection sends one error and changes nothing else.
   */
  lemma JoinCheckOrder(r: Registry, p: PlayerId, name: Value, password: Value)
    requires Hashable(name)
    ensures var (o, r') := JoinSpec(r, p, name, password);
      if name !in r.games then
        o == Done && r' == SendError(r, p, "Game not found")
      else if Truthy(r.games[name].password) && r.games[name].password != password then
        o == Done && r' == SendError(r, p, "Invalid password")
      else if AsInt(r.games[name].maxPlayers).Some? && |r.games[name].players| >= AsInt(r.games[name].maxPlayers).value then
        o == Done && r' == SendError(r, p, "Game is full")
      else if AsInt(r.games[name].maxPlayers).None? then
        o == Raised(TypeError) && r' == r
      else
        o == Done && Tables(r') != Tables(r)
  {
  }

  /**
   * A successful join appends the player at the last seat, points it at the
   * game, never takes the game past its limit, and starts the game exactly
   * when the last seat is filled; no other game changes.
   */
  lemma JoinAppends(r: Registry, p: PlayerId, name: Value, password: Value)
    requires Hashable(name) && name in r.games
    requires !(Truthy(r.games[name].password) && r.games[name].password != password)
    requires AsInt(r.games[name].maxPlayers).Some?
    requires |r.games[name].players| < AsInt(r.games[name].maxPlayers).value
    ensures var (o, r') := JoinSpec(r, p, name, password);
      var m := AsInt(r.games[name].maxPlayers).value;
      o == Done && name in r'.games &&
      r'.games[name].players == r.games[name].players + [p] &&
      |r'.games[name].players| <= m &&
      GameIdOf(r', p) == name &&
      r'.games[name].state.phase == (if |r'.games[name].players| == m then InGame else r.games[name].state.phase) &&
      r'.games[name].state.board == r.games[name].state.board &&
      r'.games.Keys == r.games.Keys &&
      (forall k :: k in r.games && k != name ==> r'.games[k] == r.games[k]) &&
      |r'.outbox| == |r.outbox| + |r'.games[name].players| * |r'.games[name].players|
  {
    var g := r.games[name];
    var ps := g.players + [p];
    var m := AsInt(g.maxPlayers).value;
    var g' := g.(players := ps, state := if |ps| == m then g.state.(phase := InGame) else g.state);
    RepeatLength(Broadcast(g'), |ps|);
  }

  /** The registry a successful join leads to, written out. */
  lemma JoinSucceeds(r: Registry, p: PlayerId, name: Value, password: Value, g: GameView, m: int)
    requires Hashable(name) && name in r.games && g == r.games[name]
    requires !(Truthy(g.password) && g.password != password)
    requires AsInt(g.maxPlayers) == Some(m) && |g.players| < m
    ensures var ps := g.players + [p];
      var g' := g.(players := ps, state := if |ps| == m then g.state.(phase := InGame) else g.state);
      JoinSpec(r, p, name, password) ==
        (Done, r.(games := r.games[name := g'], gameIds := r.gameIds[p := name], outbox := r.outbox + Repeat(Broadcast(g'), |ps|)))
  {
  }

  // find_game

  /** `f"match_{n}"`. */
  function MatchName(n: nat): Value
  {
    Str("match_" + NatToString(n))
  }

  /**
   * `find_game(player)`: queue the player; once two are waiting, the two
   * oldest leave the queue together and get a fresh matchmaking game stored
   * under `match_{len(games)}`, each being pointed at it and sent a
   * broadcast. The game keeps the lobby phase it was created with.
   */
  function FindSpec(r: Registry, p: PlayerId): Registry
  {
    var q := r.queue + [p];
    if |q| < 2 then r.(queue := q)
    else
      var pair := q[..2];
      var name := MatchName(|r.games|);
      var g := GameView(name, Null, Int(2), pair, InitialView, true);
      r.(queue := q[2..], games := r.games[name := g],
         gameIds := AssignIds(r.gameIds, pair, name),
         outbox := r.outbox + Repeat(Broadcast(g), 2))
  }

  /** Sets `game_id` to `name` for every player in `ps`, in order. */
  function AssignIds(ids: map<PlayerId, Value>, ps: seq<PlayerId>, name: Value): map<PlayerId, Value>
    decreases |ps|
  {
    if ps == [] then ids else AssignIds(ids[ps[0] := name], ps[1..], name)
  }

  /** After the assignments every listed player holds `name` and every other player keeps its entry. */
  lemma {:induction false} AssignIdsLookup(ids: map<PlayerId, Value>, ps: seq<PlayerId>, name: Value)
    ensures forall q :: q in ps ==> q in AssignIds(ids, ps, name) && AssignIds(ids, ps, name)[q] == name
    ensures forall q :: q !in ps ==> (q in AssignIds(ids, ps, name) <==> q in ids)
    ensures forall q :: q !in ps && q in ids ==> AssignIds(ids, ps, name)[q] == ids[q]
    decreases |ps|
  {
    if ps != [] {
      AssignIdsLookup(ids[ps[0] := name], ps[1..], name);
      assert ps == [ps[0]] + ps[1..];
      forall q | q in ps ensures q in AssignIds(ids, ps, name) && AssignIds(ids, ps, name)[q] == name {
        if q !in ps[1..] {
          assert q == ps[0];
        }
      }
    }
  }

  /**
   * Matchmaking is first-in first-out: the paired players followed by the
   * queue left behind are exactly the old queue followed by the newcomer, so
   * the two oldest are paired and the rest keep their order. A queue of at
   * most one stays at most one.
   */
  lemma FindIsFifo(r: Registry, p: PlayerId)
    ensures var r' := FindSpec(r, p);
      if |r.queue| == 0 then r'.queue == [p] && r'.games == r.games
      else
        MatchName(|r.games|) in r'.games &&
        r'.games[MatchName(|r.games|)].players + r'.queue == r.queue + [p] &&
        r'.games[MatchName(|r.games|)].players == [r.queue[0], (r.queue + [p])[1]]
    ensures |r.queue| <= 1 ==> |FindSpec(r, p).queue| <= 1
  {
    if |r.queue| > 0 {
      var q := r.queue + [p];
      assert q[..2] + q[2..] == q;
    }
  }

  /**
   * A matchmade game is named `match_N` for N the number of games before,
   * takes two players, has no password, is flagged as matchmade, points both
   * players at it, and stays in the lobby phase.
   */
  lemma MatchmadeGame(r: Registry, p: PlayerId)
    requires |r.queue| >= 1
    ensures var r' := FindSpec(r, p); var name := MatchName(|r.games|);
      name in r'.games && r'.games[name].name == name &&
      GameIdOf(r', r.queue[0]) == name && GameIdOf(r', (r.queue + [p])[1]) == name &&
      r'.games[name].state.phase == Lobby && r'.games[name].maxPlayers == Int(2) &&
      r'.games[name].password == Null && r'.games[name].isMatchmaking
  {
    var q := r.queue + [p];
    AssignIdsLookup(r.gameIds, q[..2], MatchName(|r.games|));
    assert q[0] in q[..2] && q[1] in q[..2];
  }

  /**
   * There is no collision check: when a live game already holds the name
   * `match_N`, matchmaking replaces it, and its members keep a `game_id`
   * that now names a game they are not in.
   */
  lemma FindOverwrites(r: Registry, p: PlayerId, q: PlayerId)
    requires |r.queue| == 1 && MatchName(|r.games|) in r.games
    requires q in r.games[MatchName(|r.games|)].players && q != p && q != r.queue[0]
    requires GameIdOf(r, q) == MatchName(|r.games|)
    ensures var r' := FindSpec(r, p);
      |r'.games| == |r.games| &&
      GameIdOf(r', q) == MatchName(|r.games|) && q !in r'.games[MatchName(|r.games|)].players
  {
    var r' := FindSpec(r, p);
    assert r'.games.Keys == r.games.Keys;
    var pair := (r.queue + [p])[..2];
    AssignIdsLookup(r.gameIds, pair, MatchName(|r.games|));
  }

  // handle_surrender and end_game

  /** `end_game(game)`: every member's `game_id` becomes `None` and the game leaves the registry. */
  function EndSpec(r: Registry, key: Value): Registry
    requires key in r.games
  {
    r.(gameIds := AssignIds(r.gameIds, r.games[key].players, Null), games := r.games - {key})
  }

  /** Teardown clears every member's `game_id`, leaves every other player's alone, and removes only that game. */
  lemma EndClearsMembers(r: Registry, key: Value)
    requires key in r.games
    ensures key !in EndSpec(r, key).games
    ensures forall k :: k != key ==> (k in EndSpec(r, key).games <==> k in r.games)
    ensures forall k :: k in r.games && k != key ==> EndSpec(r, key).games[k] == r.games[k]
    ensures forall q :: q in r.games[key].players ==> GameIdOf(EndSpec(r, key), q) == Null
    ensures forall q :: q !in r.games[key].players ==> GameIdOf(EndSpec(r, key), q) == GameIdOf(r, q)
    ensures EndSpec(r, key).queue == r.queue && EndSpec(r, key).outbox == r.outbox
  {
    AssignIdsLookup(r.gameIds, r.games[key].players, Null);
  }

  /**
   * `handle_surrender(game, player)` for the game the player's `game_id`
   * names: a falsy `game_id` stops it; otherwise the phase becomes END_GAME,
   * the members get a broadcast (the winner dict built for it is dropped by
   * `send_game_update`), and the game is torn down.
   */
  function SurrenderSpec(r: Registry, p: PlayerId): Registry
    requires GameIdOf(r, p) in r.games
  {
    var key := GameIdOf(r, p);
    if !Truthy(key) then r
    else
      var g := r.games[key];
      var g' := g.(state := g.state.(phase := EndGame));
      EndSpec(r.(games := r.games[key := g'], outbox := r.outbox + Broadcast(g')), key)
  }

  /** A surrender tells every member the game is over and then removes it, releasing all its members. */
  lemma SurrenderEnds(r: Registry, p: PlayerId)
    requires GameIdOf(r, p) in r.games && Truthy(GameIdOf(r, p))
    ensures var key := GameIdOf(r, p); var r' := SurrenderSpec(r, p);
      key !in r'.games &&
      (forall q :: q in r.games[key].players ==> GameIdOf(r', q) == Null) &&
      |r'.outbox| == |r.outbox| + |r.games[key].players| &&
      forall i :: |r.outbox| <= i < |r'.outbox| ==>
        r'.outbox[i].msg.UpdateMsg? && r'.outbox[i].msg.data["phase"] == PhaseMember(EndGame)
  {
    var key := GameIdOf(r, p);
    AssignIdsLookup(r.gameIds, r.games[key].players, Null);
  }

  // handle_disconnect

  /**
   * `handle_disconnect(player)`: leaves the queue (first occurrence), then,
   * when its `game_id` is truthy, leaves that game; a game left with fewer
   * than two players is torn down, otherwise its members get a broadcast.
   * A missing game raises KeyError and a player not seated in it ValueError,
   * after the queue step.
   */
  function DisconnectSpec(r: Registry, p: PlayerId): (Outcome, Registry)
  {
    var r1 := if p in r.queue then r.(queue := RemoveFirst(r.queue, p)) else r;
    var key := GameIdOf(r1, p);
    if !Truthy(key) then (Done, r1)
    else if !Hashable(key) then (Raised(TypeError), r1)
    else if key !in r1.games then (Raised(KeyError(key)), r1)
    else
      var g := r1.games[key];
      if p !in g.players then (Raised(ValueError), r1)
      else
        var g' := g.(players := RemoveFirst(g.players, p));
        var r2 := r1.(games := r1.games[key := g']);
        if |g'.players| < 2 then (Done, EndSpec(r2, key))
        else (Done, r2.(outbox := r2.outbox + Broadcast(g')))
  }

  /**
   * `list.remove(x)` takes away one occurrence of `x` and nothing else: every
   * other element stays, and `x` is gone altogether when it occurred once.
   */
  lemma RemoveFirstKeepsOthers(xs: seq<PlayerId>, x: PlayerId)
    requires x in xs
    ensures multiset(xs)[x] <= 1 ==> x !in RemoveFirst(xs, x)
    ensures forall q :: q in xs && q != x ==> q in RemoveFirst(xs, x)
  {
    RemoveFirstMultiset(xs, x);
    var m := multiset(RemoveFirst(xs, x));
    forall q | q in xs && q != x ensures q in RemoveFirst(xs, x) {
      assert m[q] == multiset(xs)[q] > 0;
    }
    if multiset(xs)[x] <= 1 {
      assert m[x] == 0;
    }
  }

  /**
   * A disconnecting player that was queued once is no longer queued; one that
   * was seated once in its game is no longer seated there; and a game left
   * with fewer than two players is gone with its remaining members released.
   */
  lemma DisconnectLeaves(r: Registry, p: PlayerId)
    ensures var (o, r') := DisconnectSpec(r, p);
      (multiset(r.queue)[p] <= 1 ==> p !in r'.queue) &&
      (p in r.queue ==> |r'.queue| == |r.queue| - 1)
    ensures var (o, r') := DisconnectSpec(r, p); var key := GameIdOf(r, p);
      Truthy(key) && Hashable(key) && key in r.games && p in r.games[key].players ==>
        o == Done &&
        (if |r.games[key].players| - 1 < 2 then
           key !in r'.games &&
           forall q :: q in r.games[key].players && q != p ==> GameIdOf(r', q) == Null
         else
           key in r'.games && r'.games[key].players == RemoveFirst(r.games[key].players, p) &&
           (multiset(r.games[key].players)[p] <= 1 ==> p !in r'.games[key].players))
  {
    if p in r.queue {
      RemoveFirstKeepsOthers(r.queue, p);
    }
    var key := GameIdOf(r, p);
    if Truthy(key) && Hashable(key) && key in r.games && p in r.games[key].players {
      RemoveFirstKeepsOthers(r.games[key].players, p);
      AssignIdsLookup(r.gameIds, RemoveFirst(r.games[key].players, p), Null);
    }
  }

  // handle_command and validate_game_command

  /** `validate_game_command(game, cmd)`. */
  predicate Validate(phase: GamePhase, commandType: Value)
  {
    phase == InGame && commandType == Str("make_move")
  }

  /**
   * `TicTacToeServer.handle_game_command(game, player, cmd)`: the mover plays
   * X exactly when it holds the first seat; out of turn nothing happens;
   * then `row` and `col` are read (KeyError), checked, and an accepted move
   * updates the state and is broadcast. `game.players[0]` raises IndexError
   * on an empty game.
   */
  function MoveSpec(r: Registry, key: Value, p: PlayerId, data: map<string, Value>): (Outcome, Registry)
    requires key in r.games && IsGrid(r.games[key].state.board)
  {
    var g := r.games[key];
    if |g.players| == 0 then (Raised(IndexError), r)
    else
      var symbol := if p == g.players[0] then Str("X") else Str("O");
      if symbol != g.state.current then (Done, r)
      else if "row" !in data then (Raised(KeyError(Str("row"))), r)
      else if "col" !in data then (Raised(KeyError(Str("col"))), r)
      else
        match CheckPlacement(g.state.board, data["row"], data["col"])
        case Raises(f) => (Raised(f), r)
        case Rejected => (Done, r)
        case Free(row, col) =>
          var g' := g.(state := AfterMove(g.state, row, col, symbol));
          (Done, r.(games := r.games[key := g'], outbox := r.outbox + Broadcast(g')))
  }

  /**
   * A move out of turn, or onto an occupied or out-of-range cell, changes
   * nothing; an accepted move places the mover's own symbol (X exactly for
   * the first seat) and changes nothing but that game's state and the outbox.
   */
  lemma MoveEffect(r: Registry, key: Value, p: PlayerId, data: map<string, Value>)
    requires key in r.games && IsGrid(r.games[key].state.board) && |r.games[key].players| > 0
    ensures var g := r.games[key]; var symbol := if p == g.players[0] then Str("X") else Str("O");
      var (o, r') := MoveSpec(r, key, p, data);
      (symbol != g.state.current ==> o == Done && r' == r) &&
      ("row" in data && "col" in data && CheckPlacement(g.state.board, data["row"], data["col"]).Rejected? ==> r' == r) &&
      (r' != r ==>
         symbol == g.state.current && "row" in data && "col" in data &&
         CheckPlacement(g.state.board, data["row"], data["col"]).Free? &&
         var row := CheckPlacement(g.state.board, data["row"], data["col"]).r;
         var col := CheckPlacement(g.state.board, data["row"], data["col"]).c;
         r'.games == r.games[key := g.(state := AfterMove(g.state, row, col, symbol))] &&
         r'.queue == r.queue && r'.gameIds == r.gameIds && r'.names == r.names &&
         (symbol == Str("X") <==> p == g.players[0]))
  {
  }

  /**
   * `handle_command(player, cmd)`. create and join read `name` first (KeyError)
   * and set `player.name` only after the handler returned normally; find sets
   * the name first. Any other command needs the player's game: without one it
   * is dropped; a surrender goes ahead without validation; anything else must
   * pass `validate_game_command`.
   */
  function HandleCommandSpec(r: Registry, p: PlayerId, commandType: Value, data: map<string, Value>): (Outcome, Registry)
    requires BoardsAreGrids(r)
  {
    var playerName := Get(data, "player_name", Str(""));
    if commandType == Str("create_game") then
      if "name" !in data then (Raised(KeyError(Str("name"))), r)
      else
        var (o, r1) := CreateSpec(r, p, data["name"], Get(data, "password", Null), Get(data, "max_players", Int(2)));
        if o.Raised? then (o, r1) else (Done, r1.(names := r1.names[p := playerName]))
    else if commandType == Str("join_game") then
      if "name" !in data then (Raised(KeyError(Str("name"))), r)
      else
        var (o, r1) := JoinSpec(r, p, data["name"], Get(data, "password", Null));
        if o.Raised? then (o, r1) else (Done, r1.(names := r1.names[p := playerName]))
    else if commandType == Str("find_game") then
      (Done, FindSpec(r.(names := r.names[p := playerName]), p))
    else
      var key := GameIdOf(r, p);
      if !Hashable(key) then (Raised(TypeError), r)
      else if key !in r.games then (Done, r)
      else if commandType == Str("surrender") then (Done, SurrenderSpec(r, p))
      else if !Validate(r.games[key].state.phase, commandType) then (Done, r)
      else MoveSpec(r, key, p, data)
  }

  /**
   * Routing: a command other than create, join and find from a player whose
   * game does not exist is dropped; a surrender is never validated; any other
   * such command reaches the game only when the game is in progress and the
   * command is a move.
   */
  lemma RoutingRules(r: Registry, p: PlayerId, commandType: Value, data: map<string, Value>)
    requires BoardsAreGrids(r)
    requires commandType !in {Str("create_game"), Str("join_game"), Str("find_game")}
    requires Hashable(GameIdOf(r, p))
    ensures GameIdOf(r, p) !in r.games ==> HandleCommandSpec(r, p, commandType, data) == (Done, r)
    ensures GameIdOf(r, p) in r.games && commandType == Str("surrender") ==>
              HandleCommandSpec(r, p, commandType, data) == (Done, SurrenderSpec(r, p))
    ensures GameIdOf(r, p) in r.games && commandType != Str("surrender") &&
            !(r.games[GameIdOf(r, p)].state.phase == InGame && commandType == Str("make_move")) ==>
              HandleCommandSpec(r, p, commandType, data) == (Done, r)
  {
  }

  /** Setting the name around create and join happens only when the handler did not raise. */
  lemma NameSetAfterHandler(r: Registry, p: PlayerId, data: map<string, Value>)
    requires BoardsAreGrids(r) && "name" in data && !Hashable(data["name"])
    ensures HandleCommandSpec(r, p, Str("create_game"), data) == (Raised(TypeError), r)
    ensures HandleCommandSpec(r, p, Str("join_game"), data) == (Raised(TypeError), r)
  {
  }

  // The registry invariant

  predicate BoardsAreGrids(r: Registry)
  {
    forall k :: k in r.games ==> IsGrid(r.games[k].state.board)
  }

  /** A matchmade game holds two players, admits no more, and keeps the LOBBY phase it was created with. */
  predicate MatchmadeStayInLobby(r: Registry)
  {
    forall k :: k in r.games && r.games[k].isMatchmaking ==>
      r.games[k].state.phase == Lobby && |r.games[k].players| == 2 && r.games[k].maxPlayers == Int(2)
  }

  /**
   * What every reachable registry satisfies: each game is stored under its own
   * hashable name and has a player and a 3×3 board, matchmade games stay in
   * the lobby, and at most one player waits in the queue.
   */
  predicate RegistryInv(r: Registry)
  {
    BoardsAreGrids(r) && MatchmadeStayInLobby(r) &&
    (forall k :: k in r.games ==> Hashable(k) && r.games[k].name == k && |r.games[k].players| > 0) &&
    |r.queue| <= 1
  }

  /** The empty registry the server starts from. */
  const EmptyRegistry: Registry := Registry(map[], [], map[], map[], [])

  lemma EmptyRegistryInv()
    ensures RegistryInv(EmptyRegistry)
  {
  }

  lemma CreateKeepsInv(r: Registry, p: PlayerId, name: Value, password: Value, maxPlayers: Value)
    requires RegistryInv(r)
    ensures RegistryInv(CreateSpec(r, p, name, password, maxPlayers).1)
  {
  }

  lemma JoinKeepsInv(r: Registry, p: PlayerId, name: Value, password: Value)
    requires RegistryInv(r)
    ensures RegistryInv(JoinSpec(r, p, name, password).1)
  {
  }

  lemma FindKeepsInv(r: Registry, p: PlayerId)
    requires RegistryInv(r)
    ensures RegistryInv(FindSpec(r, p))
  {
    FindIsFifo(r, p);
  }

  lemma SurrenderKeepsInv(r: Registry, p: PlayerId)
    requires RegistryInv(r) && GameIdOf(r, p) in r.games
    ensures RegistryInv(SurrenderSpec(r, p))
  {
  }

  lemma MoveKeepsInv(r: Registry, key: Value, p: PlayerId, data: map<string, Value>)
    requires RegistryInv(r) && key in r.games && r.games[key].state.phase == InGame
    ensures RegistryInv(MoveSpec(r, key, p, data).1)
  {
    var r' := MoveSpec(r, key, p, data).1;
    MoveEffect(r, key, p, data);
    if r' != r {
      var g := r.games[key];
      var c := CheckPlacement(g.state.board, data["row"], data["col"]);
      var symbol := if p == g.players[0] then Str("X") else Str("O");
      AfterMoveEffect(g.state, c.r, c.c, symbol);
      assert r'.games == r.games[key := g.(state := AfterMove(g.state, c.r, c.c, symbol))];
    }
  }

  /** Every command keeps the invariant, whether it completes or raises. */
  lemma HandleCommandKeepsInv(r: Registry, p: PlayerId, commandType: Value, data: map<string, Value>)
    requires RegistryInv(r)
    ensures RegistryInv(HandleCommandSpec(r, p, commandType, data).1)
  {
    var playerName := Get(data, "player_name", Str(""));
    if commandType == Str("create_game") {
      if "name" in data {
        CreateKeepsInv(r, p, data["name"], Get(data, "password", Null), Get(data, "max_players", Int(2)));
      }
    } else if commandType == Str("join_game") {
      if "name" in data {
        JoinKeepsInv(r, p, data["name"], Get(data, "password", Null));
      }
    } else if commandType == Str("find_game") {
      FindKeepsInv(r.(names := r.names[p := playerName]), p);
    } else {
      var key := GameIdOf(r, p);
      if Hashable(key) && key in r.games {
        if commandType == Str("surrender") {
          SurrenderKeepsInv(r, p);
        } else if Validate(r.games[key].state.phase, commandType) {
          MoveKeepsInv(r, key, p, data);
        }
      }
    }
  }

  /** A disconnect keeps the invariant, whether it completes or raises. */
  lemma DisconnectKeepsInv(r: Registry, p: PlayerId)
    requires RegistryInv(r)
    ensures RegistryInv(DisconnectSpec(r, p).1)
  {
    if p in r.queue {
      assert |RemoveFirst(r.queue, p)| == |r.queue| - 1;
    }
  }

  /**
   * In every reachable registry a move in a matchmade game is dropped: such a
   * game is never set to IN_GAME (it is created full, so no join starts it),
   * and `validate_game_command` only lets moves through in IN_GAME games.
   */
  lemma MatchmadeMovesIgnored(r: Registry, p: PlayerId, data: map<string, Value>)
    requires RegistryInv(r) && GameIdOf(r, p) in r.games && r.games[GameIdOf(r, p)].isMatchmaking
    ensures HandleCommandSpec(r, p, Str("make_move"), data) == (Done, r)
  {
  }
}
