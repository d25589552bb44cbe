# nexus: the session registry, tic-tac-toe rules, state merges and serialiser, in Dafny

nexus is a small Python framework for turn-based multiplayer games played over
websockets. A server keeps a registry of games (name, password, player limit,
seated players, game state, matchmaking flag), a matchmaking queue and, per
connected player, the game it is in. Players create, join, find (matchmake),
surrender and leave games, and send moves. Every reply goes out over the
player's websocket.

This project models the following parts of nexus and proves properties of
them:

- **`GameServer`** (`nexus/network/server.py`), with the hooks filled in by
  the example **`TicTacToeServer`**. Modelled in `server_spec.dfy` and
  `server.dfy`.
- **`WebSocketGameServer`** (`game_server.py`), the older stand-alone server.
  Modelled in `legacy_spec.dfy` and `legacy_server.dfy`.
- **The three tic-tac-toe rule engines** and the shared line and draw
  detection:
  - the server-side `TicTacToeGameState` (`tictactoe_server.dfy`);
  - the capability-set `TicTacToeState` (`tic_tac_toe.dfy`);
  - the inline move handling of the older server (in `legacy_spec.dfy`);
  - line and draw detection, shared by all three (`board.dfy`).
- **The state merges:**
  - the base `GameState` (`gamestate.dfy`);
  - the tic-tac-toe states (in `tictactoe_server.dfy`);
  - the stand-alone client's `TicTacToeState` (`tictactoe_client.dfy`).
- **The dataclass serialiser** `Serializable.to_dict` / `from_dict`, with its
  `Command` and `Update` envelopes (`serializable.dfy`).

Python values are one datatype, `Values.Value`:

- its cases are `None`, bool, int, str, list, string-keyed dict, enum member
  and dataclass instance;
- Python's truthiness, hashability, `bool`-as-`int` comparisons and list
  indexing are written out over it;
- a raised exception is the datatype `Failure` (KeyError, TypeError,
  ValueError, IndexError).

A websocket send becomes an append to an outbox: a sequence of
(player, message) pairs.

Each server has two parts:

- **A pure snapshot and spec functions.** The registry snapshot is a
  datatype (`ServerSpec.Registry`, `LegacySpec.LegacyRegistry`). Each handler
  has a pure transition function on it (`CreateSpec`, `JoinSpec`, …), and the
  lemmas beside those functions state what the source promises.
- **A class with mutable fields.** The registry map, the queue, every
  player's `game_id` and `name`, and the outbox are fields that the class
  updates in place. Each method's contract says the object ends up in the
  state its spec function gives for the old state, and that the registry
  invariant is kept. The loops (per-member sends, `end_game`, matchmaking's
  pairing loop, the winner scan) carry the invariants that prove this.

## Model

| member | source | states |
|---|---|---|
| Values.Truthy | nexus/network/server.py:142 | Python truthiness as `if game.password` reads it: None, False, 0, the empty string, list or dict and an enum member with an empty value are false, everything else true |
| Values.Hashable | nexus/network/server.py:88 | a value can be looked up as a dict key (`self.games.get(player.game_id)`) unless it is a list, a dict or a mutable dataclass instance, which raise TypeError |
| Values.AsInt | examples/tictactoe_server.py:63 | the integer a chained comparison `0 <= row < 3` sees: an int itself, a bool as 0 or 1, and no integer (TypeError) for any other value |
| Values.PyIndex | examples/tic-tac-toe/tic_tac_toe.py:67 | `board[row]` with Python's negative indices: an index from -n to n-1 picks position i or n+i, anything else is out of range |
| Board.IsFull | examples/tictactoe_server.py:73 | the draw test `all(all(cell != '' for cell in row) for row in board)`: no cell holds the empty string |
| Board.FirstCompleted | examples/tictactoe_server.py:93-108 | the scan of `check_winner` over a list of lines: a non-None result is a non-empty value filling a completed line of the list, no completed line gives None, and on lines without None cells None means no line is complete |
| Board.Winner | examples/tictactoe_server.py:93-108 | `check_winner(board)`: the first completed line in the order rows and columns interleaved for i = 0..2, then the two diagonals |
| Board.SetCell | examples/tictactoe_server.py:68 | writing a cell keeps a 3×3 grid, puts the value in that cell and leaves every other cell as it was |
| Board.WinnerIsLineOwner | examples/tictactoe_server.py:93-108 | `check_winner` returns a symbol only when that non-empty symbol fills a whole row, column or diagonal; on a board without None cells it returns None exactly when no line is complete |
| Board.EmptyGridIsOpen | nexus/game/gamestate.py:16 | the fresh empty board has no winner and is not a draw |
| Board.MoveWinnerIsMover | examples/tictactoe_server.py:68-72 | on a board with no complete line, after one cell is written the only possible winner is the symbol just written |
| Board.CheckPlacement | examples/tictactoe_server.py:60-65 | the shared move test: a move is free exactly when both coordinates are integers in 0..2 and the cell is falsy; it raises TypeError exactly when `row` is not a number, or `row` is in range and `col` is not (Python's short-circuit); out of range or occupied is ignored |
| Board.CheckWinner | game_server.py:242-253 | the row, column, diagonal scan loop returns exactly the first completed line's symbol in scan order, or None |
| GameStates.ParsePhase | nexus/game/gamestate.py:6-9 | `GamePhase(v)` succeeds exactly for the strings "lobby", "in_game", "end_game" or a str-enum member with such a value, and returns the phase with that value |
| GameStates.PhaseValueRoundTrip | nexus/game/gamestate.py:6-9 | the three phase values are distinct and `GamePhase(p.value)` gives back `p`, from the string and from the member |
| GameStates.BaseDict | nexus/game/gamestate.py:18-22 | `to_dict` has exactly the key "phase", holding the state's own phase |
| GameStates.MergePhase | nexus/game/gamestate.py:32-39 | the phase is replaced by `GamePhase(data["phase"])` when the key is present (failing as ValueError when that names no phase) and kept otherwise |
| GameStates.MergePhaseIdempotent | nexus/game/gamestate.py:32-39 | applying the same update twice gives the phase applying it once gives |
| GameStates.GameState.constructor | nexus/game/gamestate.py:14-16 | a new state is in LOBBY with an empty 3×3 board |
| GameStates.GameState.PlayerPerspective | nexus/game/gamestate.py:24-30 | the base perspective ignores the player index and is `to_dict()`: only the phase |
| GameStates.GameState.Update | nexus/game/gamestate.py:32-39 | sets the phase from the data when present, reports the ValueError case, and never writes the board |
| Serialization.Serialize | nexus/network/serializable.py:24-34 | `_serialize`: an enum member becomes its value, a list and a dict are mapped element by element, a nested `Serializable` becomes its `to_dict()`, anything else is returned as it is |
| Serialization.ToDict | nexus/network/serializable.py:22-49 | `to_dict()`: one key per field that is neither flagged non-serializable nor underscore-prefixed, holding `_serialize` of the field's value |
| Serialization.ConvertValue | nexus/network/serializable.py:72-78 | the conversion of one field in `from_dict`: an enum-typed field's value goes through `EnumType(v)`, a dict under a `Serializable`-typed field through a recursive `from_dict`, anything else is kept |
| Serialization.FromDict | nexus/network/serializable.py:56-91 | `from_dict(data, **kwargs)`: convert a copy of the data field by field, keep only the serializable dataclass fields, let kwargs override, and call the constructor, propagating the first exception |
| Serialization.NonSerializable | nexus/network/serializable.py:9-16 | `non_serializable()` gives a field of the given name and type that defaults to None, is flagged non-serializable in its metadata, and takes `repr` and `compare` as given (both False by default in the source) |
| Serialization.NonSerializableHidden | nexus/network/serializable.py:80-85 | in a schema with distinct names, a `non_serializable` field's name is never a key `to_dict` emits, the filter of `from_dict` drops that key from the data, and a successful `from_dict` without keyword arguments holds None in that field |
| Serialization.EmittedNames | nexus/network/serializable.py:37-49 | the names `to_dict` emits are exactly those of the fields that are neither flagged non-serializable nor underscore-prefixed |
| Serialization.FieldsDictPlain | nexus/network/serializable.py:37-49 | the dict built by the fields loop from JSON-shaped values holds only JSON-shaped values |
| Serialization.FieldsDictLookup | nexus/network/serializable.py:37-49 | the dict built by the fields loop holds exactly the emitted fields, each with its own serialized value |
| Serialization.ToDictFields | nexus/network/serializable.py:22-49 | `to_dict` of an instance maps every emitted field name to `_serialize` of that field's value and has no other key |
| Serialization.SerializeShape | nexus/network/serializable.py:24-34 | `_serialize` turns an enum member into its value, keeps a list's length and a dict's keys, turns a nested `Serializable` into its `to_dict`, yields JSON-shaped data for every value the model represents, and leaves JSON-shaped data as it is |
| Serialization.EnumLookup | nexus/network/serializable.py:72-74 | `EnumType(v)` succeeds exactly when `v` is one of the enum's values, as a string or as a member, returns a member of that enum, and raises ValueError otherwise |
| Serialization.Filtered | nexus/network/serializable.py:80-85 | keeps exactly the keys that are dataclass fields and not flagged non-serializable, with their values |
| Serialization.Construct | nexus/network/serializable.py:91 | `cls(**kwargs)` fills every given field from the kwargs and the rest from defaults, and raises TypeError for an unknown keyword or a missing field without default |
| Serialization.FromDictFieldSources | nexus/network/serializable.py:80-91 | explicit kwargs override the data, and a non-serializable field is never taken from the data |
| Serialization.RoundTrip | nexus/network/serializable.py:22-91 | `from_dict(to_dict(x)) == x` for every instance whose emitted fields hold restorable values and whose other fields hold their defaults |
| Serialization.FieldRoundTrip | nexus/network/serializable.py:64-78 | the type-directed conversion of `from_dict` gives back a field's restorable value from its `_serialize` form |
| Serialization.ConvertRoundTrip | nexus/network/serializable.py:64-78 | converting a serialized dict field by field gives back the dict of the original values |
| Serialization.ConvertIgnoresUnknownKey | nexus/network/serializable.py:64-78 | the conversion loop carries a key that names no field through untouched and never fails because of it |
| Serialization.FromDictIgnoresUnknownKey | nexus/network/serializable.py:80-88 | adding a key that is not a field to the data changes nothing `from_dict` builds or raises |
| Serialization.EnvelopeWireForm | nexus/network/command.py:14-17 | a Command or Update goes on the wire as `{type: enum value, data: data}` |
| Serialization.EnvelopeRoundTrip | nexus/network/update.py:14-17 | an envelope whose type is a member of its enum and whose data is JSON-shaped is rebuilt exactly by `from_dict(to_dict(x))` |
| Serialization.CommandRoundTrip | nexus/network/command.py:14-17 | a Command with JSON-shaped data survives `to_dict` and `from_dict` |
| Serialization.UpdateRoundTrip | nexus/network/update.py:14-17 | an Update with JSON-shaped data survives `to_dict` and `from_dict` |
| TicTacToeServerState.StateDict | examples/tictactoe_server.py:14-21 | `to_dict` has exactly phase, board and current_player, holding the state's own values |
| TicTacToeServerState.Perspective | examples/tictactoe_server.py:23-29 | the perspective is `to_dict()` plus `your_symbol` ("X" iff the index is 0, else "O") and `is_your_turn` (true iff the player to move has that symbol) |
| TicTacToeServerState.PerspectiveTurnIsExclusive | examples/tictactoe_server.py:23-29 | while X or O is to move, the first seat and any other seat disagree on whose turn it is |
| TicTacToeServerState.MergeUpdate | examples/tictactoe_server.py:31-37 | the base phase update, then board and current_player copied only when present; a bad phase raises before anything changes |
| TicTacToeServerState.MergeAbsentKeys | examples/tictactoe_server.py:31-37 | an update with none of the three keys changes nothing |
| TicTacToeServerState.MergeIdempotent | examples/tictactoe_server.py:31-37 | applying an update twice equals applying it once |
| TicTacToeServerState.MergeStateDict | examples/tictactoe_server.py:14-37 | `update(to_dict())` copies a state exactly, whatever the receiving state was |
| TicTacToeServerState.NextSymbol | examples/tictactoe_server.py:76 | `'O' if player_symbol == 'X' else 'X'`: the turn passes to O after X and to X after anything else |
| TicTacToeServerState.AfterMove | examples/tictactoe_server.py:67-88 | the state after an accepted move: the mover's symbol in the cell, the turn passed, and END_GAME when `check_winner` is truthy or the board is full |
| TicTacToeServerState.AfterMoveEffect | examples/tictactoe_server.py:67-88 | an accepted move writes only that cell, always passes the turn (even on the last move), and sets END_GAME exactly when a line is complete or the board is full; on a board without a line only the mover can have won |
| TicTacToeServerState.TicTacToeGameState.constructor | examples/tictactoe_server.py:9-12 | a new state is in LOBBY with an empty board and X to move |
| TicTacToeServerState.TicTacToeGameState.ToDict | examples/tictactoe_server.py:14-21 | the object's `to_dict` holds its own phase, board and player to move |
| TicTacToeServerState.TicTacToeGameState.PlayerPerspective | examples/tictactoe_server.py:23-29 | the object's perspective says it is the seat's turn exactly when its symbol is to move |
| TicTacToeServerState.TicTacToeGameState.Update | examples/tictactoe_server.py:31-37 | the object's fields end up as the merge of the data into the old fields, or unchanged when the phase value is invalid |
| ServerSpec.Broadcast | nexus/network/server.py:238-254 | `send_game_update` without a specific player: each member in seat order gets the update built from its own `get_player_perspective`, whatever data the caller passed |
| ServerSpec.CreateSpec | nexus/network/server.py:113-132 | `create_game`: an unhashable name raises TypeError, a taken name sends an error; otherwise a fresh game holding the creator is stored under the name, the creator points at it and gets a broadcast |
| ServerSpec.JoinSpec | nexus/network/server.py:134-164 | `join_game`: an unhashable name or a non-integer `max_players` raises TypeError; unknown game, wrong password and full game each send one error; otherwise the player is appended, pointed at the game, the game goes IN_GAME when full, and one broadcast per member goes out |
| ServerSpec.FindSpec | nexus/network/server.py:166-191 | `find_game`: queue the player; once two wait, the two oldest get a fresh matchmaking game `match_{len(games)}` and one broadcast each |
| ServerSpec.EndSpec | nexus/network/server.py:230-236 | `end_game`: every member's `game_id` becomes None and the game is deleted when still registered under its name |
| ServerSpec.SurrenderSpec | nexus/network/server.py:193-210 | `handle_surrender`: a player without a game is ignored; otherwise the phase becomes END_GAME, every member gets a broadcast, and the game ends |
| ServerSpec.DisconnectSpec | nexus/network/server.py:212-228 | `handle_disconnect`: leave the queue, leave the game, end a game left with fewer than two players or broadcast to the rest; a missing game raises KeyError and a player not seated in it ValueError |
| ServerSpec.MoveSpec | examples/tictactoe_server.py:49-91 | `handle_game_command`: an empty game raises IndexError, an out-of-turn, out-of-range or occupied move is ignored, a missing row or col raises KeyError, a non-integer coordinate raises TypeError, and an accepted move updates the state and broadcasts it |
| ServerSpec.HandleCommandSpec | nexus/network/server.py:67-111 | `handle_command`: create, join and find by name (setting `player.name` as the source orders it), then surrender or a validated make_move for a player with a game, and nothing otherwise |
| ServerSpec.RepeatLength | nexus/network/server.py:162-164 | sending the same broadcast once per member, n times over, delivers n times as many messages as one broadcast |
| ServerSpec.BroadcastSeats | nexus/network/server.py:238-254 | `send_game_update` reaches every member once in seat order, each with its own perspective (X iff first seat), and never carries the data it was given |
| ServerSpec.CreateDuplicateUnchanged | nexus/network/server.py:115-118 | creating under a taken name sends one error and changes no game, queue or game id |
| ServerSpec.CreateStores | nexus/network/server.py:120-132 | a successful create stores a lobby game holding exactly the creator with the given password and limit, points the creator at it, touches no other game, and tells the creator it is X and has the move |
| ServerSpec.JoinCheckOrder | nexus/network/server.py:136-150 | join rejects an unknown game, then a wrong password (only when the game has a truthy one), then a full game; each rejection sends one error and changes nothing else |
| ServerSpec.JoinAppends | nexus/network/server.py:152-164 | a successful join appends the player at the last seat, points it at the game, never exceeds `max_players`, sets IN_GAME exactly when the game becomes full, and changes no other game |
| ServerSpec.AssignIdsLookup | nexus/network/server.py:188-189 | after the per-player `game_id` loop every listed player holds the name and every other player keeps its own entry |
| ServerSpec.FindIsFifo | nexus/network/server.py:169-173 | the paired players followed by the remaining queue are the old queue plus the newcomer, so the two oldest are paired and the rest keep their order; a queue of at most one stays at most one |
| ServerSpec.MatchmadeGame | nexus/network/server.py:175-191 | the matchmade game is named `match_N` for N the game count before, has the two players, no password, limit 2 and the matchmaking flag, both players point at it, and it starts in phase LOBBY (that it stays there is `ServerSpec.MatchmadeMovesIgnored`) |
| ServerSpec.FindOverwrites | nexus/network/server.py:175-186 | with no collision check, a live game already named `match_N` is replaced and its members keep a `game_id` naming a game they are not in |
| ServerSpec.EndClearsMembers | nexus/network/server.py:230-236 | teardown sets every member's `game_id` to None, leaves every other player's alone, and removes only that game |
| ServerSpec.SurrenderEnds | nexus/network/server.py:193-210 | a surrender sends every member a broadcast, then removes the game and releases all its members |
| ServerSpec.RemoveFirstKeepsOthers | nexus/network/server.py:215-221 | `list.remove(x)` keeps every other element and drops `x` entirely when it occurred once |
| Values.RemoveFirstMultiset | nexus/network/server.py:215-221 | `list.remove(x)` on a list holding `x` takes away exactly one occurrence of `x` and nothing else |
| ServerSpec.DisconnectLeaves | nexus/network/server.py:212-228 | a player queued once is no longer queued; one seated once is no longer seated; a game left with fewer than two players is gone with its remaining members released |
| ServerSpec.MoveEffect | examples/tictactoe_server.py:49-91 | a move out of turn, or onto an occupied or out-of-range cell, changes nothing; an accepted move places the mover's own symbol (X iff first seat) and changes only that game's state and the outbox |
| ServerSpec.RoutingRules | nexus/network/server.py:87-111 | a command other than create/join/find from a player without an existing game changes nothing; a surrender is handled without validation; any other command changes nothing unless the game is IN_GAME and the command is `make_move` |
| ServerSpec.NameSetAfterHandler | nexus/network/server.py:71-85 | create and join set the player's name only after their handler returns: when the handler raises (an unhashable game name) the name is not set and nothing changes |
| ServerSpec.EmptyRegistryInv | nexus/network/server.py:28-34 | the empty registry the server starts from satisfies the registry invariant |
| ServerSpec.CreateKeepsInv | nexus/network/server.py:113-132 | create keeps the invariant: every game is stored under its own hashable name, has at least one player and a 3×3 board, matchmade games are in LOBBY with two players and limit 2, and at most one player is queued |
| ServerSpec.JoinKeepsInv | nexus/network/server.py:134-164 | join keeps the registry invariant (a matchmade game is full, so no join starts it) |
| ServerSpec.FindKeepsInv | nexus/network/server.py:166-191 | matchmaking keeps the registry invariant, including the queue of at most one |
| ServerSpec.SurrenderKeepsInv | nexus/network/server.py:193-210 | surrender keeps the registry invariant |
| ServerSpec.MoveKeepsInv | examples/tictactoe_server.py:49-91 | a move in an IN_GAME game, the only kind `validate_game_command` lets through, keeps the registry invariant |
| ServerSpec.HandleCommandKeepsInv | nexus/network/server.py:67-99 | every command keeps the registry invariant, whether it completes or raises |
| ServerSpec.DisconnectKeepsInv | nexus/network/server.py:212-236 | a disconnect keeps the registry invariant, whether it completes or raises |
| ServerSpec.MatchmadeMovesIgnored | nexus/network/server.py:101-111 | in every reachable registry a make_move from a player in a matchmade game changes nothing, because the game stays in LOBBY and `validate_game_command` only admits IN_GAME |
| NexusServer.TicTacToeServer.constructor | nexus/network/server.py:28-34 | a new server has the empty registry and satisfies the invariant |
| NexusServer.TicTacToeServer.SendGameUpdate | nexus/network/server.py:238-254 | the loop appends exactly one perspective message per member, in seat order |
| NexusServer.TicTacToeServer.SendToEachMember | nexus/network/server.py:162-164 | one full broadcast per member, as the join loop does |
| NexusServer.TicTacToeServer.EndGame | nexus/network/server.py:230-236 | the member loop and the deletion of the game's own name produce `EndSpec`: members released, game removed |
| NexusServer.TicTacToeServer.CreateGame | nexus/network/server.py:113-132 | performs `CreateSpec` in place and keeps the invariant |
| NexusServer.TicTacToeServer.JoinGame | nexus/network/server.py:134-164 | performs `JoinSpec` in place and keeps the invariant |
| NexusServer.TicTacToeServer.FindGame | nexus/network/server.py:166-191 | performs `FindSpec` in place, with the pairing loop, and keeps the invariant |
| NexusServer.TicTacToeServer.SeatMatched | nexus/network/server.py:188-191 | the pairing loop points every matched player at the new game, in seat order, and sends one broadcast of the game per player |
| NexusServer.TicTacToeServer.HandleSurrender | nexus/network/server.py:193-210 | performs `SurrenderSpec` in place and keeps the invariant |
| NexusServer.TicTacToeServer.HandleGameCommand | examples/tictactoe_server.py:49-91 | on an IN_GAME game, performs `MoveSpec` in place and keeps the invariant |
| NexusServer.TicTacToeServer.PlayMove | examples/tictactoe_server.py:67-88 | writing the mover's symbol and settling win, draw and next turn yields exactly the state `AfterMove` describes |
| NexusServer.TicTacToeServer.AcceptMove | examples/tictactoe_server.py:67-91 | an accepted move replaces only the moving game's state, with the state after the move, and broadcasts that new state to the game's members |
| NexusServer.TicTacToeServer.HandleDisconnect | nexus/network/server.py:212-236 | performs `DisconnectSpec` in place and keeps the invariant |
| NexusServer.TicTacToeServer.HandleCommand | nexus/network/server.py:67-99 | performs `HandleCommandSpec` in place and keeps the invariant |
| NexusServer.TicTacToeServer.RouteToGame | nexus/network/server.py:86-99 | for a command other than create, join and find, performs `HandleCommandSpec` in place: TypeError for an unhashable game id, dropped without a game, surrender unvalidated, otherwise validated and passed to the game |
| NexusServer.TicTacToeServer.Receive | nexus/network/server.py:52-60 | a command that raises leaves the handler's partial effect and adds one error reply to the sender |
| LegacySpec.Names | game_server.py:122 | `[p.name for p in ps]` lists each player's current name, in order |
| LegacySpec.CreateSpec | game_server.py:103-125 | `create_game`: a taken name sends an error; an unhashable name raises TypeError; otherwise a fresh game holding the creator is stored, the creator points at it and is told LOBBY, its name and X |
| LegacySpec.SeatMessages | game_server.py:155-163 | the per-member messages of a join: each member in seat order is told the phase, the names, its own symbol (X for the first seat, O otherwise), X to move and the board |
| LegacySpec.JoinSpec | game_server.py:127-163 | `join_game`: unknown game and wrong password send one error, a non-integer limit raises, a full game sends an error; otherwise the player is appended, the game goes IN_GAME when full, and each member gets its seat message |
| LegacySpec.FindSpec | game_server.py:165-198 | `find_game`: queue the player; once two wait, the two oldest get `match_{len(games)}` and each its own notice with X or O |
| LegacySpec.CreateEffect | game_server.py:103-125 | a duplicate name sends one error and changes nothing else; otherwise a fresh LOBBY game holding just the creator with an empty board, given password and limit is stored, the creator points at it, and it is told "lobby" and X |
| LegacySpec.JoinEffect | game_server.py:127-163 | rejects an unknown game, then a wrong password (only when one is set), each with one error and no other change; raises TypeError for a non-integer limit; then rejects a full game; on success appends the player, never exceeds the limit, sets IN_GAME exactly when full, and sends each member one message with X to move and `your_symbol` X iff it holds the first seat |
| LegacySpec.MatchmadeEffect | game_server.py:165-198 | the two oldest queued players get `match_{len(games)}`, X then O in pairing order, the rest of the queue keeps its order, both point at the game, and they are told IN_GAME while the stored state stays a fresh LOBBY state |
| LegacySpec.MatchMessagesShape | game_server.py:189-198 | a matched pair is sent exactly two notices, to the first and second seat in that order, assigning X and O and announcing IN_GAME |
| LegacySpec.FindOverwrites | game_server.py:176-184 | with no collision check, a live game named `match_N` is replaced and its members keep pointing at a game they are not in |
| LegacySpec.MoveData | game_server.py:221-238 | the data broadcast after a move: the board, the next mover unless the game ended, END_GAME on a win or a draw, and the winner on a win |
| LegacySpec.MoveSpec | game_server.py:200-240 | `handle_game_command` for make_move: no game or a game not IN_GAME is ignored; a missing row, col or symbol raises KeyError; a taken or out-of-range cell is ignored; a non-integer coordinate raises TypeError; otherwise the command's symbol is written and `MoveData` is sent to all |
| LegacySpec.MoveWritesSymbol | game_server.py:200-240 | a move that changes anything is one onto a free in-range cell of the player's game: it writes the command's own `symbol` (whoever's turn it is) into exactly that cell, leaves the stored phase unchanged, and sends all members the same data |
| LegacySpec.MoveDataOutcome | game_server.py:222-240 | the broadcast names the other symbol to move exactly while there is no truthy winner and the board is not full (None otherwise); END_GAME appears exactly on a win or draw, the winner exactly on a win |
| LegacySpec.EndSpec | game_server.py:295-301 | `end_game`: every member's `game_id` becomes None and the game is deleted when still registered under its name |
| LegacySpec.FirstOtherNameIsFirst | game_server.py:264-266 | the reported winner is the name of the first member other than the surrenderer, or None when there is none |
| LegacySpec.SurrenderData | game_server.py:264-271 | the surrender notice: END_GAME, the first other member's name as winner (or None), and the reason "surrender" |
| LegacySpec.SurrenderSpec | game_server.py:255-274 | `handle_surrender`: a player without a game is ignored, an unknown game id raises KeyError; otherwise the phase becomes END_GAME, all members get the notice, and the game ends (an unhashable id raises TypeError) |
| LegacySpec.SurrenderEffect | game_server.py:255-274 | a surrender tells every member the game ended by surrender with that winner, removes the game and releases all its members |
| LegacySpec.DisconnectSpec | game_server.py:276-293 | `handle_disconnect`: leave the queue, leave the game, end a game left with fewer than two players or send the rest the remaining names; a missing game raises KeyError |
| LegacySpec.DisconnectLeavesQueue | game_server.py:278-281 | a player queued once is no longer queued after disconnecting |
| LegacySpec.DisconnectEndsGame | game_server.py:283-289 | a game left with fewer than two players is removed and its remaining members released |
| LegacySpec.DisconnectNotifiesRest | game_server.py:283-293 | a game left with two or more players keeps them, and each is sent the remaining names in seat order |
| LegacySpec.DisconnectKeepsGame | game_server.py:283-293 | when the game keeps two or more players, the disconnect succeeds, shrinks only that game's player list and tells each remaining member the remaining names |
| LegacySpec.HandleCommandSpec | game_server.py:66-92 | `handle_command`: create and join read `name` and set `player.name` only after their handler returns, find sets it first, surrender and make_move go to their handlers, and any other command is ignored |
| LegacySpec.EmptyRegistryInv | game_server.py:27-33 | the empty registry satisfies the legacy invariant |
| LegacySpec.CreateKeepsInv | game_server.py:103-125 | create keeps the invariant: hashable keys equal to game names, 3×3 boards, matchmade games in LOBBY with two players and limit 2, at most one player queued |
| LegacySpec.JoinKeepsInv | game_server.py:127-163 | join keeps the legacy invariant (a matchmade game is full, so a join never changes it) |
| LegacySpec.FindKeepsInv | game_server.py:165-198 | matchmaking keeps the legacy invariant |
| LegacySpec.MoveKeepsInv | game_server.py:200-240 | a move keeps the legacy invariant |
| LegacySpec.SurrenderKeepsInv | game_server.py:255-274 | surrender keeps the legacy invariant |
| LegacySpec.DisconnectKeepsInv | game_server.py:276-301 | a disconnect keeps the legacy invariant |
| LegacySpec.HandleCommandKeepsInv | game_server.py:66-92 | every routed command keeps the legacy invariant, whether it completes or raises |
| LegacySpec.MatchmadeMovesIgnored | game_server.py:184 | in every reachable registry a move in a matchmade game changes nothing, because the game stays in LOBBY and moves need IN_GAME |
| LegacyServer.WebSocketGameServer.constructor | game_server.py:27-33 | a new server has the empty registry and satisfies the invariant |
| LegacyServer.WebSocketGameServer.PlayerNames | game_server.py:122 | the name-collecting loop yields each player's current name in order |
| LegacyServer.WebSocketGameServer.SendToAll | game_server.py:303-315 | a broadcast appends the same update to every member, in seat order |
| LegacyServer.WebSocketGameServer.EndGame | game_server.py:295-301 | the member loop and the deletion by name produce `EndSpec` |
| LegacyServer.WebSocketGameServer.CreateGame | game_server.py:103-125 | performs `CreateSpec` in place and keeps the invariant |
| LegacyServer.WebSocketGameServer.SendSeats | game_server.py:155-163 | the per-member loop sends each member its own seat message, in seat order |
| LegacyServer.WebSocketGameServer.JoinGame | game_server.py:127-163 | performs `JoinSpec` in place and keeps the invariant |
| LegacyServer.WebSocketGameServer.FindGame | game_server.py:165-198 | performs `FindSpec` in place, with the enumerate loop, and keeps the invariant |
| LegacyServer.WebSocketGameServer.SeatMatched | game_server.py:189-198 | the enumerate loop points both matched players at the new game and sends each its own notice, X to the first and O to the second |
| LegacyServer.WebSocketGameServer.HandleGameCommand | game_server.py:200-240 | performs `MoveSpec` in place and keeps the invariant |
| LegacyServer.WebSocketGameServer.AcceptMove | game_server.py:217-240 | an accepted move changes only the moving game's board cell and sends the move outcome to every member |
| LegacyServer.WebSocketGameServer.MoveUpdate | game_server.py:221-238 | the broadcast data is the outcome `MoveData` describes: the board, the next mover unless the game ended, and END_GAME plus the winner on a win |
| LegacyServer.WebSocketGameServer.HandleSurrender | game_server.py:255-274 | performs `SurrenderSpec` in place and keeps the invariant |
| LegacyServer.WebSocketGameServer.FirstOther | game_server.py:264-266 | the scan returns the first other member's name, or None |
| LegacyServer.WebSocketGameServer.HandleDisconnect | game_server.py:276-293 | performs `DisconnectSpec` in place and keeps the invariant |
| LegacyServer.WebSocketGameServer.HandleCommand | game_server.py:66-92 | performs `HandleCommandSpec` in place and keeps the invariant |
| LegacyServer.WebSocketGameServer.Receive | game_server.py:48-59 | a command that raises leaves the handler's partial effect and adds one error reply to the sender |
| TicTacToeRules.Perspective | examples/tic-tac-toe/tic_tac_toe.py:22-33 | the perspective holds the phase, board, current player and winner, `my_symbol` "X" iff index 0 (else "O"), and `is_your_turn` iff the player to move has that symbol |
| TicTacToeRules.PerspectiveTurnIsExclusive | examples/tic-tac-toe/tic_tac_toe.py:22-33 | while X or O is to move, the first seat and any other seat disagree on whose turn it is |
| TicTacToeRules.IsValid | examples/tic-tac-toe/tic_tac_toe.py:35-56 | accepts exactly when it is the seat's turn, row and col are present, and the placement is in range on a falsy cell; rejects not-your-turn first, then a missing coordinate, then out of bounds before occupied; it is a function of the state, so it never mutates it |
| TicTacToeRules.IsValidMove | examples/tic-tac-toe/tic_tac_toe.py:106-108 | `is_valid_move(row, col)`: in range and the cell is the empty string |
| TicTacToeRules.IsValidMoveAgrees | examples/tic-tac-toe/tic_tac_toe.py:106-108 | on the seat's turn a cell `is_valid_move` accepts is one `is_valid` accepts, and the two agree when every cell is a string |
| TicTacToeRules.Settle | examples/tic-tac-toe/tic_tac_toe.py:70-83 | the second half of `apply`: a truthy `check_winner` makes the mover the winner and ends the game, else a full board ends it drawn, else the turn passes |
| TicTacToeRules.ApplyEffect | examples/tic-tac-toe/tic_tac_toe.py:58-83 | `apply(update)`: only a GAME_STATE_UPDATE with row and col acts; it writes the symbol with Python indexing (IndexError, TypeError or KeyError leave the state as it was) and then settles |
| TicTacToeRules.ApplyKeepsGrid | examples/tic-tac-toe/tic_tac_toe.py:58-83 | `apply` always leaves a 3×3 board, and one that raises leaves the state as it was |
| TicTacToeRules.ApplyIgnores | examples/tic-tac-toe/tic_tac_toe.py:60-61 | other update types, and updates without row or col, leave the state unchanged |
| TicTacToeRules.ApplyInRange | examples/tic-tac-toe/tic_tac_toe.py:58-83 | at an in-range integer position `apply` succeeds and its result is the cell write followed by the win/draw/turn settlement |
| TicTacToeRules.ApplyPlaces | examples/tic-tac-toe/tic_tac_toe.py:58-83 | an in-range move writes the update's symbol into exactly that cell, then a truthy winner sets winner = symbol, game over, END_GAME and nobody to move; else a full board sets game over, no winner, END_GAME and nobody to move; else the turn flips |
| TicTacToeRules.ApplyWinnerIsLineOwner | examples/tic-tac-toe/tic_tac_toe.py:70-75 | on a board with no complete line before the move, the recorded winner is the owner of the line `check_winner` finds |
| TicTacToeRules.ReplayRejected | examples/tic-tac-toe/tic_tac_toe.py:53-67 | after a move with a truthy symbol is applied, `is_valid` rejects the same command for every seat and `is_valid_move` rejects the same cell |
| TicTacToeRules.TicTacToeState.constructor | examples/tic-tac-toe/tic_tac_toe.py:15-20 | a new state has an empty board, X to move and no symbol, and starts in LOBBY with no winner and the game not over |
| TicTacToeRules.TicTacToeState.Apply | examples/tic-tac-toe/tic_tac_toe.py:58-83 | the in-place `apply` produces the state and exception `ApplyEffect` gives, and keeps a 3×3 board |
| TicTacToeRules.TicTacToeState.SettleMove | examples/tic-tac-toe/tic_tac_toe.py:70-83 | after the write, a completed line makes the mover the winner and ends the game, a full board ends it drawn, and otherwise only the turn passes |
| TicTacToeClient.Merge | tictactoe.py:21-37 | a non-game-state update leaves the state unchanged; otherwise board, current_player, winner, phase, and `your_symbol` into `my_symbol`, are each taken from the data when present and kept otherwise |
| TicTacToeClient.MergeIdempotent | tictactoe.py:24-35 | applying the same update twice gives the state applying it once gives |
| TicTacToeClient.MergeKeys | tictactoe.py:24-35 | an update carrying none of the five keys changes nothing; one carrying all five decides the whole state |
| TicTacToeClient.IsValidMove | tictactoe.py:39-40 | out-of-range positions are invalid; on a 3×3 board an in-range position is valid exactly when its cell is the empty string |
| TicTacToeClient.FreshAcceptsEveryCell | tictactoe.py:13-18 | a fresh client accepts exactly the nine in-range cells |
| TicTacToeClient.MergedBoardDecides | tictactoe.py:24-25 | once a 3×3 board has been merged, a cell is valid exactly when that board holds the empty string there |
| TicTacToeClient.TicTacToeClientState.constructor | tictactoe.py:13-18 | a new client has phase "lobby", an empty 3×3 board, X to move, and no winner or symbol |
| TicTacToeClient.TicTacToeClientState.Update | tictactoe.py:21-35 | the in-place update leaves the fields as `Merge` of the old fields |

## Left out

- Websockets, asyncio and JSON text: `start`, `handle_connection`'s read loop, `json.dumps`/`json.loads`/`to_json`. A received command is a method call; a send is an outbox append. An error reply records the exception's kind, not the text of `str(e)`.
- The log lines (`print`), including the one in `send_game_update` that reads `message` before it is assigned; it sits in the `specific_player` branch, which no handler of the core takes.
- `asyncio.gather` in the older server's broadcast: the sends are appended in seat order.
- Python's cross-type equality (`1 == True`, `1 == 1.0`, a `str` enum member equal to its string) and floats as a whole. Equality between values is structural EVERYWHERE in the model: dict keys (a game name `Int(1)` and `Bool(true)` are different keys), board cells in `check_winner` (a row holding `1`, `true`, `1` is complete in Python but not in `Board.Completed`), the password test of `join_game`, the `symbol == "X"` tests that pick the next mover, and `in`/`remove`/`index` on player lists (players are connection ids, so that one is exact).
- Serialization.SerializeShape: objects that are not `Serializable` (a plain `GameState` held in a `Serializable` field, say) are not represented by `Values.Value`; in the source `_serialize` returns them unchanged, so `to_dict` can leave a live object in its result. The JSON-shaped guarantee holds for the values the model represents.
- Serialization.FromDict: takes no positional arguments. The source's `from_dict(data, *args, **kwargs)` passes `*args` to `cls(*args, **all_kwargs)`, where they fill the leading fields and a field given both positionally and by keyword raises TypeError; the model covers the call without positional arguments, the only form the core itself uses (nexus/network/serializable.py:78 and nexus/game/game.py:50 pass the data alone).
- Dict key order in messages: message data is a Dafny `map`.
- The type of a command's `data`. Both servers build `Command(**json.loads(message))`, so `data` can be any JSON value. The model types it as a string-keyed dict (`map<string, Value>` in `ServerSpec.HandleCommandSpec`, `LegacySpec.HandleCommandSpec` and the server classes' `HandleCommand` and `Receive`). It therefore does not capture what the source does when `data` is `null`, a list or a string:
  - `cmd.data["name"]` raises TypeError for create and join;
  - `cmd.data.get("player_name", "")` raises AttributeError for find before the player is queued;
  - `cmd.data["row"]` raises TypeError for make_move;
  - surrender ignores `data`.

  Each of these ends in one error reply with the registry unchanged. The model's `Failure` has no AttributeError.
- Players are identified by their connection (a `nat`). `game_id` and `name` are maps in the server, not fields of a shared `Player` object. The `Player` dataclass compares its websocket first, and each connection has its own `Player`, so equality is identity.
- In-place writes to a game's state object (`game.game_state.phase = …`, `board[row][col] = …`) are modelled as replacing that game's record in the registry map. Nothing else holds a reference to a game's state, and players find their game by name, so no aliasing is lost.
- The branch of the older server's `handle_command` for `CommandType` movement, shooting and item commands (game_server.py:94-101). The `command` module it imports is not part of this model. That branch ends in `handle_game_command`, which acts only on `make_move`, and an earlier branch already takes `make_move`, so those commands are modelled as ignored.
- `TicTacToeServer.create_initial_game_state` of the capability-set example (examples/tic-tac-toe/tic_tac_toe.py:111-114) passes the player list as the board. Its `NexusServer` base class is not part of this model.
- TicTacToeRules.TicTacToeState.constructor: the dataclass `__init__` never runs the base `GameState.__init__`, so `phase`, `winner` and `game_over` have no initial value in the source (reading them raises AttributeError). The model starts them at LOBBY, None and false.
- TicTacToeRules.IsValid: the rejection messages are not modelled, only which check rejected.
- TicTacToeClient.IsValidMove: a board that is not a list of lists is indexed as Python would for strings and lists; an index into any other value is modelled as a raised exception.
- `nexus/network/client.py`, the chess example, the pygame render and input loops, `main` and argument parsing, and the image scripts are UI or I/O outside the core.
