/**
 * The tic-tac-toe state of the capability-set example (`TicTacToeState` in
 * the tic-tac-toe example game): the per-player view, the move check
 * `is_valid`, the update `apply` that places a symbol and settles the
 * outcome, and the client-side cell check `is_valid_move`. Lines and draws
 * are decided by the `Board` module.
 */
module TicTacToeRules {
  import opened Values
  import opened Messages
  import opened Board
  import opened GameStates
  import TicTacToeServerState

  /** The fields of a `TicTacToeState`. */
  datatype RulesView = RulesView(
    phase: GamePhase,
    board: Value,
    current: Value,
    mySymbol: Value,
    winner: Value,
    gameOver: bool)

  /** A new state: in the lobby, an empty board, X to move, no symbol, no winner. */
  const FreshView: RulesView := RulesView(Lobby, EmptyGrid(), Str("X"), Null, Null, false)

  /**
   * `get_player_perspective(i)`: the base dict plus board, player to move,
   * winner, the seat's symbol, and whether it is that seat's turn.
   */
  function Perspective(v: RulesView, playerIndex: int): (d: map<string, Value>)
    ensures d.Keys == {"phase", "board", "current_player", "winner", "my_symbol", "is_your_turn"}
    ensures ParsePhase(d["phase"]) == Some(v.phase)
    ensures d["board"] == v.board && d["current_player"] == v.current && d["winner"] == v.winner
    ensures d["my_symbol"] == Str("X") <==> playerIndex == 0
    ensures d["my_symbol"] == Str("O") <==> playerIndex != 0
    ensures d["is_your_turn"] == Bool(v.current == d["my_symbol"])
  {
    var symbol := TicTacToeServerState.SymbolFor(playerIndex);
    BaseDict(v.phase)["board" := v.board]["current_player" := v.current]["winner" := v.winner]
      ["my_symbol" := symbol]["is_your_turn" := Bool(v.current == symbol)]
  }

  /** While X or O is to move, the first seat and any other seat are never both told it is their turn, nor both told it is not. */
  lemma PerspectiveTurnIsExclusive(v: RulesView, i: int)
    requires i != 0 && (v.current == Str("X") || v.current == Str("O"))
    ensures Perspective(v, 0)["is_your_turn"] == Bool(true) <==> Perspective(v, i)["is_your_turn"] == Bool(false)
  {
  }

  /** Why `is_valid` turns a command down; the message text is not modelled. */
  datatype Reason = NotYourTurn | MissingRowOrCol | OutOfBounds | Occupied

  /** What `is_valid` returns, or the exception a comparison raises. */
  datatype Verdict = Accept | Reject(reason: Reason) | Raise(failure: Failure)

  /**
   * `is_valid(cmd, player_index)`: not the seat's turn, then a missing `row`
   * or `col`, then out of bounds, then an occupied (truthy) cell. The bounds
   * test compares `row` first and `col` only when `row` is in range; a
   * non-number raises TypeError there.
   */
  function IsValid(v: RulesView, data: map<string, Value>, playerIndex: int): (r: Verdict)
    requires IsGrid(v.board)
    ensures r.Accept? <==>
      v.current == TicTacToeServerState.SymbolFor(playerIndex) && "row" in data && "col" in data &&
      CheckPlacement(v.board, data["row"], data["col"]).Free?
    ensures v.current != TicTacToeServerState.SymbolFor(playerIndex) ==> r == Reject(NotYourTurn)
    ensures v.current == TicTacToeServerState.SymbolFor(playerIndex) && ("row" !in data || "col" !in data) ==> r == Reject(MissingRowOrCol)
    ensures r == Reject(OutOfBounds) ==>
      AsInt(data["row"]).Some? && (!(0 <= AsInt(data["row"]).value < 3) ||
        (AsInt(data["col"]).Some? && !InRange(AsInt(data["row"]).value, AsInt(data["col"]).value)))
    ensures r == Reject(Occupied) ==>
      AsInt(data["row"]).Some? && AsInt(data["col"]).Some? &&
      InRange(AsInt(data["row"]).value, AsInt(data["col"]).value) &&
      Truthy(Cell(v.board, AsInt(data["row"]).value, AsInt(data["col"]).value))
    ensures r.Raise? ==> r.failure == TypeError
  {
    if v.current != TicTacToeServerState.SymbolFor(playerIndex) then Reject(NotYourTurn)
    else if "row" !in data || "col" !in data then Reject(MissingRowOrCol)
    else
      match AsInt(data["row"])
      case None => Raise(TypeError)
      case Some(row) =>
        if !(0 <= row < 3) then Reject(OutOfBounds)
        else
          match AsInt(data["col"])
          case None => Raise(TypeError)
          case Some(col) =>
            if !(0 <= col < 3) then Reject(OutOfBounds)
            else if Truthy(Cell(v.board, row, col)) then Reject(Occupied)
            else Accept
  }

  /** `is_valid_move(row, col)`: in range, and the cell holds exactly the empty string. */
  function IsValidMove(v: RulesView, row: int, col: int): (ok: bool)
    requires IsGrid(v.board)
  {
    InRange(row, col) && Cell(v.board, row, col) == EmptyCell
  }

  /**
   * On the mover's turn, a cell `is_valid_move` accepts is one `is_valid`
   * accepts; the converse holds when every cell is a string, since then the
   * only falsy cell is the empty one.
   */
  lemma IsValidMoveAgrees(v: RulesView, row: int, col: int, playerIndex: int)
    requires IsGrid(v.board) && v.current == TicTacToeServerState.SymbolFor(playerIndex)
    ensures IsValidMove(v, row, col) ==> IsValid(v, map["row" := Int(row), "col" := Int(col)], playerIndex) == Accept
    ensures (forall i, j :: InRange(i, j) ==> Cell(v.board, i, j).Str?) ==>
              (IsValid(v, map["row" := Int(row), "col" := Int(col)], playerIndex) == Accept <==> IsValidMove(v, row, col))
  {
  }

  /**
   * The outcome `apply` settles after placing `symbol`: a truthy winner ends
   * the game with the mover as winner and nobody to move; otherwise a full
   * board ends it as a draw; otherwise the turn passes.
   */
  function Settle(v: RulesView, symbol: Value): RulesView
    requires IsGrid(v.board)
  {
    if Truthy(Winner(v.board)) then v.(winner := symbol, gameOver := true, phase := EndGame, current := Null)
    else if IsFull(v.board) then v.(gameOver := true, winner := Null, phase := EndGame, current := Null)
    else v.(current := TicTacToeServerState.NextSymbol(symbol))
  }

  /**
   * `apply(update)`: acts only on a GAME_STATE_UPDATE carrying `row` and
   * `col`; reads `symbol` (KeyError), writes it with no bounds check, so
   * Python's indexing decides: a non-number raises TypeError, an index
   * outside -3..2 raises IndexError, a negative one counts from the end.
   */
  function ApplyEffect(v: RulesView, updateType: string, data: map<string, Value>): (Outcome, RulesView)
    requires IsGrid(v.board)
  {
    if updateType != GameStateUpdate || "row" !in data || "col" !in data then (Done, v)
    else if "symbol" !in data then (Raised(KeyError(Str("symbol"))), v)
    else
      match AsInt(data["row"])
      case None => (Raised(TypeError), v)
      case Some(row) =>
        match PyIndex(row, 3)
        case None => (Raised(IndexError), v)
        case Some(r) =>
          match AsInt(data["col"])
          case None => (Raised(TypeError), v)
          case Some(col) =>
            match PyIndex(col, 3)
            case None => (Raised(IndexError), v)
            case Some(c) => (Done, Settle(v.(board := SetCell(v.board, r, c, data["symbol"])), data["symbol"]))
  }

  /** Every outcome of `apply` leaves a 3×3 board; an exception leaves the state as it was. */
  lemma ApplyKeepsGrid(v: RulesView, updateType: string, data: map<string, Value>)
    requires IsGrid(v.board)
    ensures IsGrid(ApplyEffect(v, updateType, data).1.board)
    ensures ApplyEffect(v, updateType, data).0.Raised? ==> ApplyEffect(v, updateType, data).1 == v
  {
  }

  /** Other update types, and updates without `row` or `col`, leave the state unchanged. */
  lemma ApplyIgnores(v: RulesView, updateType: string, data: map<string, Value>)
    requires IsGrid(v.board) && (updateType != GameStateUpdate || "row" !in data || "col" !in data)
    ensures ApplyEffect(v, updateType, data) == (Done, v)
  {
  }

  /** `apply` at an in-range integer position is the write followed by the win/draw/turn settlement. */
  lemma ApplyInRange(v: RulesView, data: map<string, Value>, row: int, col: int)
    requires IsGrid(v.board) && InRange(row, col)
    requires "row" in data && "col" in data && "symbol" in data
    requires data["row"] == Int(row) && data["col"] == Int(col)
    ensures ApplyEffect(v, GameStateUpdate, data) ==
              (Done, Settle(v.(board := SetCell(v.board, row, col, data["symbol"])), data["symbol"]))
  {
    assert PyIndex(row, 3) == Some(row) && PyIndex(col, 3) == Some(col);
  }

  /**
   * A move at an in-range position writes the update's `symbol` into exactly
   * that cell, and then ends the game with the mover as winner, ends it as a
   * draw, or passes the turn, in that order of precedence.
   */
  lemma ApplyPlaces(v: RulesView, data: map<string, Value>, row: int, col: int)
    requires IsGrid(v.board) && InRange(row, col)
    requires "row" in data && "col" in data && "symbol" in data
    requires data["row"] == Int(row) && data["col"] == Int(col)
    ensures var (o, v') := ApplyEffect(v, GameStateUpdate, data); var s := data["symbol"];
      o == Done && IsGrid(v'.board) && Cell(v'.board, row, col) == s &&
      (forall i, j :: InRange(i, j) && (i, j) != (row, col) ==> Cell(v'.board, i, j) == Cell(v.board, i, j)) &&
      v'.mySymbol == v.mySymbol &&
      if Truthy(Winner(v'.board)) then
        v'.winner == s && v'.gameOver && v'.phase == EndGame && v'.current == Null
      else if IsFull(v'.board) then
        v'.winner == Null && v'.gameOver && v'.phase == EndGame && v'.current == Null
      else
        v'.winner == v.winner && v'.gameOver == v.gameOver && v'.phase == v.phase &&
        v'.current == (if s == Str("X") then Str("O") else Str("X"))
  {
    ApplyInRange(v, data, row, col);
  }

  /**
   * Recording the mover as winner is right: on a board that had no complete
   * line, a move that makes `check_winner()` truthy completed a line of the
   * mover's own symbol.
   */
  lemma ApplyWinnerIsLineOwner(v: RulesView, data: map<string, Value>, row: int, col: int)
    requires IsGrid(v.board) && InRange(row, col) && NoLine(v.board)
    requires "row" in data && "col" in data && "symbol" in data
    requires data["row"] == Int(row) && data["col"] == Int(col)
    ensures var v' := ApplyEffect(v, GameStateUpdate, data).1;
      IsGrid(v'.board) && (Truthy(Winner(v'.board)) ==> v'.winner == Winner(v'.board) && HasLine(v'.board, v'.winner))
  {
    ApplyInRange(v, data, row, col);
    MoveWinnerIsMover(v.board, row, col, data["symbol"]);
    WinnerIsLineOwner(SetCell(v.board, row, col, data["symbol"]));
  }

  /**
   * A move cannot be replayed: once `apply` has written a truthy symbol,
   * `is_valid` turns the same command down for every seat, and
   * `is_valid_move` turns the same cell down.
   */
  lemma ReplayRejected(v: RulesView, data: map<string, Value>, playerIndex: int)
    requires IsGrid(v.board)
    requires "row" in data && "col" in data && "symbol" in data && Truthy(data["symbol"])
    requires ApplyEffect(v, GameStateUpdate, data).0 == Done
    ensures var v' := ApplyEffect(v, GameStateUpdate, data).1;
      IsGrid(v'.board) && IsValid(v', data, playerIndex) != Accept &&
      (AsInt(data["row"]).Some? && AsInt(data["col"]).Some? ==>
        !IsValidMove(v', AsInt(data["row"]).value, AsInt(data["col"]).value))
  {
    var row := AsInt(data["row"]).value;
    var col := AsInt(data["col"]).value;
    if InRange(row, col) {
      var b' := SetCell(v.board, row, col, data["symbol"]);
      assert ApplyEffect(v, GameStateUpdate, data).1.board == b';
    }
  }

  class TicTacToeState {
    var phase: GamePhase
    var board: Value
    var currentPlayer: Value
    var mySymbol: Value
    var winner: Value
    var gameOver: bool

    function View(): RulesView
      reads this
    {
      RulesView(phase, board, currentPlayer, mySymbol, winner, gameOver)
    }

    ghost predicate Valid()
      reads this
    {
      IsGrid(board)
    }

    /** The dataclass defaults: empty board, X to move, no symbol; phase, winner and game-over start as a fresh game's. */
    constructor ()
      ensures Valid() && View() == FreshView
    {
      phase := Lobby;
      board := EmptyGrid();
      currentPlayer := Str("X");
      mySymbol := Null;
      winner := Null;
      gameOver := false;
    }

    /** `apply(update)`, writing the cell and then the outcome fields in place. */
    method Apply(updateType: string, data: map<string, Value>) returns (o: Outcome)
      requires Valid()
      modifies this
      ensures Valid()
      ensures (o, View()) == ApplyEffect(old(View()), updateType, data)
    {
      if updateType != GameStateUpdate || "row" !in data || "col" !in data {
        return Done;
      }
      if "symbol" !in data {
        return Raised(KeyError(Str("symbol")));
      }
      var symbol := data["symbol"];
      var row := AsInt(data["row"]);
      if row.None? {
        return Raised(TypeError);
      }
      var r := PyIndex(row.value, 3);
      if r.None? {
        return Raised(IndexError);
      }
      var col := AsInt(data["col"]);
      if col.None? {
        return Raised(TypeError);
      }
      var c := PyIndex(col.value, 3);
      if c.None? {
        return Raised(IndexError);
      }
      board := SetCell(board, r.value, c.value, symbol);
      SettleMove(symbol);
      return Done;
    }

    /** The second half of `apply`: after the write, a win ends the game with the mover as winner, a full board ends it drawn, and otherwise the turn passes. */
    method SettleMove(symbol: Value)
      requires Valid()
      modifies this`winner, this`gameOver, this`phase, this`currentPlayer
      ensures View() == Settle(old(View()), symbol)
    {
      var w := CheckWinner(board);
      if Truthy(w) {
        winner := symbol;
        gameOver := true;
        phase := EndGame;
        currentPlayer := Null;
      } else if IsFull(board) {
        gameOver := true;
        winner := Null;
        phase := EndGame;
        currentPlayer := Null;
      } else {
        currentPlayer := if symbol == Str("X") then Str("O") else Str("X");
      }
    }
  }
}
