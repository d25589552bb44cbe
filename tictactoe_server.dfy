/**
 * The tic-tac-toe state the framework's server keeps per game
 * (`TicTacToeGameState`): the base phase and board plus whose turn it is,
 * its dict form, the per-player view sent to clients, and the move a
 * `TicTacToeServer` applies to it.
 */
module TicTacToeServerState {
  import opened Values
  import opened Board
  import opened GameStates

  /** The fields of a `TicTacToeGameState`. */
  datatype StateView = StateView(phase: GamePhase, board: Value, current: Value)

  /** A fresh state: in the lobby, empty board, X to move. */
  const InitialView: StateView := StateView(Lobby, EmptyGrid(), Str("X"))

  /** The symbol of seat `playerIndex`: X for the first seat, O for every other. */
  function SymbolFor(playerIndex: int): Value
  {
    if playerIndex == 0 then Str("X") else Str("O")
  }

  /** `to_dict()`: the base dict extended with the board and the player to move. */
  function StateDict(v: StateView): (d: map<string, Value>)
    ensures d.Keys == {"phase", "board", "current_player"}
    ensures ParsePhase(d["phase"]) == Some(v.phase)
    ensures d["board"] == v.board && d["current_player"] == v.current
  {
    BaseDict(v.phase)["board" := v.board]["current_player" := v.current]
  }

  /** `get_player_perspective(i)`: `to_dict()` plus the seat's symbol and whether it is that seat's turn. */
  function Perspective(v: StateView, playerIndex: int): (d: map<string, Value>)
    ensures d.Keys == {"phase", "board", "current_player", "your_symbol", "is_your_turn"}
    ensures forall k :: k in StateDict(v) ==> d[k] == StateDict(v)[k]
    ensures d["your_symbol"] == Str("X") <==> playerIndex == 0
    ensures d["your_symbol"] == Str("O") <==> playerIndex != 0
    ensures d["is_your_turn"] == Bool(v.current == d["your_symbol"])
  {
    var symbol := SymbolFor(playerIndex);
    StateDict(v)["your_symbol" := symbol]["is_your_turn" := Bool(v.current == symbol)]
  }

  /** While X or O is to move, exactly one of the first seat and any other seat is told it is its turn. */
  lemma PerspectiveTurnIsExclusive(v: StateView, i: int)
    requires i != 0 && (v.current == Str("X") || v.current == Str("O"))
    ensures Perspective(v, 0)["is_your_turn"] == Bool(true) <==> Perspective(v, i)["is_your_turn"] == Bool(false)
  {
  }

  /**
   * `update(data)`: the base update of the phase (`None` when `GamePhase(...)`
   * raises, before anything is assigned), then board and current player for
   * the keys that are present.
   */
  function MergeUpdate(v: StateView, data: map<string, Value>): (r: Option<StateView>)
    ensures r.None? <==> MergePhase(v.phase, data).None?
    ensures r.Some? ==> r.value.phase == MergePhase(v.phase, data).value
    ensures r.Some? ==> r.value.board == Get(data, "board", v.board)
    ensures r.Some? ==> r.value.current == Get(data, "current_player", v.current)
  {
    match MergePhase(v.phase, data)
    case None => None
    case Some(p) =>
      var b := if "board" in data then data["board"] else v.board;
      var c := if "current_player" in data then data["current_player"] else v.current;
      Some(StateView(p, b, c))
  }

  /** An update without any of the three keys changes nothing. */
  lemma MergeAbsentKeys(v: StateView, data: map<string, Value>)
    requires "phase" !in data && "board" !in data && "current_player" !in data
    ensures MergeUpdate(v, data) == Some(v)
  {
  }

  /** Applying the same update twice gives the state applying it once gives. */
  lemma MergeIdempotent(v: StateView, data: map<string, Value>)
    requires MergeUpdate(v, data).Some?
    ensures MergeUpdate(MergeUpdate(v, data).value, data) == MergeUpdate(v, data)
  {
    MergePhaseIdempotent(v.phase, data);
  }

  /** `update(to_dict())` copies a state exactly, whatever the receiving state was. */
  lemma MergeStateDict(w: StateView, v: StateView)
    ensures MergeUpdate(w, StateDict(v)) == Some(v)
  {
  }

  /** The other symbol: O after X, X after anything else. */
  function NextSymbol(symbol: Value): Value
  {
    if symbol == Str("X") then Str("O") else Str("X")
  }

  /**
   * The state after `handle_game_command` accepts a move: the cell takes the
   * mover's symbol, the turn always passes to the other symbol, and the phase
   * becomes END_GAME when the board now has a winner or is full.
   */
  function AfterMove(v: StateView, r: int, c: int, symbol: Value): StateView
    requires IsGrid(v.board) && InRange(r, c)
  {
    var b := SetCell(v.board, r, c, symbol);
    var ended := Truthy(Winner(b)) || IsFull(b);
    StateView(if ended then EndGame else v.phase, b, NextSymbol(symbol))
  }

  /**
   * An accepted move changes that one cell only, passes the turn even on the
   * final move, and ends the game exactly when a line is completed or the
   * board fills; on a board without a line, only the mover can have won.
   */
  lemma AfterMoveEffect(v: StateView, r: int, c: int, symbol: Value)
    requires IsGrid(v.board) && InRange(r, c)
    ensures IsGrid(AfterMove(v, r, c, symbol).board)
    ensures Cell(AfterMove(v, r, c, symbol).board, r, c) == symbol
    ensures forall r', c' :: InRange(r', c') && (r', c') != (r, c) ==>
              Cell(AfterMove(v, r, c, symbol).board, r', c') == Cell(v.board, r', c')
    ensures AfterMove(v, r, c, symbol).current != symbol || symbol !in {Str("X"), Str("O")}
    ensures symbol == Str("X") ==> AfterMove(v, r, c, symbol).current == Str("O")
    ensures symbol == Str("O") ==> AfterMove(v, r, c, symbol).current == Str("X")
    ensures AfterMove(v, r, c, symbol).phase ==
              if Truthy(Winner(AfterMove(v, r, c, symbol).board)) || IsFull(AfterMove(v, r, c, symbol).board)
              then EndGame else v.phase
    ensures NoLine(v.board) ==> Winner(AfterMove(v, r, c, symbol).board) in {Null, symbol}
  {
    if NoLine(v.board) {
      MoveWinnerIsMover(v.board, r, c, symbol);
    }
  }

  class TicTacToeGameState {
    var phase: GamePhase
    var board: Value
    var current: Value

    function View(): StateView
      reads this
    {
      StateView(phase, board, current)
    }

    /** `TicTacToeGameState()`: the base state's lobby phase and empty board, X to move. */
    constructor ()
      ensures View() == InitialView
    {
      phase := Lobby;
      board := EmptyGrid();
      current := Str("X");
    }

    /** `to_dict()`, read back: the phase parses to the state's own, board and player to move are the state's. */
    function ToDict(): (d: map<string, Value>)
      reads this
      ensures d == StateDict(View())
      ensures ParsePhase(d["phase"]) == Some(phase) && d["board"] == board && d["current_player"] == current
    {
      StateDict(View())
    }

    /** `get_player_perspective(i)`. */
    function PlayerPerspective(playerIndex: int): (d: map<string, Value>)
      reads this
      ensures d == Perspective(View(), playerIndex)
      ensures d["is_your_turn"] == Bool(current == SymbolFor(playerIndex))
    {
      Perspective(View(), playerIndex)
    }

    /** `update(data)`: returns false when the base update raises ValueError, in which case nothing changed. */
    method Update(data: map<string, Value>) returns (ok: bool)
      modifies this
      ensures ok <==> MergeUpdate(old(View()), data).Some?
      ensures View() == if ok then MergeUpdate(old(View()), data).value else old(View())
    {
      if "phase" in data {
        var p := ParsePhase(data["phase"]);
        if p.None? {
          return false;
        }
        phase := p.value;
      }
      if "board" in data {
        board := data["board"];
      }
      if "current_player" in data {
        current := data["current_player"];
      }
      return true;
    }
  }
}
