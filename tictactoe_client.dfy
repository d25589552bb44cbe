/**
 * The tic-tac-toe client's local state (`TicTacToeState` of the standalone
 * client): what a new client shows, how it merges a game-state update from
 * the server, and the cell check it makes before sending a move. The server
 * is trusted for the shape of what it sends, so the merged board may be any
 * value; the cell check then follows Python's indexing on it.
 */
module TicTacToeClient {
  import opened Values
  import opened Messages
  import opened Board

  /** The fields of the client state. The phase is the plain string of the legacy `GamePhase` holder, or whatever the server sent. */
  datatype ClientView = ClientView(
    phase: Value,
    board: Value,
    current: Value,
    winner: Value,
    mySymbol: Value)

  /** A new client: in the lobby, an empty board, X to move, no winner and no symbol yet. */
  const FreshClient: ClientView := ClientView(Str("lobby"), EmptyGrid(), Str("X"), Null, Null)

  /**
   * `update(update)`: only a GAME_STATE_UPDATE is merged; each of `board`,
   * `current_player`, `winner`, `your_symbol` (into `my_symbol`) and `phase`
   * is copied when its key is present.
   */
  function Merge(v: ClientView, updateType: string, data: map<string, Value>): (w: ClientView)
    ensures updateType != GameStateUpdate ==> w == v
    ensures updateType == GameStateUpdate ==>
      w.board == Get(data, "board", v.board) && w.current == Get(data, "current_player", v.current) &&
      w.winner == Get(data, "winner", v.winner) && w.mySymbol == Get(data, "your_symbol", v.mySymbol) &&
      w.phase == Get(data, "phase", v.phase)
  {
    if updateType != GameStateUpdate then v
    else
      var b := if "board" in data then data["board"] else v.board;
      var c := if "current_player" in data then data["current_player"] else v.current;
      var win := if "winner" in data then data["winner"] else v.winner;
      var s := if "your_symbol" in data then data["your_symbol"] else v.mySymbol;
      var p := if "phase" in data then data["phase"] else v.phase;
      ClientView(p, b, c, win, s)
  }

  /** Merging the same update twice gives the state merging it once gives. */
  lemma MergeIdempotent(v: ClientView, updateType: string, data: map<string, Value>)
    ensures Merge(Merge(v, updateType, data), updateType, data) == Merge(v, updateType, data)
  {
  }

  /** An update carrying none of the five keys changes nothing; one that carries all five decides the whole state. */
  lemma MergeKeys(v: ClientView, v': ClientView, data: map<string, Value>)
    ensures (forall k :: k in data ==> k !in {"board", "current_player", "winner", "your_symbol", "phase"}) ==>
              Merge(v, GameStateUpdate, data) == v
    ensures {"board", "current_player", "winner", "your_symbol", "phase"} <= data.Keys ==>
              Merge(v, GameStateUpdate, data) == Merge(v', GameStateUpdate, data)
  {
    if forall k :: k in data ==> k !in {"board", "current_player", "winner", "your_symbol", "phase"} {
      assert "board" !in data && "current_player" !in data && "winner" !in data;
      assert "your_symbol" !in data && "phase" !in data;
    }
  }

  /** `v[i]` for a non-negative index: a list's item, a string's character, KeyError on a dict, TypeError otherwise. */
  function Subscript(v: Value, i: nat): (r: Result<Value>)
    ensures v.List? && i < |v.items| ==> r == Ok(v.items[i])
    ensures r.Ok? ==> (v.List? && i < |v.items|) || (v.Str? && i < |v.s|) || (v.Member? && i < |v.value|)
  {
    match v
    case List(items) => if i < |items| then Ok(items[i]) else Err(IndexError)
    case Str(s) => if i < |s| then Ok(Str([s[i]])) else Err(IndexError)
    case Member(_, s) => if i < |s| then Ok(Str([s[i]])) else Err(IndexError)
    case Dict(_) => Err(KeyError(Int(i)))
    case _ => Err(TypeError)
  }

  /** `x == ''`: the empty string, or a `str` enum member whose value is empty. */
  predicate IsEmptyString(x: Value)
  {
    x == Str("") || (x.Member? && x.value == "")
  }

  /**
   * `is_valid_move(row, col)`: the position is in range and `board[row][col]`
   * is the empty string; indexing a board of another shape raises.
   */
  function IsValidMove(v: ClientView, row: int, col: int): (r: Result<bool>)
    ensures !InRange(row, col) ==> r == Ok(false)
    ensures IsGrid(v.board) ==> r == Ok(InRange(row, col) && IsEmptyString(Cell(v.board, row, col)))
  {
    if !(0 <= row < 3 && 0 <= col < 3) then Ok(false)
    else
      match Subscript(v.board, row)
      case Err(f) => Err(f)
      case Ok(line) =>
        match Subscript(line, col)
        case Err(f) => Err(f)
        case Ok(x) => Ok(IsEmptyString(x))
  }

  /** A fresh client accepts exactly the nine in-range cells. */
  lemma FreshAcceptsEveryCell(row: int, col: int)
    ensures IsValidMove(FreshClient, row, col) == Ok(InRange(row, col))
  {
  }

  /**
   * After the client merges a board it was sent, its move check reads that
   * board: for a 3×3 grid, a cell is playable exactly when the server's grid
   * holds the empty string there.
   */
  lemma MergedBoardDecides(v: ClientView, data: map<string, Value>, row: int, col: int)
    requires "board" in data && IsGrid(data["board"])
    ensures IsValidMove(Merge(v, GameStateUpdate, data), row, col) ==
              Ok(InRange(row, col) && IsEmptyString(Cell(data["board"], row, col)))
  {
  }

  class TicTacToeClientState {
    var phase: Value
    var board: Value
    var currentPlayer: Value
    var winner: Value
    var mySymbol: Value

    function View(): ClientView
      reads this
    {
      ClientView(phase, board, currentPlayer, winner, mySymbol)
    }

    constructor ()
      ensures View() == FreshClient
    {
      phase := Str("lobby");
      board := EmptyGrid();
      currentPlayer := Str("X");
      winner := Null;
      mySymbol := Null;
    }

    /** `update(update)`, assigning each field whose key the update carries. */
    method Update(updateType: string, data: map<string, Value>)
      modifies this
      ensures View() == Merge(old(View()), updateType, data)
    {
      if updateType == GameStateUpdate {
        if "board" in data {
          board := data["board"];
        }
        if "current_player" in data {
          currentPlayer := data["current_player"];
        }
        if "winner" in data {
          winner := data["winner"];
        }
        if "your_symbol" in data {
          mySymbol := data["your_symbol"];
        }
        if "phase" in data {
          phase := data["phase"];
        }
      }
    }
  }
}
