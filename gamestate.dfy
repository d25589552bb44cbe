/**
 * The base game state of the framework: the lobby / in-game / end-game phase
 * enum and the `GameState` object whose phase the server advances.
 */
module GameStates {
  import opened Values
  import opened Board

  /** `GamePhase(str, Enum)`. */
  datatype GamePhase = Lobby | InGame | EndGame

  /** `phase.value`. */
  function PhaseValue(p: GamePhase): string
  {
    match p
    case Lobby => "lobby"
    case InGame => "in_game"
    case EndGame => "end_game"
  }

  const PhaseEnum: EnumDef := EnumDef("GamePhase", ["lobby", "in_game", "end_game"])

  /** The enum member itself, as it sits in a dict before JSON encoding. */
  function PhaseMember(p: GamePhase): Value
  {
    Member(PhaseEnum, PhaseValue(p))
  }

  /**
   * `GamePhase(v)`: looks a member up by value. A `str` enum member equals its
   * value, so a member of any `str` enum with a matching value is accepted too;
   * anything else raises ValueError (`None` here).
   */
  function ParsePhase(v: Value): (r: Option<GamePhase>)
    ensures r.Some? <==> (v.Str? || v.Member?) && (v.Str? ==> v.s in PhaseEnum.values)
                                             && (v.Member? ==> v.value in PhaseEnum.values)
    ensures r.Some? ==> v == Str(PhaseValue(r.value)) || (v.Member? && v.value == PhaseValue(r.value))
  {
    var s := if v.Str? then v.s else if v.Member? then v.value else "";
    if !(v.Str? || v.Member?) then None
    else if s == "lobby" then Some(Lobby)
    else if s == "in_game" then Some(InGame)
    else if s == "end_game" then Some(EndGame)
    else None
  }

  /** The three phase values are distinct, and `GamePhase(v)` inverts `.value`, for the string and for the member. */
  lemma PhaseValueRoundTrip(p: GamePhase, q: GamePhase)
    ensures PhaseValue(p) == PhaseValue(q) ==> p == q
    ensures PhaseValue(p) in PhaseEnum.values
    ensures ParsePhase(Str(PhaseValue(p))) == Some(p)
    ensures ParsePhase(PhaseMember(p)) == Some(p)
  {
  }

  /** `GameState.to_dict()`: the phase, and nothing else. */
  function BaseDict(p: GamePhase): (d: map<string, Value>)
    ensures d.Keys == {"phase"}
    ensures ParsePhase(d["phase"]) == Some(p)
  {
    PhaseValueRoundTrip(p, p);
    map["phase" := PhaseMember(p)]
  }

  /**
   * `GameState.update(data)`: the phase after merging `data`, or `None` when
   * `GamePhase(data["phase"])` raises.
   */
  function MergePhase(p: GamePhase, data: map<string, Value>): (r: Option<GamePhase>)
    ensures "phase" !in data ==> r == Some(p)
    ensures "phase" in data ==> r == ParsePhase(data["phase"])
  {
    if "phase" in data then ParsePhase(data["phase"]) else Some(p)
  }

  /** Merging the same data twice gives what merging it once gives. */
  lemma MergePhaseIdempotent(p: GamePhase, data: map<string, Value>)
    requires MergePhase(p, data).Some?
    ensures MergePhase(MergePhase(p, data).value, data) == MergePhase(p, data)
  {
  }

  class GameState {
    var phase: GamePhase
    var board: Value

    /** A new state is in the lobby with an empty 3×3 board. */
    constructor ()
      ensures phase == Lobby && board == EmptyGrid()
    {
      phase := Lobby;
      board := EmptyGrid();
    }

    function ToDict(): map<string, Value>
      reads this
    {
      BaseDict(phase)
    }

    /** The base perspective ignores the player index and is `to_dict()`. */
    function PlayerPerspective(playerIndex: int): (d: map<string, Value>)
      reads this
      ensures d.Keys == {"phase"} && ParsePhase(d["phase"]) == Some(phase)
    {
      ToDict()
    }

    /**
     * Sets the phase from `data["phase"]` when the key is there; returns
     * false (the ValueError) when that value names no phase. Never touches the board.
     */
    method Update(data: map<string, Value>) returns (ok: bool)
      modifies this`phase
      ensures ok <==> MergePhase(old(phase), data).Some?
      ensures phase == if ok then MergePhase(old(phase), data).value else old(phase)
    {
      ok := true;
      if "phase" in data {
        var p := ParsePhase(data["phase"]);
        if p.None? {
          ok := false;
          return;
        }
        phase := p.value;
      }
    }
  }
}
