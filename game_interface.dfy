/**
 * What every board game of the Tic-Tac-Toe subsystem shares: the configuration record,
 * the moves an agent may hand over, the `(is_over, winner)` answer and an agent's label.
 */
module GameInterface {
  import opened Wrappers

  /** A configuration value; only integers, strings and booleans are modelled. */
  datatype Value = VInt(i: int) | VStr(s: string) | VBool(b: bool)

  const NAMED_KEYS: set<string> := {"board_size", "win_length", "num_players", "max_moves"}

  /**
   * `GameConfig`: the four named parameters and the remaining keyword arguments.
   * Python binds a keyword that names a parameter to that parameter, so the extra
   * keys never clash with the named ones.
   */
  datatype GameConfigRecord = GameConfigRecord(
    boardSize: int, winLength: int, numPlayers: int, maxMoves: int, extra: map<string, Value>)

  type GameConfig = c: GameConfigRecord | c.extra.Keys !! NAMED_KEYS
    witness GameConfigRecord(3, 3, 2, 50, map[])

  /** `GameConfig(board_size=..., ..., **kwargs)`, where None stands for an omitted argument. */
  function NewGameConfig(boardSize: Option<int>, winLength: Option<int>, numPlayers: Option<int>,
                         maxMoves: Option<int>, kwargs: map<string, Value>): (c: GameConfig)
    requires kwargs.Keys !! NAMED_KEYS
    ensures c.boardSize == (if boardSize.Some? then boardSize.value else 3)
    ensures c.winLength == (if winLength.Some? then winLength.value else 3)
    ensures c.numPlayers == (if numPlayers.Some? then numPlayers.value else 2)
    ensures c.maxMoves == (if maxMoves.Some? then maxMoves.value else 50)
    ensures c.extra == kwargs
  {
    GameConfigRecord(
      if boardSize.Some? then boardSize.value else 3,
      if winLength.Some? then winLength.value else 3,
      if numPlayers.Some? then numPlayers.value else 2,
      if maxMoves.Some? then maxMoves.value else 50,
      kwargs)
  }

  /** `to_dict`: the four named entries followed by every extra entry. */
  function ToDict(c: GameConfig): (d: map<string, Value>)
    ensures d.Keys == NAMED_KEYS + c.extra.Keys
    ensures d["board_size"] == VInt(c.boardSize) && d["win_length"] == VInt(c.winLength)
    ensures d["num_players"] == VInt(c.numPlayers) && d["max_moves"] == VInt(c.maxMoves)
    ensures forall key :: key in c.extra ==> d[key] == c.extra[key]
  {
    map["board_size" := VInt(c.boardSize), "win_length" := VInt(c.winLength),
        "num_players" := VInt(c.numPlayers), "max_moves" := VInt(c.maxMoves)] + c.extra
  }

  /** The dictionary determines the configuration it came from. */
  lemma ToDictInjective(c1: GameConfig, c2: GameConfig)
    requires ToDict(c1) == ToDict(c2)
    ensures c1 == c2
  {
    assert c1.extra.Keys == c2.extra.Keys by {
      assert ToDict(c1).Keys - NAMED_KEYS == c1.extra.Keys;
      assert ToDict(c2).Keys - NAMED_KEYS == c2.extra.Keys;
    }
    assert forall key :: key in c1.extra ==> c1.extra[key] == ToDict(c1)[key];
  }

  /**
   * What an agent hands to `make_move`: a `(row, col)` pair, a bare column number, or
   * anything else (a string, a list, `None`).
   */
  datatype MoveArg = CellMove(row: int, col: int) | ColumnMove(col: int) | OtherMove

  /** A call to an agent either returns a move or raises. */
  datatype AgentReply = Reply(move: MoveArg) | Raised

  /** The `(is_over, winner)` pair of `is_game_over`; a finished game without winner is a draw. */
  datatype GameStatus = GameStatus(isOver: bool, winner: Option<string>)

  /** `PlayerAgent.__str__`: `name(model)` when the model is set and non-empty, else the name. */
  function AgentLabel(name: string, model: Option<string>): (s: string)
    ensures model.None? || model.value == [] ==> s == name
    ensures model.Some? && model.value != [] ==>
      |s| == |name| + |model.value| + 2 && s[..|name|] == name && s[|name|] == '('
      && s[|name| + 1..|s| - 1] == model.value && s[|s| - 1] == ')'
  {
    if model.Some? && model.value != [] then name + "(" + model.value + ")" else name
  }
}
