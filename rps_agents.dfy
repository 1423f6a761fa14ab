/**
 * The Rock-Paper-Scissors players: how an agent is built and named, how a language model's
 * free-text reply is turned into a move, and the counter-strategy agent. The reply of the
 * model and every `random.choice` are parameters.
 */
module RpsAgents {
  import opened Wrappers
  import opened Py
  import opened RpsRules

  /** The three agent classes: `PlayerAgent` (language model), `RandomAgent`, `CounterAgent`. */
  datatype Kind = LlmAgent | RandomAgent | CounterAgent

  datatype PlayerAgent = PlayerAgent(model: string, name: string, kind: Kind)

  /** `PlayerAgent.__init__`: an agent built without a name is named after its model. */
  function NewAgent(model: string, name: Option<string>, kind: Kind): (a: PlayerAgent)
    ensures a.model == model && a.kind == kind
    ensures a.name == (if name.None? then model else name.value)
  {
    PlayerAgent(model, if name.Some? then name.value else model, kind)
  }

  /** Python's `name or default`: a missing or empty name gives the default. */
  function OrDefault(name: Option<string>, default: string): (r: Option<string>)
    ensures r.Some?
    ensures r.value == default <==> name.None? || name.value == "" || name.value == default
  {
    if name.Some? && name.value != "" then name else Some(default)
  }

  /** `create_agent`: "random" and "counter" agents default their name; any other type is a language-model agent. */
  function CreateAgent(model: string, agentType: string, name: Option<string>): (a: PlayerAgent)
    ensures a.model == model
    ensures agentType == "random" ==> a.kind == RandomAgent && a.name == OrDefault(name, "Random").value
    ensures agentType == "counter" ==> a.kind == CounterAgent && a.name == OrDefault(name, "Counter").value
    ensures agentType != "random" && agentType != "counter" ==> a.kind == LlmAgent
    ensures agentType != "random" && agentType != "counter" && name.None? ==> a.name == model
    ensures name.Some? && name.value != "" ==> a.name == name.value
  {
    if agentType == "random" then NewAgent(model, OrDefault(name, "Random"), RandomAgent)
    else if agentType == "counter" then NewAgent(model, OrDefault(name, "Counter"), CounterAgent)
    else NewAgent(model, name, LlmAgent)
  }

  // ----- _parse_move_from_response -----

  /** The substrings looked for, in the order the table lists them. */
  const MovePatterns: seq<(string, Move)> :=
    [("rock", Rock), ("paper", Paper), ("scissors", Scissors), ("scissor", Scissors), ("stone", Rock)]

  /** The move of the first pattern at index `k` or later that `t` contains. */
  function FirstPattern(t: string, k: nat): (r: Option<Move>)
    requires k <= |MovePatterns|
    ensures r.Some? <==> exists j :: k <= j < |MovePatterns| && Contains(t, MovePatterns[j].0)
    ensures r.Some? ==> exists j :: k <= j < |MovePatterns| && Contains(t, MovePatterns[j].0) && r.value == MovePatterns[j].1
                                    && forall i :: k <= i < j ==> !Contains(t, MovePatterns[i].0)
    decreases |MovePatterns| - k
  {
    if k == |MovePatterns| then None
    else if Contains(t, MovePatterns[k].0) then Some(MovePatterns[k].1)
    else FirstPattern(t, k + 1)
  }

  /** The single-letter rule: exactly one of `r`, `p`, `s` in the text. */
  function LetterMove(t: string): (r: Option<Move>)
    ensures r == Some(Rock) <==> 'r' in t && 'p' !in t && 's' !in t
    ensures r == Some(Paper) <==> 'p' in t && 'r' !in t && 's' !in t
    ensures r == Some(Scissors) <==> 's' in t && 'r' !in t && 'p' !in t
  {
    if 'r' in t && 'p' !in t && 's' !in t then Some(Rock)
    else if 'p' in t && 'r' !in t && 's' !in t then Some(Paper)
    else if 's' in t && 'r' !in t && 'p' !in t then Some(Scissors)
    else None
  }

  /**
   * `_parse_move_from_response`: `parse_move` decides whenever it succeeds, then the first
   * pattern the cleaned reply contains, then the single-letter rule; `fallback` is the
   * random move returned when every rule fails.
   */
  function ParseMoveFromResponse(response: string, fallback: Move): (m: Move)
    ensures ParseMove(response).Ok? ==> m == ParseMove(response).value
    ensures ParseMove(response).Err? && (exists j :: 0 <= j < |MovePatterns| && Contains(Clean(response), MovePatterns[j].0)) ==>
      exists j :: 0 <= j < |MovePatterns| && Contains(Clean(response), MovePatterns[j].0) && m == MovePatterns[j].1
                  && forall i :: 0 <= i < j ==> !Contains(Clean(response), MovePatterns[i].0)
    ensures ParseMove(response).Err? && FirstPattern(Clean(response), 0).None? && LetterMove(Clean(response)).Some? ==>
      m == LetterMove(Clean(response)).value
    ensures m != fallback ==> ParseMove(response).Ok? || FirstPattern(Clean(response), 0).Some? || LetterMove(Clean(response)).Some?
  {
    var t := Clean(response);
    ParseMoveClean(response);
    if ParseMove(t).Ok? then ParseMove(t).value
    else match FirstPattern(t, 0)
      case Some(mv) => mv
      case None => if LetterMove(t).Some? then LetterMove(t).value else fallback
  }

  /** A reply that is exactly a move's name, in any case and padding, is read as that move. */
  lemma ParseMoveNameResponse(response: string, m: Move, fallback: Move)
    requires Clean(response) == Value(m)
    ensures ParseMoveFromResponse(response, fallback) == m
  {
    ParseMoveValue(m);
    ParseMoveClean(response);
  }

  // ----- CounterAgent.make_move -----

  /** How often `m` occurs in the history (`list.count`). */
  function Count(h: seq<Move>, m: Move): nat
  {
    multiset(h)[m]
  }

  /** `max(move_counts, key=move_counts.get)`: the most frequent move, ties going to the earliest of rock, paper, scissors. */
  function MostFrequent(h: seq<Move>): (mf: Move)
    ensures Count(h, Rock) <= Count(h, mf) && Count(h, Paper) <= Count(h, mf) && Count(h, Scissors) <= Count(h, mf)
    ensures mf == Paper ==> Count(h, Rock) < Count(h, Paper)
    ensures mf == Scissors ==> Count(h, Rock) < Count(h, Scissors) && Count(h, Paper) < Count(h, Scissors)
  {
    var best := Rock;
    var best := if Count(h, Paper) > Count(h, best) then Paper else best;
    if Count(h, Scissors) > Count(h, best) then Scissors else best
  }

  /** The `counters` table. */
  function Counter(m: Move): (r: Move)
    ensures Beats(r, m)
  {
    match m
    case Rock => Paper
    case Paper => Scissors
    case Scissors => Rock
  }

  /** `CounterAgent.make_move`: a random move on an empty history, otherwise the move that beats the opponent's most frequent move. */
  function CounterMove(opponentHistory: seq<Move>, fallback: Move): (r: Move)
    ensures opponentHistory == [] ==> r == fallback
    ensures opponentHistory != [] ==> DetermineWinner(r, MostFrequent(opponentHistory)).0 == Win
    ensures opponentHistory != [] ==> Beats(r, MostFrequent(opponentHistory))
  {
    if opponentHistory == [] then fallback else Counter(MostFrequent(opponentHistory))
  }

  /** Only one move beats a given move, so the counter agent's reply is the unique winning one. */
  lemma CounterIsOnlyWinner(m: Move, r: Move)
    ensures Beats(r, m) <==> r == Counter(m)
  {
  }

  /** The counter agent wins the next round whenever the opponent repeats its most frequent move. */
  lemma CounterBeatsRepeat(opponentHistory: seq<Move>, fallback: Move)
    requires opponentHistory != []
    ensures DetermineWinner(CounterMove(opponentHistory, fallback), MostFrequent(opponentHistory)) == (Win, Loss)
  {
  }

  // ----- make_move dispatch -----

  /**
   * The move an agent makes. A language-model agent parses the model's reply; a reply that
   * is an error (the query raised) is passed on. `randomMove` is the agent's own
   * `random.choice`.
   */
  function MakeMove(agent: PlayerAgent, opponentHistory: seq<Move>, reply: Result<string>, randomMove: Move): (r: Result<Move>)
    ensures r.Err? <==> agent.kind == LlmAgent && reply.Err?
    ensures agent.kind == RandomAgent ==> r == Ok(randomMove)
    ensures agent.kind == CounterAgent ==> r == Ok(CounterMove(opponentHistory, randomMove))
    ensures agent.kind == LlmAgent && reply.Ok? ==> r == Ok(ParseMoveFromResponse(reply.value, randomMove))
  {
    match agent.kind
    case RandomAgent => Ok(randomMove)
    case CounterAgent => Ok(CounterMove(opponentHistory, randomMove))
    case LlmAgent =>
      match reply
      case Ok(text) => Ok(ParseMoveFromResponse(text, randomMove))
      case Err(e) => Err(e)
  }
}
