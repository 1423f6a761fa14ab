/**
 * The tournament engine of the Tic-Tac-Toe subsystem: best-of-X matches between named
 * players on a fresh N×N board per game, standings worth 3/2/1 points, and the single
 * elimination, round robin and Swiss schedules.
 *
 * Players are identified by name, as the engine itself looks them up by name. The agents'
 * moves come from a `Mover` oracle, the random module's choices from `nat -> nat` oracles.
 * A best-of-X match whose games keep ending drawn never finishes; every run therefore
 * takes a `fuel` bound on the number of games of one match and reports `Unfinished` when
 * a match reaches it.
 */
module TournamentSystem {
  import opened Wrappers
  import Py
  import opened PowersOfTwo
  import opened GameInterface
  import Grid
  import GenericTicTacToeGame
  import Shuffle
  import Combinations
  import opened Ranking

  datatype Format = SingleElimination | RoundRobin | Swiss | DoubleElimination

  function FormatValue(f: Format): (s: string)
    ensures |s| > 0
  {
    match f
    case SingleElimination => "single_elimination"
    case RoundRobin => "round_robin"
    case Swiss => "swiss"
    case DoubleElimination => "double_elimination"
  }

  datatype TournamentConfigRecord = TournamentConfigRecord(
    format: Format, bestOf: int, gameConfig: GameConfig, shufflePlayers: bool, seed: int,
    maxRounds: int)

  /** A configuration after `__post_init__`: an odd, positive number of games per match. */
  type TournamentConfig = c: TournamentConfigRecord | c.bestOf >= 1 && c.bestOf % 2 == 1
    witness TournamentConfigRecord(SingleElimination, 1, GameConfigRecord(3, 3, 2, 50, map[]),
                                   true, 42, 10)

  /** `__post_init__`: raise `best_of` to 1, then an even value to the next odd one. */
  function NormalizeBestOf(bestOf: int): (b: int)
    ensures b >= 1 && b % 2 == 1 && b >= bestOf
    ensures forall m :: m >= 1 && m >= bestOf && m % 2 == 1 ==> b <= m
  {
    var atLeastOne := if bestOf < 1 then 1 else bestOf;
    if atLeastOne % 2 == 0 then atLeastOne + 1 else atLeastOne
  }

  function NewTournamentConfig(format: Format, bestOf: int, gameConfig: GameConfig,
                               shufflePlayers: bool, seed: int, maxRounds: int): (c: TournamentConfig)
    ensures c.bestOf == NormalizeBestOf(bestOf)
    ensures c.format == format && c.gameConfig == gameConfig && c.shufflePlayers == shufflePlayers
    ensures c.seed == seed && c.maxRounds == maxRounds
  {
    TournamentConfigRecord(format, NormalizeBestOf(bestOf), gameConfig, shufflePlayers, seed, maxRounds)
  }

  /** `(best_of + 1) // 2`: games a player must win to take the match. */
  function WinsNeeded(bestOf: int): (n: int)
    requires bestOf >= 1 && bestOf % 2 == 1
    ensures n >= 1 && 2 * n - 1 == bestOf
  {
    (bestOf + 1) / 2
  }

  // ----- standings -----

  datatype Standing = Standing(
    wins: int, losses: int, gamesWon: int, gamesLost: int, matchesPlayed: int, points: int,
    opponents: seq<string>)

  const FRESH: Standing := Standing(0, 0, 0, 0, 0, 0, [])

  /** One side's share of a match in which it won `own` games and the other side `other`. */
  function Credit(s: Standing, own: int, other: int, opponent: string): (t: Standing)
  {
    var won := own > other;
    var lost := other > own;
    Standing(
      s.wins + (if won then 1 else 0),
      s.losses + (if lost then 1 else 0),
      s.gamesWon + own,
      s.gamesLost + other,
      s.matchesPlayed + 1,
      s.points + (if won then 3 else if lost then 1 else 2),
      s.opponents + [opponent])
  }

  /**
   * The standings after a match `p1`–`p2` ending `w1`–`w2`: the winner gains a win and 3
   * points, the loser a loss and 1 point, a tie 2 points each; both count the match, their
   * games and each other as an opponent.
   */
  function AfterMatch(st: map<string, Standing>, p1: string, p2: string, w1: int, w2: int)
    : (r: map<string, Standing>)
    requires p1 in st && p2 in st
    ensures r.Keys == st.Keys
    ensures forall k :: k in st && k != p1 && k != p2 ==> r[k] == st[k]
    ensures p1 != p2 ==> r[p1] == Credit(st[p1], w1, w2, p2) && r[p2] == Credit(st[p2], w2, w1, p1)
    ensures p1 == p2 ==> r[p1] == Credit(Credit(st[p1], w1, w2, p2), w2, w1, p1)
  {
    var st1 := st[p1 := Credit(st[p1], w1, w2, p2)];
    st1[p2 := Credit(st1[p2], w2, w1, p1)]
  }

  function Points(s: Standing): int { s.points }
  function GamesWon(s: Standing): int { s.gamesWon }
  function GamesLost(s: Standing): int { s.gamesLost }
  function MatchesPlayed(s: Standing): int { s.matchesPlayed }

  /** The sum of one standings field over the players in `keys`. */
  function Total(keys: seq<string>, st: map<string, Standing>, f: Standing -> int): int
    requires forall k :: k in keys ==> k in st
  {
    if keys == [] then 0 else Total(keys[..|keys| - 1], st, f) + f(st[keys[|keys| - 1]])
  }

  lemma {:induction false} TotalUpdate(keys: seq<string>, st: map<string, Standing>, f: Standing -> int,
                                       k: string, v: Standing)
    requires Py.Distinct(keys) && k in keys && forall key :: key in keys ==> key in st
    ensures Total(keys, st[k := v], f) == Total(keys, st, f) - f(st[k]) + f(v)
  {
    var n := |keys| - 1;
    var pre := keys[..n];
    assert Py.Distinct(pre);
    if keys[n] == k {
      assert k !in pre by {
        forall i | 0 <= i < n ensures pre[i] != k {
          assert pre[i] == keys[i];
        }
      }
      TotalOther(pre, st, f, k, v);
    } else {
      assert k in pre by {
        var i :| 0 <= i < |keys| && keys[i] == k;
        assert i < n && pre[i] == k;
      }
      TotalUpdate(pre, st, f, k, v);
    }
  }

  lemma {:induction false} TotalOther(keys: seq<string>, st: map<string, Standing>, f: Standing -> int,
                                      k: string, v: Standing)
    requires k !in keys && forall key :: key in keys ==> key in st
    ensures Total(keys, st[k := v], f) == Total(keys, st, f)
  {
    if keys != [] {
      TotalOther(keys[..|keys| - 1], st, f, k, v);
    }
  }

  /** Every match hands out exactly four points between its two players. */
  lemma MatchAddsFourPoints(keys: seq<string>, st: map<string, Standing>, p1: string, p2: string,
                            w1: int, w2: int)
    requires Py.Distinct(keys) && p1 in keys && p2 in keys && forall k :: k in keys ==> k in st
    ensures Total(keys, AfterMatch(st, p1, p2, w1, w2), Points)
         == Total(keys, st, Points) + 4
  {
    var pts := Points;
    var st1 := st[p1 := Credit(st[p1], w1, w2, p2)];
    TotalUpdate(keys, st, pts, p1, Credit(st[p1], w1, w2, p2));
    TotalUpdate(keys, st1, pts, p2, Credit(st1[p2], w2, w1, p1));
  }

  /** Games won and games lost grow by the same amount, so their totals stay equal. */
  lemma MatchKeepsGameBalance(keys: seq<string>, st: map<string, Standing>, p1: string, p2: string,
                              w1: int, w2: int)
    requires Py.Distinct(keys) && p1 in keys && p2 in keys && forall k :: k in keys ==> k in st
    ensures Total(keys, AfterMatch(st, p1, p2, w1, w2), GamesWon)
         - Total(keys, AfterMatch(st, p1, p2, w1, w2), GamesLost)
         == Total(keys, st, GamesWon) - Total(keys, st, GamesLost)
    ensures Total(keys, AfterMatch(st, p1, p2, w1, w2), MatchesPlayed)
         == Total(keys, st, MatchesPlayed) + 2
  {
    var gw := GamesWon;
    var gl := GamesLost;
    var mp := MatchesPlayed;
    var c1 := Credit(st[p1], w1, w2, p2);
    var st1 := st[p1 := c1];
    var c2 := Credit(st1[p2], w2, w1, p1);
    TotalUpdate(keys, st, gw, p1, c1);
    TotalUpdate(keys, st1, gw, p2, c2);
    TotalUpdate(keys, st, gl, p1, c1);
    TotalUpdate(keys, st1, gl, p2, c2);
    TotalUpdate(keys, st, mp, p1, c1);
    TotalUpdate(keys, st1, mp, p2, c2);
  }

  /** The order in which `players` add keys to a dictionary that already holds `order`. */
  function InsertKeys(order: seq<string>, players: seq<string>): (r: seq<string>)
    ensures order <= r
  {
    if players == [] then order
    else
      var o := InsertKeys(order, players[..|players| - 1]);
      if players[|players| - 1] in o then o else o + [players[|players| - 1]]
  }

  /** The standings after `add_players` gives every name of `players` a fresh entry. */
  function WithFresh(st: map<string, Standing>, players: seq<string>): (r: map<string, Standing>)
    ensures st.Keys <= r.Keys
  {
    if players == [] then st
    else WithFresh(st, players[..|players| - 1])[players[|players| - 1] := FRESH]
  }

  lemma WithFreshSnoc(st: map<string, Standing>, players: seq<string>, name: string)
    ensures WithFresh(st, players + [name]) == WithFresh(st, players)[name := FRESH]
  {
    assert (players + [name])[..|players|] == players;
  }

  lemma InsertKeysSnoc(order: seq<string>, players: seq<string>, name: string)
    ensures var o := InsertKeys(order, players);
      InsertKeys(order, players + [name]) == if name in o then o else o + [name]
  {
    assert (players + [name])[..|players|] == players;
  }

  /**
   * Adding players keeps the key order a list of the dictionary's keys without repeats; every
   * added name gets a fresh standing and every other entry is left as it was.
   */
  lemma {:induction false} AddedKeys(order: seq<string>, st: map<string, Standing>, players: seq<string>)
    requires Py.Distinct(order) && forall k :: k in order <==> k in st
    ensures Py.Distinct(InsertKeys(order, players))
    ensures forall k :: k in InsertKeys(order, players) <==> k in WithFresh(st, players)
    ensures forall k :: k in WithFresh(st, players) <==> k in st || k in players
    ensures forall k :: k in WithFresh(st, players) ==>
      WithFresh(st, players)[k] == (if k in players then FRESH else st[k])
  {
    if players != [] {
      var pre := players[..|players| - 1];
      var last := players[|players| - 1];
      assert players == pre + [last];
      AddedKeys(order, st, pre);
      InsertKeysSnoc(order, pre, last);
      WithFreshSnoc(st, pre, last);
      var o := InsertKeys(order, pre);
      if last !in o {
        Py.DistinctSnoc(o, last);
      }
      forall k ensures k in players <==> k in pre || k == last {
        assert k in players <==> k in pre + [last];
      }
    }
  }

  // ----- matches and games -----

  /** The agent's answer for player `name` at move number `n` of game `gameId`. */
  type Mover = (string, string, nat) -> AgentReply

  /** The result dictionary of one game: its id, the winner's name if any, the moves made. */
  datatype GameRecord = GameRecord(gameId: string, winner: Option<string>, moves: int)

  datatype MatchResult = MatchResult(
    matchId: string, player1: string, player2: string, games: seq<GameRecord>,
    winner: string, score: (int, int), format: string)

  /** The score `s` after one more game won by `w`: it counts for `p1` when won by `p1`, else for `p2` when won by `p2`. */
  function Counted(w: Option<string>, p1: string, p2: string, s: (int, int)): (r: (int, int))
    ensures r.0 + r.1 <= s.0 + s.1 + 1 && s.0 <= r.0 && s.1 <= r.1
    ensures w == Some(p1) <==> r == (s.0 + 1, s.1)
    ensures w != Some(p1) && w == Some(p2) <==> r == (s.0, s.1 + 1)
    ensures w != Some(p1) && w != Some(p2) <==> r == s
  {
    if w == Some(p1) then (s.0 + 1, s.1) else if w == Some(p2) then (s.0, s.1 + 1) else s
  }

  /** The running score of a match between `p1` and `p2` after `games`. */
  function Tally(games: seq<GameRecord>, p1: string, p2: string): (s: (int, int))
    ensures 0 <= s.0 && 0 <= s.1 && s.0 + s.1 <= |games|
  {
    if games == [] then (0, 0)
    else Counted(games[|games| - 1].winner, p1, p2, Tally(games[..|games| - 1], p1, p2))
  }

  lemma TallyAppend(games: seq<GameRecord>, rec: GameRecord, p1: string, p2: string)
    ensures Tally(games + [rec], p1, p2) == Counted(rec.winner, p1, p2, Tally(games, p1, p2))
  {
    var g := games + [rec];
    assert g[..|g| - 1] == games;
  }

  predicate BothBelow(s: (int, int), needed: int)
  {
    s.0 < needed && s.1 < needed
  }

  /** Exactly one side has reached `needed` wins. */
  predicate Decided(s: (int, int), needed: int)
  {
    (s.0 == needed && s.1 < needed) || (s.1 == needed && s.0 < needed)
  }

  function GameId(matchId: string, n: nat): string
  {
    matchId + "G" + Py.NatToString(n)
  }

  // ----- one game -----

  /**
   * The mark of move `i` of `_play_single_game`: X first, then the sides switch. The switch
   * compares the agent to move with the first player, so a player facing itself is one agent
   * and holds O from the second move on.
   */
  function MarkAt(i: nat, first: string, second: string): string
  {
    if i == 0 || (first != second && i % 2 == 0) then "X" else "O"
  }

  /** The switch after move `i`: from X always to O; from O back to X unless the sides are one agent. */
  lemma MarkNext(i: nat, first: string, second: string)
    ensures MarkAt(i + 1, first, second) ==
      (if MarkAt(i, first, second) == "X" || first == second then "O" else "X")
  {
  }

  /** The player who makes move `i`. */
  function NameAt(i: nat, first: string, second: string): string
  {
    if MarkAt(i, first, second) == "X" then first else second
  }

  /** `winner_name`: the player holding the reported symbol; None for a draw or any other symbol. */
  function WinnerName(w: Option<string>, first: string, second: string): Option<string>
  {
    if w == Some("X") then Some(first) else if w == Some("O") then Some(second) else None
  }

  predicate Free(b: Grid.Board, c: (int, int))
  {
    Grid.InBounds(b, c.0, c.1) && b[c.0][c.1] == Grid.EMPTY
  }

  /** `valid_moves[0]`: a free cell with no free cell before it in row-major order. */
  ghost predicate FirstFree(b: Grid.Board, c: (int, int))
  {
    Free(b, c) && forall d :: Free(b, d) ==> !GenericTicTacToeGame.Precedes(d, c)
  }

  /** The cell a reply is played on: its own cell when that is free, else the first free cell. */
  ghost predicate Resolves(b: Grid.Board, move: MoveArg, c: (int, int))
  {
    if move.CellMove? && Free(b, (move.row, move.col)) then c == (move.row, move.col)
    else FirstFree(b, c)
  }

  /** The board after the moves `cells` on an empty `n × n` board, marked as `MarkAt` says. */
  function Replayed(n: int, first: string, second: string, cells: seq<(int, int)>): (b: Grid.Board)
    ensures Grid.Shaped(b, n, n)
  {
    if cells == [] then Grid.EmptyBoard(n, n)
    else
      var j := |cells| - 1;
      var b := Replayed(n, first, second, cells[..j]);
      if Grid.InBounds(b, cells[j].0, cells[j].1) then
        Grid.PlaceKeepsShape(b, n, n, cells[j].0, cells[j].1, MarkAt(j, first, second));
        Grid.Place(b, cells[j].0, cells[j].1, MarkAt(j, first, second))
      else b
  }

  /** Every move of `cells` is the reply of the player to move, resolved on the board of that moment. */
  ghost predicate GamePlayed(n: int, first: string, second: string, gameId: string, mover: Mover,
                             cells: seq<(int, int)>)
  {
    cells == []
    || (var j := |cells| - 1;
        var reply := mover(NameAt(j, first, second), gameId, j);
        GamePlayed(n, first, second, gameId, mover, cells[..j])
        && reply.Reply? && Resolves(Replayed(n, first, second, cells[..j]), reply.move, cells[j]))
  }

  /** What `is_game_over` reports once the moves `cells` are on the board. */
  ghost function StatusAfter(cfg: GameConfig, first: string, second: string, cells: seq<(int, int)>): GameStatus
  {
    GenericTicTacToeGame.StatusOf(Replayed(cfg.boardSize, first, second, cells), cfg.boardSize,
      cfg.winLength, Py.Prefix(GenericTicTacToeGame.SYMBOLS, cfg.numPlayers), |cells|)
  }

  /** No position before the last one ended the game. */
  ghost predicate RanOn(cfg: GameConfig, first: string, second: string, cells: seq<(int, int)>)
  {
    forall j :: 1 <= j < |cells| ==> !StatusAfter(cfg, first, second, cells[..j]).isOver
  }

  /** Why a game ends although it is not over: the move limit, a raised reply, or no free cell. */
  ghost predicate Stopped(cfg: GameConfig, first: string, second: string, gameId: string, mover: Mover,
                          cells: seq<(int, int)>)
  {
    var j := |cells|;
    j >= cfg.maxMoves || mover(NameAt(j, first, second), gameId, j).Raised?
    || forall d :: !Free(Replayed(cfg.boardSize, first, second, cells), d)
  }

  /**
   * The record `_play_single_game` returns after the moves `cells`: the game ran until its
   * first finished position, whose winner's symbol names the winner, or it stopped unfinished
   * without a winner.
   */
  ghost predicate GameOutcome(cfg: GameConfig, first: string, second: string, gameId: string,
                              mover: Mover, cells: seq<(int, int)>, rec: GameRecord)
  {
    GamePlayed(cfg.boardSize, first, second, gameId, mover, cells) && RanOn(cfg, first, second, cells)
    && rec.gameId == gameId && rec.moves == |cells| && |cells| <= Grid.Dim(cfg.maxMoves)
    && (var st := StatusAfter(cfg, first, second, cells);
        if |cells| >= 1 && st.isOver then rec.winner == WinnerName(st.winner, first, second)
        else rec.winner.None? && Stopped(cfg, first, second, gameId, mover, cells))
  }

  lemma GamePlayedSnoc(cfg: GameConfig, first: string, second: string, gameId: string, mover: Mover,
                       cells: seq<(int, int)>, c: (int, int))
    requires GamePlayed(cfg.boardSize, first, second, gameId, mover, cells) && RanOn(cfg, first, second, cells)
    requires |cells| >= 1 ==> !StatusAfter(cfg, first, second, cells).isOver
    requires mover(NameAt(|cells|, first, second), gameId, |cells|).Reply?
    requires Resolves(Replayed(cfg.boardSize, first, second, cells),
                      mover(NameAt(|cells|, first, second), gameId, |cells|).move, c)
    ensures Free(Replayed(cfg.boardSize, first, second, cells), c)
    ensures Replayed(cfg.boardSize, first, second, cells + [c])
      == Grid.Place(Replayed(cfg.boardSize, first, second, cells), c.0, c.1, MarkAt(|cells|, first, second))
    ensures GamePlayed(cfg.boardSize, first, second, gameId, mover, cells + [c])
    ensures RanOn(cfg, first, second, cells + [c])
  {
    var next := cells + [c];
    assert next[..|cells|] == cells;
    forall j | 1 <= j < |next| ensures !StatusAfter(cfg, first, second, next[..j]).isOver {
      assert next[..j] == cells[..j];
    }
  }

  /**
   * A game won by one of the two players was won by the player who made the last move: the
   * mark just written cannot give another symbol a line, and no earlier position had one.
   */
  lemma {:induction false} LastMoverWins(cfg: GameConfig, first: string, second: string, gameId: string,
                                         mover: Mover, cells: seq<(int, int)>)
    requires GamePlayed(cfg.boardSize, first, second, gameId, mover, cells) && RanOn(cfg, first, second, cells)
    requires |cells| >= 1
    ensures var w := WinnerName(StatusAfter(cfg, first, second, cells).winner, first, second);
      w.Some? ==> w == Some(NameAt(|cells| - 1, first, second))
  {
    var n, k := cfg.boardSize, cfg.winLength;
    var j := |cells| - 1;
    var c := cells[j];
    var m := MarkAt(j, first, second);
    var b := Replayed(n, first, second, cells[..j]);
    var b' := Replayed(n, first, second, cells);
    var syms := Py.Prefix(GenericTicTacToeGame.SYMBOLS, cfg.numPlayers);
    var w := GenericTicTacToeGame.FirstWinner(b', n, k, syms);
    assert Free(b, c);
    assert b' == Grid.Place(b, c.0, c.1, m);
    if w == Some("X") || w == Some("O") {
      var s := w.value;
      if s != m {
        GenericTicTacToeGame.FirstWinnerMeaning(b', n, k, syms);
        assert n >= 1;
        assert Grid.HasWindow(b', n, n, s, k);
        Grid.PlaceOtherKeepsWindows(b, n, n, c.0, c.1, m, s, k);
        if j >= 1 {
          assert !StatusAfter(cfg, first, second, cells[..j]).isOver;
          GenericTicTacToeGame.FirstWinnerMeaning(b, n, k, syms);
          assert false;
        } else if k >= 1 {
          assert b == Grid.EmptyBoard(n, n);
          Grid.EmptyBoardNoWindow(n, n, s, k);
          assert false;
        } else {
          Grid.EmptyWindowWins(b', n, n, "X", k);
          assert false;
        }
      }
    }
  }

  /**
   * One move of the loop: the reply's own cell when `make_move` accepts it, otherwise the
   * first cell `get_valid_moves` lists; None when no cell is free.
   */
  method PlayMove(game: GenericTicTacToeGame.GenericTicTacToe, move: MoveArg, current: string)
    returns (cell: Option<(int, int)>)
    requires game.Valid()
    modifies game
    ensures game.Valid()
    ensures cell.Some? ==> Resolves(old(game.board), move, cell.value) && Free(old(game.board), cell.value)
    ensures cell.Some? ==> game.board == Grid.Place(old(game.board), cell.value.0, cell.value.1, current)
    ensures cell.Some? ==> game.moveCount == old(game.moveCount) + 1
    ensures cell.None? ==> forall d :: !Free(old(game.board), d)
  {
    ghost var b := game.board;
    var ok := game.MakeMove(move, current);
    if ok {
      return Some((move.row, move.col));
    }
    var valid := game.GetValidMoves(current);
    if |valid| == 0 {
      return None;
    }
    forall d | Free(b, d) ensures !GenericTicTacToeGame.Precedes(d, valid[0]) {
      assert game.IsValidMove(CellMove(d.0, d.1), current);
      var i :| 0 <= i < |valid| && valid[i] == d;
      if i > 0 {
        assert GenericTicTacToeGame.Precedes(valid[0], valid[i]);
      }
    }
    ok := game.MakeMove(CellMove(valid[0].0, valid[0].1), current);
    return Some(valid[0]);
  }

  /** A game record with a winner names the player who made the last move. */
  lemma OutcomeWinner(cfg: GameConfig, first: string, second: string, gameId: string, mover: Mover,
                      cells: seq<(int, int)>, rec: GameRecord)
    requires GameOutcome(cfg, first, second, gameId, mover, cells, rec)
    ensures rec.winner.None? || rec.winner == Some(first) || rec.winner == Some(second)
    ensures rec.winner.Some? ==> rec.moves >= 1 && rec.winner == Some(NameAt(rec.moves - 1, first, second))
  {
    if |cells| >= 1 {
      LastMoverWins(cfg, first, second, gameId, mover, cells);
    }
  }

  /**
   * One turn of `_play_single_game`: the player to move is asked, its reply is played and
   * `is_game_over` reports on the new position; false when the reply raised or no cell was free.
   */
  method GameTurn(game: GenericTicTacToeGame.GenericTicTacToe, cfg: GameConfig, first: string, second: string,
                  gameId: string, mover: Mover, name: string, current: string, ghost cells: seq<(int, int)>)
    returns (moved: bool, ghost c: (int, int), status: GameStatus)
    requires game.Valid() && game.config == cfg && game.moveCount == |cells|
    requires name == NameAt(|cells|, first, second) && current == MarkAt(|cells|, first, second)
    requires game.board == Replayed(cfg.boardSize, first, second, cells)
    requires GamePlayed(cfg.boardSize, first, second, gameId, mover, cells) && RanOn(cfg, first, second, cells)
    requires |cells| >= 1 ==> !StatusAfter(cfg, first, second, cells).isOver
    modifies game
    ensures game.Valid()
    ensures moved ==> game.moveCount == |cells| + 1 && game.board == Replayed(cfg.boardSize, first, second, cells + [c])
    ensures moved ==> GamePlayed(cfg.boardSize, first, second, gameId, mover, cells + [c])
    ensures moved ==> RanOn(cfg, first, second, cells + [c])
    ensures moved ==> status == StatusAfter(cfg, first, second, cells + [c])
    ensures !moved ==> Stopped(cfg, first, second, gameId, mover, cells)
  {
    var reply := mover(name, gameId, game.moveCount);
    if reply.Raised? {
      return false, (0, 0), GameStatus(false, None);
    }
    var played := PlayMove(game, reply.move, current);
    if played.None? {
      return false, (0, 0), GameStatus(false, None);
    }
    c := played.value;
    GamePlayedSnoc(cfg, first, second, gameId, mover, cells, c);
    moved := true;
    status := game.IsGameOver();
  }

  /**
   * `_play_single_game` on a fresh N×N board built from `cfg`: the first player plays X, the
   * second O; each reply is played, an invalid one replaced by the first valid cell; the game
   * ends at its first finished position, after `max_moves` moves, when an agent raises or
   * when no cell is free. A game with a winner was won by the player who moved last.
   */
  method PlaySingleGame(cfg: GameConfig, first: string, second: string, gameId: string, mover: Mover)
    returns (rec: GameRecord, ghost cells: seq<(int, int)>)
    ensures GameOutcome(cfg, first, second, gameId, mover, cells, rec)
    ensures rec.gameId == gameId && rec.moves >= 0
    ensures rec.winner.None? || rec.winner == Some(first) || rec.winner == Some(second)
    ensures rec.winner.Some? ==> rec.moves >= 1 && rec.winner == Some(NameAt(rec.moves - 1, first, second))
  {
    var game := new GenericTicTacToeGame.GenericTicTacToe(cfg);
    var onFirst := true;
    var current := "X";
    var moveCount := 0;
    var maxMoves := cfg.maxMoves;
    cells := [];
    while moveCount < maxMoves
      invariant game.Valid() && game.config == cfg
      invariant moveCount == |cells| == game.moveCount && moveCount <= Grid.Dim(maxMoves)
      invariant current == MarkAt(moveCount, first, second) && onFirst == (current == "X")
      invariant game.board == Replayed(cfg.boardSize, first, second, cells)
      invariant GamePlayed(cfg.boardSize, first, second, gameId, mover, cells)
      invariant RanOn(cfg, first, second, cells)
      invariant |cells| >= 1 ==> !StatusAfter(cfg, first, second, cells).isOver
      decreases maxMoves - moveCount
    {
      var moved, c, status := GameTurn(game, cfg, first, second, gameId, mover,
                                       if onFirst then first else second, current, cells);
      if !moved {
        break;
      }
      cells := cells + [c];
      if status.isOver {
        rec := GameRecord(gameId, WinnerName(status.winner, first, second), moveCount + 1);
        OutcomeWinner(cfg, first, second, gameId, mover, cells, rec);
        return;
      }
      // The agents are looked up by name, so equal names are one and the same agent.
      MarkNext(moveCount, first, second);
      if onFirst || first == second {
        onFirst := false;
        current := "O";
      } else {
        onFirst := true;
        current := "X";
      }
      moveCount := moveCount + 1;
    }
    rec := GameRecord(gameId, None, moveCount);
  }

  /** No game before the last one decided the match. */
  ghost predicate Undecided(games: seq<GameRecord>, p1: string, p2: string, needed: int)
  {
    forall i :: 0 <= i < |games| ==> BothBelow(Tally(games[..i], p1, p2), needed)
  }

  /** Game `i` has id `{match_id}G{i + 1}` and was won by one of the two players or drawn. */
  ghost predicate Numbered(games: seq<GameRecord>, p1: string, p2: string, matchId: string)
  {
    forall i :: 0 <= i < |games| ==>
      games[i].gameId == GameId(matchId, i + 1)
      && (games[i].winner.None? || games[i].winner.value == p1 || games[i].winner.value == p2)
  }

  /** The games of a finished match: each numbered in turn, the last one deciding it. */
  ghost predicate PlayedGames(games: seq<GameRecord>, p1: string, p2: string, matchId: string, needed: int)
  {
    Decided(Tally(games, p1, p2), needed) && Undecided(games, p1, p2, needed) && Numbered(games, p1, p2, matchId)
  }

  lemma UndecidedSnoc(games: seq<GameRecord>, rec: GameRecord, p1: string, p2: string, needed: int)
    requires Undecided(games, p1, p2, needed) && BothBelow(Tally(games, p1, p2), needed)
    ensures Undecided(games + [rec], p1, p2, needed)
  {
    var g := games + [rec];
    forall i | 0 <= i < |g| ensures BothBelow(Tally(g[..i], p1, p2), needed) {
      assert g[..i] == games[..i];
    }
  }

  lemma NumberedSnoc(games: seq<GameRecord>, rec: GameRecord, p1: string, p2: string, matchId: string)
    requires Numbered(games, p1, p2, matchId) && rec.gameId == GameId(matchId, |games| + 1)
    requires rec.winner.None? || rec.winner.value == p1 || rec.winner.value == p2
    ensures Numbered(games + [rec], p1, p2, matchId)
  {
    var g := games + [rec];
    forall i | 0 <= i < |g|
      ensures g[i].gameId == GameId(matchId, i + 1)
              && (g[i].winner.None? || g[i].winner.value == p1 || g[i].winner.value == p2)
    {
      if i < |games| {
        assert g[i] == games[i];
      }
    }
  }

  /** What `_play_match` guarantees about a finished match between `p1` and `p2`. */
  ghost predicate PlayedMatch(m: MatchResult, p1: string, p2: string, matchId: string, bestOf: int)
    requires bestOf >= 1 && bestOf % 2 == 1
  {
    m.matchId == matchId && m.player1 == p1 && m.player2 == p2
    && m.format == "best_of_" + Py.NatToString(bestOf)
    && m.score == Tally(m.games, p1, p2)
    && PlayedGames(m.games, p1, p2, matchId, WinsNeeded(bestOf))
    && m.winner == (if m.score.0 > m.score.1 then p1 else p2)
  }

  /** Game number `gameNum` of a match: `p1` opens the odd-numbered games, `p2` the even ones. */
  method PlayNext(cfg: GameConfig, gameNum: nat, p1: string, p2: string, matchId: string, mover: Mover)
    returns (rec: GameRecord, first: string, ghost cells: seq<(int, int)>)
    ensures first == (if gameNum % 2 == 0 then p2 else p1)
    ensures GameOutcome(cfg, first, if gameNum % 2 == 0 then p1 else p2, GameId(matchId, gameNum), mover, cells, rec)
    ensures rec.gameId == GameId(matchId, gameNum)
    ensures rec.winner.None? || rec.winner.value == p1 || rec.winner.value == p2
  {
    first := p1;
    var second := p2;
    if gameNum % 2 == 0 {
      first, second := p2, p1;
    }
    rec, cells := PlaySingleGame(cfg, first, second, GameId(matchId, gameNum), mover);
  }

  /** Game `i + 1` of a match was played out as `plies[i]`, `p1` opening the odd-numbered games. */
  ghost predicate GamesPlayedOut(cfg: GameConfig, p1: string, p2: string, matchId: string, mover: Mover,
                                 games: seq<GameRecord>, plies: seq<seq<(int, int)>>)
  {
    |plies| == |games|
    && forall i :: 0 <= i < |games| ==>
         GameOutcome(cfg, if i % 2 == 0 then p1 else p2, if i % 2 == 0 then p2 else p1, GameId(matchId, i + 1),
                     mover, plies[i], games[i])
  }

  /** Game `i + 1` is opened by `p1` when `i` is even, by `p2` otherwise. */
  ghost predicate Openers(starts: seq<string>, p1: string, p2: string)
  {
    forall i :: 0 <= i < |starts| ==> starts[i] == (if i % 2 == 0 then p1 else p2)
  }

  lemma OpenersSnoc(starts: seq<string>, p1: string, p2: string, first: string)
    requires Openers(starts, p1, p2) && first == (if (|starts| + 1) % 2 == 0 then p2 else p1)
    ensures Openers(starts + [first], p1, p2)
  {
    var s := starts + [first];
    forall i | 0 <= i < |s| ensures s[i] == (if i % 2 == 0 then p1 else p2) {
      if i == |starts| {
        assert (i + 1) % 2 == 0 <==> i % 2 != 0;
      } else {
        assert s[i] == starts[i];
      }
    }
  }

  lemma GamesPlayedOutSnoc(cfg: GameConfig, p1: string, p2: string, matchId: string, mover: Mover,
                            games: seq<GameRecord>, plies: seq<seq<(int, int)>>, rec: GameRecord, cells: seq<(int, int)>)
    requires GamesPlayedOut(cfg, p1, p2, matchId, mover, games, plies)
    requires var n := |games| + 1;
      GameOutcome(cfg, if n % 2 == 0 then p2 else p1, if n % 2 == 0 then p1 else p2, GameId(matchId, n), mover,
                  cells, rec)
    ensures GamesPlayedOut(cfg, p1, p2, matchId, mover, games + [rec], plies + [cells])
  {
    var g, q := games + [rec], plies + [cells];
    forall i | 0 <= i < |g|
      ensures GameOutcome(cfg, if i % 2 == 0 then p1 else p2, if i % 2 == 0 then p2 else p1, GameId(matchId, i + 1),
                          mover, q[i], g[i])
    {
      if i < |games| {
        assert q[i] == plies[i] && g[i] == games[i];
      } else {
        assert q[i] == cells && g[i] == rec;
        assert (i + 1) % 2 == 0 <==> i % 2 != 0;
      }
    }
  }

  /**
   * The game loop of `_play_match`: games until one side has `needed` wins, `p1` opening
   * the odd-numbered games. `finished` is false when `fuel` games were played without a
   * decision.
   */
  method PlayGames(cfg: GameConfig, needed: int, p1: string, p2: string, matchId: string,
                   mover: Mover, fuel: nat)
    returns (games: seq<GameRecord>, finished: bool, ghost starts: seq<string>, ghost plies: seq<seq<(int, int)>>)
    requires needed >= 1
    ensures finished ==> PlayedGames(games, p1, p2, matchId, needed)
    ensures |starts| == |games| && forall i :: 0 <= i < |starts| ==> starts[i] == (if i % 2 == 0 then p1 else p2)
    ensures GamesPlayedOut(cfg, p1, p2, matchId, mover, games, plies)
  {
    games := [];
    var w1 := 0;
    var w2 := 0;
    starts, plies := [], [];
    while w1 < needed && w2 < needed
      invariant (w1, w2) == Tally(games, p1, p2)
      invariant w1 <= needed && w2 <= needed
      invariant |starts| == |games|
      invariant Openers(starts, p1, p2)
      invariant Undecided(games, p1, p2, needed) && Numbered(games, p1, p2, matchId)
      invariant GamesPlayedOut(cfg, p1, p2, matchId, mover, games, plies)
      decreases fuel - |games|
    {
      if |games| >= fuel {
        return games, false, starts, plies;
      }
      var rec, first, cells := PlayNext(cfg, |games| + 1, p1, p2, matchId, mover);
      TallyAppend(games, rec, p1, p2);
      UndecidedSnoc(games, rec, p1, p2, needed);
      NumberedSnoc(games, rec, p1, p2, matchId);
      GamesPlayedOutSnoc(cfg, p1, p2, matchId, mover, games, plies, rec, cells);
      OpenersSnoc(starts, p1, p2, first);
      games := games + [rec];
      starts := starts + [first];
      plies := plies + [cells];
      var score := Counted(rec.winner, p1, p2, (w1, w2));
      w1, w2 := score.0, score.1;
    }
    finished := true;
  }

  /**
   * In a finished match the winner is the side that reached `(best_of + 1) // 2` wins, and
   * no more than `best_of` games were decided.
   */
  lemma MatchWinnerReachedMajority(m: MatchResult, p1: string, p2: string, matchId: string, bestOf: int)
    requires bestOf >= 1 && bestOf % 2 == 1 && PlayedMatch(m, p1, p2, matchId, bestOf)
    ensures m.winner == p1 || m.winner == p2
    ensures p1 != p2 ==> (m.winner == p1 <==> m.score.0 == WinsNeeded(bestOf))
    ensures m.score.0 + m.score.1 <= bestOf
    ensures |m.games| >= WinsNeeded(bestOf)
  {
  }

  // ----- Swiss pairing -----

  /** The first position from `i` on whose name `met` does not hold, or `|u|`. */
  function FirstUnmet(u: seq<string>, met: seq<string>, i: nat): (j: nat)
    requires 1 <= i <= |u|
    ensures i <= j <= |u|
    ensures j < |u| ==> u[j] !in met
    ensures forall m :: i <= m < j ==> u[m] in met
    decreases |u| - i
  {
    if i == |u| then |u| else if u[i] !in met then i else FirstUnmet(u, met, i + 1)
  }

  /** The partner of `u[0]`: the first player it has not met, or `u[1]` when it has met them all. */
  function Partner(u: seq<string>, met: seq<string>): (k: nat)
    requires |u| >= 2
    ensures 1 <= k < |u|
  {
    var j := FirstUnmet(u, met, 1);
    if j < |u| then j else 1
  }

  /** What is left once `u[0]` and `u[k]` are paired (`unpaired.remove` twice). */
  function WithoutPair(u: seq<string>, k: nat): (rest: seq<string>)
    requires 1 <= k < |u|
    ensures |rest| == |u| - 2
    ensures forall x :: x in rest ==> x in u
    ensures multiset(rest) + multiset{u[0], u[k]} == multiset(u)
  {
    assert u[1..][k - 1] == u[k];
    assert u == [u[0]] + u[1..];
    Py.RemoveFirst(u[1..], u[k])
  }

  /**
   * The greedy pairing of rounds after the first: the best-placed player meets the first
   * player below it that it has not met yet, or the next player when it has met them all.
   * The result is the pairs and the players left over.
   */
  function Greedy(u: seq<string>, st: map<string, Standing>): (r: (seq<(string, string)>, seq<string>))
    requires forall k :: k in u ==> k in st
    ensures |r.0| == |u| / 2 && |r.1| == |u| % 2
    decreases |u|
  {
    if |u| < 2 then ([], u)
    else
      var k := Partner(u, st[u[0]].opponents);
      var sub := Greedy(WithoutPair(u, k), st);
      ([(u[0], u[k])] + sub.0, sub.1)
  }

  function Flatten(ps: seq<(string, string)>): (r: seq<string>)
    ensures |r| == 2 * |ps|
    ensures forall i :: 0 <= i < |ps| ==> r[2 * i] == ps[i].0 && r[2 * i + 1] == ps[i].1
  {
    if ps == [] then [] else [ps[0].0, ps[0].1] + Flatten(ps[1..])
  }

  lemma FlattenCons(p: (string, string), ps: seq<(string, string)>)
    ensures Flatten([p] + ps) == [p.0, p.1] + Flatten(ps)
  {
    assert ([p] + ps)[1..] == ps;
  }

  lemma FlattenConsMultiset(p: (string, string), ps: seq<(string, string)>, rest: seq<string>)
    ensures multiset(Flatten([p] + ps) + rest) == multiset{p.0, p.1} + multiset(Flatten(ps) + rest)
  {
    FlattenCons(p, ps);
    assert Flatten([p] + ps) + rest == [p.0, p.1] + (Flatten(ps) + rest);
  }

  /** One step of the greedy pairing keeps the players, given that the rest of it does. */
  lemma GreedyStepKeepsPlayers(u: seq<string>, st: map<string, Standing>, k: nat, sub: (seq<(string, string)>, seq<string>))
    requires |u| >= 2 && forall k :: k in u ==> k in st
    requires k == Partner(u, st[u[0]].opponents) && sub == Greedy(WithoutPair(u, k), st)
    requires multiset(Flatten(sub.0) + sub.1) == multiset(WithoutPair(u, k))
    ensures multiset(Flatten(Greedy(u, st).0) + Greedy(u, st).1) == multiset(u)
  {
    GreedyUnfold(u, st);
    FlattenConsMultiset((u[0], u[k]), sub.0, sub.1);
  }

  /** The pairs and the leftover hold every player of `u` exactly as often as `u` does. */
  lemma {:induction false} GreedyKeepsPlayers(u: seq<string>, st: map<string, Standing>)
    requires forall k :: k in u ==> k in st
    ensures multiset(Flatten(Greedy(u, st).0) + Greedy(u, st).1) == multiset(u)
    decreases |u|
  {
    if |u| >= 2 {
      var k := Partner(u, st[u[0]].opponents);
      GreedyKeepsPlayers(WithoutPair(u, k), st);
      GreedyStepKeepsPlayers(u, st, k, Greedy(WithoutPair(u, k), st));
    }
  }

  /**
   * Over distinct players the greedy pairing is a partition: no player is in two pairs or
   * both paired and left over, and at most one player is left over.
   */
  lemma GreedyPartitions(u: seq<string>, st: map<string, Standing>)
    requires Py.Distinct(u) && forall k :: k in u ==> k in st
    ensures var r := Greedy(u, st); Py.Distinct(Flatten(r.0) + r.1) && |r.1| <= 1
    ensures forall x :: x in u <==> x in Flatten(Greedy(u, st).0) + Greedy(u, st).1
  {
    var r := Greedy(u, st);
    GreedyKeepsPlayers(u, st);
    Py.DistinctByMultiset(u, Flatten(r.0) + r.1);
    forall x ensures x in u <==> x in Flatten(r.0) + r.1 {
      assert x in u <==> x in multiset(u);
      assert x in Flatten(r.0) + r.1 <==> x in multiset(Flatten(r.0) + r.1);
    }
  }

  /** The first pair avoids a rematch whenever some lower-placed player is still new. */
  lemma GreedyAvoidsRematch(u: seq<string>, st: map<string, Standing>)
    requires |u| >= 2 && forall k :: k in u ==> k in st
    ensures Greedy(u, st).0[0].0 == u[0]
    ensures (exists m :: 1 <= m < |u| && u[m] !in st[u[0]].opponents) ==>
      exists k :: 1 <= k < |u| && Greedy(u, st).0[0].1 == u[k] && u[k] !in st[u[0]].opponents
                 && forall m :: 1 <= m < k ==> u[m] in st[u[0]].opponents
    ensures (forall m :: 1 <= m < |u| ==> u[m] in st[u[0]].opponents) ==> Greedy(u, st).0[0].1 == u[1]
  {
    var met := st[u[0]].opponents;
    var j := FirstUnmet(u, met, 1);
    var k := Partner(u, met);
    GreedyHead(u, st);
    if exists m :: 1 <= m < |u| && u[m] !in met {
      var m :| 1 <= m < |u| && u[m] !in met;
      assert j <= m;
      assert k == j;
    }
  }

  lemma GreedyHead(u: seq<string>, st: map<string, Standing>)
    requires |u| >= 2 && forall k :: k in u ==> k in st
    ensures Greedy(u, st).0[0] == (u[0], u[Partner(u, st[u[0]].opponents)])
  {
  }

  /** `FirstUnmet` is the first position from `i` on whose name is not in `met`. */
  lemma {:induction false} FirstUnmetIs(u: seq<string>, met: seq<string>, i: nat, j: nat)
    requires 1 <= i <= j <= |u|
    requires forall m :: i <= m < j ==> u[m] in met
    requires j == |u| || u[j] !in met
    ensures FirstUnmet(u, met, i) == j
    decreases |u| - i
  {
    if i < j {
      FirstUnmetIs(u, met, i + 1, j);
    }
  }

  /** The `for … else` search of `_generate_swiss_pairings` for an opponent not met yet. */
  method FindOpponent(unpaired: seq<string>, opponents: seq<string>) returns (i: nat)
    requires |unpaired| >= 2
    ensures i == FirstUnmet(unpaired, opponents, 1)
  {
    i := 1;
    while i < |unpaired| && unpaired[i] in opponents
      invariant 1 <= i <= |unpaired|
      invariant forall m :: 1 <= m < i ==> unpaired[m] in opponents
      decreases |unpaired| - i
    {
      i := i + 1;
    }
    FirstUnmetIs(unpaired, opponents, 1, i);
  }

  /** The first pair of the greedy pairing and what is paired after it. */
  lemma GreedyUnfold(u: seq<string>, st: map<string, Standing>)
    requires |u| >= 2 && forall k :: k in u ==> k in st
    ensures var k := Partner(u, st[u[0]].opponents);
      Greedy(u, st) == ([(u[0], u[k])] + Greedy(WithoutPair(u, k), st).0, Greedy(WithoutPair(u, k), st).1)
  {
  }

  lemma PairsRegroup(g: (seq<(string, string)>, seq<string>), pairs: seq<(string, string)>,
                     x: (string, string), sub: (seq<(string, string)>, seq<string>))
    requires g == (pairs + ([x] + sub.0), sub.1)
    ensures g == ((pairs + [x]) + sub.0, sub.1)
  {
    assert pairs + ([x] + sub.0) == (pairs + [x]) + sub.0;
  }

  lemma PairsEnds(g: (seq<(string, string)>, seq<string>), pairs: seq<(string, string)>)
    ensures g == ([] + g.0, g.1)
    ensures g == (pairs + [], g.1) ==> g == (pairs, g.1)
  {
    assert [] + g.0 == g.0 && pairs + [] == pairs;
  }

  /** One turn of the pairing loop takes the greedy pairing one pair further. */
  lemma GreedyLoopStep(sorted: seq<string>, st: map<string, Standing>, pairs: seq<(string, string)>,
                       u: seq<string>)
    requires |u| >= 2 && forall k :: k in u ==> k in st
    requires forall k :: k in sorted ==> k in st
    requires Greedy(sorted, st) == (pairs + Greedy(u, st).0, Greedy(u, st).1)
    ensures var k := Partner(u, st[u[0]].opponents);
      Greedy(sorted, st) == ((pairs + [(u[0], u[k])]) + Greedy(WithoutPair(u, k), st).0,
                             Greedy(WithoutPair(u, k), st).1)
  {
    var k := Partner(u, st[u[0]].opponents);
    GreedyUnfold(u, st);
    PairsRegroup(Greedy(sorted, st), pairs, (u[0], u[k]), Greedy(WithoutPair(u, k), st));
  }

  /** The pair one turn of the loop makes, and what it leaves, are the greedy pairing's. */
  lemma LoopPairIsPartner(u: seq<string>, met: seq<string>, i: nat)
    requires |u| >= 2 && i == FirstUnmet(u, met, 1)
    ensures (if i < |u| then u[i] else u[1]) == u[Partner(u, met)]
    ensures Py.RemoveFirst(Py.RemoveFirst(u, u[0]), if i < |u| then u[i] else u[1]) == WithoutPair(u, Partner(u, met))
  {
    assert Py.RemoveFirst(u, u[0]) == u[1..];
  }

  /**
   * The pairing loop of `_generate_swiss_pairings` after round one: `unpaired` starts as
   * the sorted names and loses each pair as it is made.
   */
  method PairByPoints(sorted: seq<string>, st: map<string, Standing>)
    returns (pairs: seq<(string, string)>, unpaired: seq<string>)
    requires forall k :: k in sorted ==> k in st
    ensures (pairs, unpaired) == Greedy(sorted, st)
  {
    unpaired := sorted;
    pairs := [];
    PairsEnds(Greedy(sorted, st), pairs);
    while |unpaired| >= 2
      invariant forall k :: k in unpaired ==> k in st
      invariant Greedy(sorted, st) == (pairs + Greedy(unpaired, st).0, Greedy(unpaired, st).1)
      decreases |unpaired|
    {
      var player1 := unpaired[0];
      var i := FindOpponent(unpaired, st[player1].opponents);
      var player2 := if i < |unpaired| then unpaired[i] else unpaired[1];
      GreedyLoopStep(sorted, st, pairs, unpaired);
      LoopPairIsPartner(unpaired, st[player1].opponents, i);
      pairs := pairs + [(player1, player2)];
      unpaired := Py.RemoveFirst(Py.RemoveFirst(unpaired, player1), player2);
    }
    PairsEnds(Greedy(sorted, st), pairs);
  }

  /** A player left over by the pairing gets a bye worth 2 points; nobody else changes. */
  function WithBye(st: map<string, Standing>, leftover: seq<string>): (r: map<string, Standing>)
    ensures r.Keys == st.Keys
    ensures forall k :: k in st && (|leftover| == 0 || k != leftover[0]) ==> r[k] == st[k]
    ensures |leftover| > 0 && leftover[0] in st ==>
      r[leftover[0]] == st[leftover[0]].(points := st[leftover[0]].points + 2)
  {
    if |leftover| == 0 || leftover[0] !in st then st
    else st[leftover[0] := st[leftover[0]].(points := st[leftover[0]].points + 2)]
  }

  /** A leftover player is one of the players being paired. */
  lemma GreedyLeftoverIn(u: seq<string>, st: map<string, Standing>)
    requires forall k :: k in u ==> k in st
    ensures forall x :: x in Greedy(u, st).1 ==> x in u
  {
    GreedyKeepsPlayers(u, st);
    var g := Greedy(u, st);
    forall x | x in g.1 ensures x in u {
      assert x in multiset(Flatten(g.0) + g.1);
    }
  }

  /** Round one: consecutive entries of the shuffled list, an odd one out left unpaired. */
  function AdjacentPairs(xs: seq<string>): (r: seq<(string, string)>)
    ensures |r| == |xs| / 2
    ensures forall i :: 0 <= i < |r| ==> r[i] == (xs[2 * i], xs[2 * i + 1])
  {
    if |xs| < 2 then [] else [(xs[0], xs[1])] + AdjacentPairs(xs[2..])
  }

  // ----- keys for ranking standings -----

  /** `(points, games_won)`, the champion key of round robin and the Swiss seeding key. */
  function PointsGamesKey(st: map<string, Standing>): (key: string -> seq<Ratio>)
    ensures KeyFn(key, 2)
  {
    k => if k in st then [Whole(st[k].points), Whole(st[k].gamesWon)] else [Whole(0), Whole(0)]
  }

  /** `(points, games_won, wins)`, the Swiss champion key. */
  function SwissChampionKey(st: map<string, Standing>): (key: string -> seq<Ratio>)
    ensures KeyFn(key, 3)
  {
    k => if k in st then [Whole(st[k].points), Whole(st[k].gamesWon), Whole(st[k].wins)]
         else [Whole(0), Whole(0), Whole(0)]
  }

  // ----- single elimination -----

  /** `next` holds one entrant of each consecutive pair of `cur`. */
  ghost predicate Advances(cur: seq<string>, next: seq<string>)
  {
    |cur| == 2 * |next|
    && forall k :: 0 <= k < |next| ==> next[k] == cur[2 * k] || next[k] == cur[2 * k + 1]
  }

  /** The fields of a finished bracket, from `entrants` down to the champion. */
  ghost predicate Bracket(fields: seq<seq<string>>, entrants: seq<string>, champion: string)
  {
    |fields| >= 1 && fields[0] == entrants && fields[|fields| - 1] == [champion]
    && forall r :: 0 <= r < |fields| - 1 ==> Advances(fields[r], fields[r + 1])
  }

  /** A finished bracket has `log2(n)` rounds and a champion drawn from its entrants. */
  lemma {:induction false} BracketRounds(fields: seq<seq<string>>, entrants: seq<string>, champion: string)
    requires Bracket(fields, entrants, champion)
    ensures |entrants| == Pow2(|fields| - 1)
    ensures champion in entrants
  {
    if |fields| > 1 {
      var tail := fields[1..];
      assert Bracket(tail, fields[1], champion) by {
        forall r | 0 <= r < |tail| - 1 ensures Advances(tail[r], tail[r + 1]) {
          assert Advances(fields[r + 1], fields[r + 2]);
        }
      }
      BracketRounds(tail, fields[1], champion);
      assert Advances(fields[0], fields[1]);
      var k :| 0 <= k < |fields[1]| && fields[1][k] == champion;
      assert champion == entrants[2 * k] || champion == entrants[2 * k + 1];
    }
  }

  /** The fields from `entrants` to `current`, each one advancing from the one before. */
  ghost predicate FieldsSoFar(fields: seq<seq<string>>, entrants: seq<string>, current: seq<string>)
  {
    |fields| >= 1 && fields[0] == entrants && fields[|fields| - 1] == current
    && forall r :: 0 <= r < |fields| - 1 ==> Advances(fields[r], fields[r + 1])
  }

  lemma FieldsSnoc(fields: seq<seq<string>>, entrants: seq<string>, current: seq<string>, next: seq<string>)
    requires FieldsSoFar(fields, entrants, current) && Advances(current, next)
    ensures FieldsSoFar(fields + [next], entrants, next)
  {
    var f := fields + [next];
    forall r | 0 <= r < |f| - 1 ensures Advances(f[r], f[r + 1]) {
      assert f[r] == fields[r];
      if r + 1 < |fields| {
        assert f[r + 1] == fields[r + 1];
      }
    }
  }

  /**
   * `padded` is `orig` extended by names drawn from it up to the next power of two; an
   * empty list stays empty.
   */
  ghost predicate PaddedFrom(orig: seq<string>, padded: seq<string>)
  {
    orig <= padded && (forall p :: p in padded ==> p in orig)
    && (|orig| == 0 ==> padded == [])
    && (|orig| >= 1 ==> |padded| == NextPow2(|orig|))
  }

  // ----- rounds of matches -----

  /** Match `j` of `ms` is a finished match of pair `j` under id `j`. */
  ghost predicate MatchesOf(ms: seq<MatchResult>, pairings: seq<(string, string)>, ids: seq<string>, bestOf: int)
    requires bestOf >= 1 && bestOf % 2 == 1
  {
    |ms| == |pairings| && |ids| == |ms|
    && forall j :: 0 <= j < |ms| ==> PlayedMatch(ms[j], pairings[j].0, pairings[j].1, ids[j], bestOf)
  }

  lemma MatchesOfNext(ms: seq<MatchResult>, m: MatchResult, pairings: seq<(string, string)>, ids: seq<string>,
                      i: nat, bestOf: int)
    requires bestOf >= 1 && bestOf % 2 == 1 && i < |pairings| && |ids| == |pairings|
    requires MatchesOf(ms, pairings[..i], ids[..i], bestOf)
    requires PlayedMatch(m, pairings[i].0, pairings[i].1, ids[i], bestOf)
    ensures MatchesOf(ms + [m], pairings[..i + 1], ids[..i + 1], bestOf)
  {
    var ms' := ms + [m];
    forall j | 0 <= j < |ms'|
      ensures PlayedMatch(ms'[j], pairings[..i + 1][j].0, pairings[..i + 1][j].1, ids[..i + 1][j], bestOf)
    {
      if j < |ms| {
        assert ms'[j] == ms[j] && pairings[..i + 1][j] == pairings[..i][j] && ids[..i + 1][j] == ids[..i][j];
      }
    }
  }

  /**
   * The first `|played|` pairs of `pairings` have been played under their ids, from
   * standings `st0` and match list `ms0`; `st` and `ms` record exactly those matches.
   */
  ghost predicate PairingsSoFar(pairings: seq<(string, string)>, ids: seq<string>, bestOf: int,
                                played: seq<MatchResult>, st0: map<string, Standing>, ms0: seq<MatchResult>,
                                st: map<string, Standing>, ms: seq<MatchResult>)
    requires bestOf >= 1 && bestOf % 2 == 1 && |ids| == |pairings|
  {
    |played| <= |pairings| && MatchesOf(played, pairings[..|played|], ids[..|played|], bestOf)
    && AmongKeys(played, st0) && ms == ms0 + played && st == AfterMatches(st0, played)
  }

  lemma PairingsSoFarSnoc(pairings: seq<(string, string)>, ids: seq<string>, bestOf: int,
                          played: seq<MatchResult>, st0: map<string, Standing>, ms0: seq<MatchResult>,
                          st: map<string, Standing>, ms: seq<MatchResult>, m: MatchResult)
    requires bestOf >= 1 && bestOf % 2 == 1 && |ids| == |pairings|
    requires PairingsSoFar(pairings, ids, bestOf, played, st0, ms0, st, ms) && |played| < |pairings|
    requires PlayedMatch(m, pairings[|played|].0, pairings[|played|].1, ids[|played|], bestOf)
    requires m.player1 in st && m.player2 in st
    ensures PairingsSoFar(pairings, ids, bestOf, played + [m], st0, ms0,
                          AfterMatch(st, m.player1, m.player2, m.score.0, m.score.1), ms + [m])
  {
    MatchesOfNext(played, m, pairings, ids, |played|, bestOf);
    AfterMatchesSnoc(st0, played, m);
    Py.AppendAssoc(ms0, played, [m]);
  }

  /** A match of a played list of pairings carries the id of its pair. */
  lemma MatchIndex(ms: seq<MatchResult>, pairings: seq<(string, string)>, ids: seq<string>, bestOf: int,
                   m: MatchResult) returns (j: nat)
    requires bestOf >= 1 && bestOf % 2 == 1
    requires MatchesOf(ms, pairings, ids, bestOf) && m in ms
    ensures j < |ms| && ms[j] == m && m.matchId == ids[j]
  {
    j :| 0 <= j < |ms| && ms[j] == m;
    assert PlayedMatch(ms[j], pairings[j].0, pairings[j].1, ids[j], bestOf);
  }

  /** The match ids `RR1`, `RR2`, … of a round robin. */
  function RoundRobinIds(n: nat): (ids: seq<string>)
    ensures |ids| == n && forall j :: 0 <= j < n ==> ids[j] == "RR" + Py.NatToString(j + 1)
  {
    seq(n, (j: nat) => "RR" + Py.NatToString(j + 1))
  }

  /** The match ids `S{round}M1`, `S{round}M2`, … of a Swiss round. */
  function SwissIds(roundNum: nat, n: nat): (ids: seq<string>)
    ensures |ids| == n
    ensures forall j :: 0 <= j < n ==> ids[j] == "S" + Py.NatToString(roundNum) + "M" + Py.NatToString(j + 1)
  {
    seq(n, (j: nat) => "S" + Py.NatToString(roundNum) + "M" + Py.NatToString(j + 1))
  }

  // ----- standings after a run of matches -----

  /** Both players of every match of `ms` have an entry in `st`. */
  ghost predicate AmongKeys(ms: seq<MatchResult>, st: map<string, Standing>)
  {
    forall m :: m in ms ==> m.player1 in st && m.player2 in st
  }

  /** The standings after `_update_standings` has recorded each match of `ms` in turn. */
  ghost function AfterMatches(st: map<string, Standing>, ms: seq<MatchResult>): (r: map<string, Standing>)
    requires AmongKeys(ms, st)
    ensures r.Keys == st.Keys
  {
    if ms == [] then st
    else
      var m := ms[|ms| - 1];
      AfterMatch(AfterMatches(st, ms[..|ms| - 1]), m.player1, m.player2, m.score.0, m.score.1)
  }

  lemma AfterMatchesSnoc(st: map<string, Standing>, ms: seq<MatchResult>, m: MatchResult)
    requires AmongKeys(ms, st) && m.player1 in st && m.player2 in st
    ensures AmongKeys(ms + [m], st)
    ensures AfterMatches(st, ms + [m])
         == AfterMatch(AfterMatches(st, ms), m.player1, m.player2, m.score.0, m.score.1)
  {
    assert (ms + [m])[..|ms|] == ms;
  }

  /** Recording `a` and then `b` is recording `a + b`. */
  lemma {:induction false} AfterMatchesAppend(st: map<string, Standing>, a: seq<MatchResult>, b: seq<MatchResult>)
    requires AmongKeys(a, st) && AmongKeys(b, st)
    ensures AmongKeys(a + b, st) && AmongKeys(b, AfterMatches(st, a))
    ensures AfterMatches(st, a + b) == AfterMatches(AfterMatches(st, a), b)
  {
    if b == [] {
      assert a + b == a;
    } else {
      var n := |b| - 1;
      assert b == b[..n] + [b[n]];
      assert a + b == (a + b[..n]) + [b[n]];
      AfterMatchesAppend(st, a, b[..n]);
      AfterMatchesSnoc(st, a + b[..n], b[n]);
      AfterMatchesSnoc(AfterMatches(st, a), b[..n], b[n]);
    }
  }

  /**
   * Recording matches hands out four points and two appearances per match and keeps the
   * games won and the games lost in balance.
   */
  lemma {:induction false} AfterMatchesTotals(keys: seq<string>, st: map<string, Standing>, ms: seq<MatchResult>)
    requires Py.Distinct(keys) && (forall k :: k in keys <==> k in st) && AmongKeys(ms, st)
    ensures Total(keys, AfterMatches(st, ms), Points) == Total(keys, st, Points) + 4 * |ms|
    ensures Total(keys, AfterMatches(st, ms), MatchesPlayed) == Total(keys, st, MatchesPlayed) + 2 * |ms|
    ensures Total(keys, AfterMatches(st, ms), GamesWon) - Total(keys, AfterMatches(st, ms), GamesLost)
         == Total(keys, st, GamesWon) - Total(keys, st, GamesLost)
  {
    if ms != [] {
      var n := |ms| - 1;
      var m := ms[n];
      AfterMatchesTotals(keys, st, ms[..n]);
      var pre := AfterMatches(st, ms[..n]);
      assert m in ms;
      MatchAddsFourPoints(keys, pre, m.player1, m.player2, m.score.0, m.score.1);
      MatchKeepsGameBalance(keys, pre, m.player1, m.player2, m.score.0, m.score.1);
    }
  }

  // ----- knockout rounds -----

  /** The id `R{round}M{k}` of the `k`-th pair of an elimination round. */
  function EliminationId(roundNum: nat, k: nat): string
  {
    "R" + Py.NatToString(roundNum) + "M" + Py.NatToString(k)
  }

  /** Whom the name at `i` meets: the next name, or itself when there is none. */
  function PartnerAt(current: seq<string>, i: nat): string
    requires i < |current|
  {
    if i + 1 < |current| then current[i + 1] else current[i]
  }

  /**
   * One pair of a knockout round: equal names advance as a bye without a match; two
   * different names play the single match `matchId`, and its winner advances.
   */
  ghost predicate PairPlayed(p1: string, p2: string, matchId: string, bestOf: int,
                             played: seq<MatchResult>, winner: string)
    requires bestOf >= 1 && bestOf % 2 == 1
  {
    if p1 == p2 then played == [] && winner == p1
    else |played| == 1 && PlayedMatch(played[0], p1, p2, matchId, bestOf) && winner == played[0].winner
  }

  lemma PairMatchId(p1: string, p2: string, matchId: string, bestOf: int, played: seq<MatchResult>, winner: string,
                    m: MatchResult)
    requires bestOf >= 1 && bestOf % 2 == 1
    requires PairPlayed(p1, p2, matchId, bestOf, played, winner) && m in played
    ensures m.matchId == matchId
  {
  }

  /**
   * The first `|next|` pairs of round `roundNum` over `current`: name `2k` meets its
   * partner in match `R{round}M{k + 1}`, `pairs[k]` holds what that pair played, and
   * `next[k]` is who went through.
   */
  ghost predicate RoundPlayed(current: seq<string>, roundNum: nat, bestOf: int, next: seq<string>,
                              pairs: seq<seq<MatchResult>>)
    requires bestOf >= 1 && bestOf % 2 == 1
  {
    |pairs| == |next| && 2 * |next| <= |current| + 1
    && forall k :: 0 <= k < |next| ==>
         PairPlayed(current[2 * k], PartnerAt(current, 2 * k), EliminationId(roundNum, k + 1), bestOf,
                    pairs[k], next[k])
  }

  lemma RoundPlayedSnoc(current: seq<string>, roundNum: nat, bestOf: int, next: seq<string>,
                        pairs: seq<seq<MatchResult>>, played: seq<MatchResult>, winner: string)
    requires bestOf >= 1 && bestOf % 2 == 1
    requires RoundPlayed(current, roundNum, bestOf, next, pairs) && 2 * |next| < |current|
    requires PairPlayed(current[2 * |next|], PartnerAt(current, 2 * |next|), EliminationId(roundNum, |next| + 1),
                        bestOf, played, winner)
    ensures RoundPlayed(current, roundNum, bestOf, next + [winner], pairs + [played])
  {
    var next', pairs' := next + [winner], pairs + [played];
    forall k | 0 <= k < |next'|
      ensures PairPlayed(current[2 * k], PartnerAt(current, 2 * k), EliminationId(roundNum, k + 1), bestOf,
                         pairs'[k], next'[k])
    {
      if k < |next| {
        assert pairs'[k] == pairs[k] && next'[k] == next[k];
      }
    }
  }

  lemma KnockoutPlayedSnoc(fields: seq<seq<string>>, rounds: seq<seq<seq<MatchResult>>>, bestOf: int,
                           next: seq<string>, pairs: seq<seq<MatchResult>>)
    requires bestOf >= 1 && bestOf % 2 == 1
    requires KnockoutPlayed(fields, rounds, bestOf)
    requires RoundPlayed(fields[|fields| - 1], |fields|, bestOf, next, pairs)
    ensures KnockoutPlayed(fields + [next], rounds + [pairs], bestOf)
  {
    var fields', rounds' := fields + [next], rounds + [pairs];
    forall r | 0 <= r < |rounds'|
      ensures RoundPlayed(fields'[r], r + 1, bestOf, fields'[r + 1], rounds'[r])
    {
      if r < |rounds| {
        assert fields'[r] == fields[r] && fields'[r + 1] == fields[r + 1] && rounds'[r] == rounds[r];
      }
    }
  }

  /**
   * The first `|next|` pairs of a knockout round that started from standings `st0` and
   * match list `ms0` have been played, and `st` and `ms` record exactly their matches.
   */
  ghost predicate RoundSoFar(current: seq<string>, roundNum: nat, bestOf: int, next: seq<string>,
                             pairs: seq<seq<MatchResult>>, st0: map<string, Standing>, ms0: seq<MatchResult>,
                             st: map<string, Standing>, ms: seq<MatchResult>)
    requires bestOf >= 1 && bestOf % 2 == 1
  {
    RoundPlayed(current, roundNum, bestOf, next, pairs)
    && AmongKeys(Py.Concat(pairs), st0) && ms == ms0 + Py.Concat(pairs) && st == AfterMatches(st0, Py.Concat(pairs))
  }

  lemma RoundSoFarSnoc(current: seq<string>, roundNum: nat, bestOf: int, next: seq<string>,
                       pairs: seq<seq<MatchResult>>, st0: map<string, Standing>, ms0: seq<MatchResult>,
                       st: map<string, Standing>, ms: seq<MatchResult>, played: seq<MatchResult>, winner: string)
    requires bestOf >= 1 && bestOf % 2 == 1
    requires RoundSoFar(current, roundNum, bestOf, next, pairs, st0, ms0, st, ms) && 2 * |next| < |current|
    requires PairPlayed(current[2 * |next|], PartnerAt(current, 2 * |next|), EliminationId(roundNum, |next| + 1),
                        bestOf, played, winner)
    requires AmongKeys(played, st)
    ensures RoundSoFar(current, roundNum, bestOf, next + [winner], pairs + [played], st0, ms0,
                       AfterMatches(st, played), ms + played)
  {
    var c := Py.Concat(pairs);
    Py.ConcatSnoc(pairs, played);
    Py.AppendAssoc(ms0, c, played);
    AfterMatchesAppend(st0, c, played);
    RoundPlayedSnoc(current, roundNum, bestOf, next, pairs, played, winner);
  }

  /** A whole round over an even field lets one name of each pair through. */
  lemma RoundAdvances(current: seq<string>, roundNum: nat, bestOf: int, next: seq<string>,
                      pairs: seq<seq<MatchResult>>)
    requires bestOf >= 1 && bestOf % 2 == 1
    requires RoundPlayed(current, roundNum, bestOf, next, pairs) && |current| == 2 * |next|
    ensures Advances(current, next)
  {
    forall k | 0 <= k < |next| ensures next[k] == current[2 * k] || next[k] == current[2 * k + 1] {
      assert PairPlayed(current[2 * k], PartnerAt(current, 2 * k), EliminationId(roundNum, k + 1), bestOf,
                        pairs[k], next[k]);
    }
  }

  /** The matches of all rounds, round after round. */
  function Flat(rounds: seq<seq<seq<MatchResult>>>): seq<MatchResult>
  {
    if rounds == [] then [] else Flat(rounds[..|rounds| - 1]) + Py.Concat(rounds[|rounds| - 1])
  }

  lemma FlatSnoc(rounds: seq<seq<seq<MatchResult>>>, pairs: seq<seq<MatchResult>>)
    ensures Flat(rounds + [pairs]) == Flat(rounds) + Py.Concat(pairs)
  {
    assert (rounds + [pairs])[..|rounds|] == rounds;
  }

  /** Round `r + 1` of a bracket took `fields[r]` to `fields[r + 1]` playing `rounds[r]`. */
  ghost predicate KnockoutPlayed(fields: seq<seq<string>>, rounds: seq<seq<seq<MatchResult>>>, bestOf: int)
    requires bestOf >= 1 && bestOf % 2 == 1
  {
    |fields| == |rounds| + 1
    && forall r :: 0 <= r < |rounds| ==> RoundPlayed(fields[r], r + 1, bestOf, fields[r + 1], rounds[r])
  }

  /**
   * The rounds of a knockout run so far, from `entrants` down to `current`, started from
   * standings `st0` and match list `ms0`; `st` and `ms` record exactly the matches played.
   */
  ghost predicate KnockoutSoFar(entrants: seq<string>, bestOf: int, st0: map<string, Standing>, ms0: seq<MatchResult>,
                                fields: seq<seq<string>>, rounds: seq<seq<seq<MatchResult>>>, current: seq<string>,
                                st: map<string, Standing>, ms: seq<MatchResult>)
    requires bestOf >= 1 && bestOf % 2 == 1
  {
    FieldsSoFar(fields, entrants, current) && KnockoutPlayed(fields, rounds, bestOf)
    && AmongKeys(Flat(rounds), st0) && ms == ms0 + Flat(rounds) && st == AfterMatches(st0, Flat(rounds))
  }

  lemma KnockoutSoFarSnoc(entrants: seq<string>, bestOf: int, st0: map<string, Standing>, ms0: seq<MatchResult>,
                          fields: seq<seq<string>>, rounds: seq<seq<seq<MatchResult>>>, current: seq<string>,
                          st: map<string, Standing>, ms: seq<MatchResult>, next: seq<string>,
                          pairs: seq<seq<MatchResult>>, st': map<string, Standing>, ms': seq<MatchResult>)
    requires bestOf >= 1 && bestOf % 2 == 1
    requires KnockoutSoFar(entrants, bestOf, st0, ms0, fields, rounds, current, st, ms)
    requires RoundSoFar(current, |fields|, bestOf, next, pairs, st, ms, st', ms') && Advances(current, next)
    ensures KnockoutSoFar(entrants, bestOf, st0, ms0, fields + [next], rounds + [pairs], next, st', ms')
  {
    var all := Flat(rounds + [pairs]);
    assert all == Flat(rounds) + Py.Concat(pairs) by {
      FlatSnoc(rounds, pairs);
    }
    assert AmongKeys(all, st0) && st' == AfterMatches(st0, all) by {
      AfterMatchesAppend(st0, Flat(rounds), Py.Concat(pairs));
    }
    assert ms' == ms0 + all by {
      Py.AppendAssoc(ms0, Flat(rounds), Py.Concat(pairs));
    }
    assert KnockoutPlayed(fields + [next], rounds + [pairs], bestOf) by {
      KnockoutPlayedSnoc(fields, rounds, bestOf, next, pairs);
    }
    assert FieldsSoFar(fields + [next], entrants, next) by {
      FieldsSnoc(fields, entrants, current, next);
    }
  }

  /**
   * A finished knockout run from standings `st0` and matches `ms0`: the bracket from
   * `entrants` to `champion`, every round played as `rounds` says, and exactly those
   * matches appended to the list and recorded in the standings.
   */
  ghost predicate KnockoutRun(entrants: seq<string>, bestOf: int, st0: map<string, Standing>, ms0: seq<MatchResult>,
                              fields: seq<seq<string>>, rounds: seq<seq<seq<MatchResult>>>, champion: string,
                              st: map<string, Standing>, ms: seq<MatchResult>)
    requires bestOf >= 1 && bestOf % 2 == 1
  {
    Bracket(fields, entrants, champion) && KnockoutPlayed(fields, rounds, bestOf)
    && AmongKeys(Flat(rounds), st0) && ms == ms0 + Flat(rounds) && st == AfterMatches(st0, Flat(rounds))
  }

  // ----- compiled results -----

  datatype MatchSummary = MatchSummary(
    matchId: string, players: seq<string>, winner: string, score: (int, int), games: int)

  datatype Results = Results(
    format: string, champion: string, totalRounds: int, totalMatches: int, totalGames: int,
    participants: seq<string>, standings: map<string, Standing>, matches: seq<MatchSummary>,
    bestOf: int, gameConfig: map<string, Value>)

  /** What a run ends with: the results, the exception it raised, or a match still going on. */
  datatype RunOutcome = Done(results: Results) | Failed(error: string) | Unfinished

  /** What a run played, format by format: the ghost record its specification is stated over. */
  datatype Trace =
    | Knockout(fields: seq<seq<string>>, knockoutRounds: seq<seq<seq<MatchResult>>>)
    | League(played: seq<MatchResult>)
    | SwissPlay(stands: seq<map<string, Standing>>, seeded: seq<map<string, Standing>>,
                swissRounds: seq<seq<MatchResult>>)
    | NoTrace

  /** `match_id.split('M')[0]`, the label by which `_compile_results` counts rounds. */
  function Label(m: MatchResult): string
  {
    Py.BeforeFirst(m.matchId, 'M')
  }

  /** The labels of all matches: their number is `total_rounds`. */
  function RoundLabels(ms: seq<MatchResult>): set<string>
  {
    set m | m in ms :: Label(m)
  }

  lemma {:induction false} RoundLabelsBound(ms: seq<MatchResult>)
    ensures |RoundLabels(ms)| <= |ms|
  {
    if ms != [] {
      RoundLabelsBound(ms[1..]);
      assert RoundLabels(ms) == RoundLabels(ms[1..]) + {Label(ms[0])} by {
        assert ms == [ms[0]] + ms[1..];
      }
    }
  }

  lemma RoundLabelsOne(m: MatchResult)
    ensures RoundLabels([m]) == {Label(m)}
  {
    assert forall x :: x in [m] <==> x == m;
  }

  lemma RoundLabelsAppend(a: seq<MatchResult>, b: seq<MatchResult>)
    ensures RoundLabels(a + b) == RoundLabels(a) + RoundLabels(b)
  {
    assert forall m :: m in a + b <==> m in a || m in b;
  }

  /** The label of match `{prefix}{r}M{k}` is `{prefix}{r}`: the matches of one round share it. */
  lemma IdLabel(m: MatchResult, prefix: string, r: nat, k: nat)
    requires 'M' !in prefix && m.matchId == prefix + Py.NatToString(r) + "M" + Py.NatToString(k)
    ensures Label(m) == prefix + Py.NatToString(r)
  {
    assert prefix + Py.NatToString(r) + "M" + Py.NatToString(k)
        == (prefix + Py.NatToString(r)) + ['M'] + Py.NatToString(k);
    assert 'M' !in prefix + Py.NatToString(r);
    Py.BeforeFirstPrefix(prefix + Py.NatToString(r), 'M', Py.NatToString(k));
  }

  /** A round robin id `RR{n}` holds no `M`: every round robin match counts as a round of its own. */
  lemma RoundRobinLabel(n: nat)
    ensures Py.BeforeFirst("RR" + Py.NatToString(n), 'M') == "RR" + Py.NatToString(n)
  {
    assert 'M' !in "RR" + Py.NatToString(n);
    Py.BeforeFirstWhole("RR" + Py.NatToString(n), 'M');
  }

  /** The labels `{prefix}1`, …, `{prefix}{n}` of rounds `1..n`. */
  function NumberedLabels(prefix: string, n: nat): (r: seq<string>)
    ensures |r| == n && forall j :: 0 <= j < n ==> r[j] == prefix + Py.NatToString(j + 1)
  {
    seq(n, (j: nat) => prefix + Py.NatToString(j + 1))
  }

  /** Different numbers give different labels. */
  lemma NumberedLabelsDistinct(prefix: string, n: nat)
    ensures Py.Distinct(NumberedLabels(prefix, n))
  {
    var ls := NumberedLabels(prefix, n);
    forall i, j | 0 <= i < j < n ensures ls[i] != ls[j] {
      if ls[i] == ls[j] {
        assert ls[i][|prefix|..] == Py.NatToString(i + 1);
        assert ls[j][|prefix|..] == Py.NatToString(j + 1);
        Py.NatToStringInjective(i + 1, j + 1);
      }
    }
  }

  /** The label of each match, in order. */
  function Labels(ms: seq<MatchResult>): (r: seq<string>)
    ensures |r| == |ms| && forall i :: 0 <= i < |ms| ==> r[i] == Label(ms[i])
  {
    seq(|ms|, (i: nat) requires i < |ms| => Label(ms[i]))
  }

  /** With pairwise different labels, the last match's label is new and the others stay different. */
  lemma LastLabelFresh(ms: seq<MatchResult>)
    requires Py.Distinct(Labels(ms)) && ms != []
    ensures Py.Distinct(Labels(ms[..|ms| - 1])) && Label(ms[|ms| - 1]) !in RoundLabels(ms[..|ms| - 1])
  {
    var n := |ms| - 1;
    var pre := ms[..n];
    var ls := Labels(ms);
    forall i, j | 0 <= i < j < n ensures Labels(pre)[i] != Labels(pre)[j] {
      assert Labels(pre)[i] == ls[i] && Labels(pre)[j] == ls[j];
    }
    forall m | m in pre ensures Label(m) != ls[n] {
      var i :| 0 <= i < n && pre[i] == m;
      assert ls[i] == Label(m);
    }
  }

  /** Matches whose labels are pairwise different make one round each. */
  lemma {:induction false} OneRoundEach(ms: seq<MatchResult>)
    requires Py.Distinct(Labels(ms))
    ensures |RoundLabels(ms)| == |ms|
  {
    if ms != [] {
      var n := |ms| - 1;
      var pre := ms[..n];
      LastLabelFresh(ms);
      OneRoundEach(pre);
      assert RoundLabels(ms) == RoundLabels(pre) + {Label(ms[n])} by {
        assert ms == pre + [ms[n]];
        RoundLabelsAppend(pre, [ms[n]]);
        RoundLabelsOne(ms[n]);
      }
    }
  }

  /** How many blocks played at least one match. */
  function Busy(blocks: seq<seq<MatchResult>>): (n: nat)
    ensures n <= |blocks|
  {
    if blocks == [] then 0
    else Busy(blocks[..|blocks| - 1]) + (if blocks[|blocks| - 1] == [] then 0 else 1)
  }

  lemma {:induction false} ConcatMembers(blocks: seq<seq<MatchResult>>, m: MatchResult)
    requires m in Py.Concat(blocks)
    ensures exists r :: 0 <= r < |blocks| && m in blocks[r]
  {
    var n := |blocks| - 1;
    if m !in blocks[n] {
      ConcatMembers(blocks[..n], m);
      var r :| 0 <= r < n && m in blocks[..n][r];
      assert blocks[r] == blocks[..n][r];
    }
  }

  /**
   * When every match of block `r` carries label `labels[r]` and the labels are pairwise
   * different, the blocks that played a match are exactly the rounds counted.
   */
  lemma {:induction false} OneRoundPerBlock(blocks: seq<seq<MatchResult>>, labels: seq<string>)
    requires |labels| == |blocks| && Py.Distinct(labels)
    requires forall r, m :: 0 <= r < |blocks| && m in blocks[r] ==> Label(m) == labels[r]
    ensures |RoundLabels(Py.Concat(blocks))| == Busy(blocks)
  {
    if blocks != [] {
      var n := |blocks| - 1;
      var pre := blocks[..n];
      assert Py.Distinct(labels[..n]);
      forall r, m | 0 <= r < n && m in pre[r] ensures Label(m) == labels[..n][r] {
        assert pre[r] == blocks[r];
      }
      OneRoundPerBlock(pre, labels[..n]);
      RoundLabelsAppend(Py.Concat(pre), blocks[n]);
      if blocks[n] != [] {
        assert RoundLabels(blocks[n]) == {labels[n]} by {
          assert blocks[n][0] in blocks[n];
        }
        assert labels[n] !in RoundLabels(Py.Concat(pre)) by {
          forall m | m in Py.Concat(pre) ensures Label(m) != labels[n] {
            ConcatMembers(pre, m);
            var r :| 0 <= r < n && m in pre[r];
            assert Label(m) == labels[r];
          }
        }
      } else {
        assert RoundLabels(blocks[n]) == {};
      }
    }
  }

  // ----- what each format plays -----

  /**
   * A finished round robin from standings `st0` and matches `ms0`: match `RR{j + 1}` for
   * the `j`-th pair of `itertools.combinations(players, 2)`, each appended and recorded
   * in the standings, and the champion the first key of `order` with the highest
   * `(points, games_won)`.
   */
  ghost predicate RoundRobinRun(players: seq<string>, order: seq<string>, bestOf: int, st0: map<string, Standing>,
                                ms0: seq<MatchResult>, played: seq<MatchResult>, champion: string,
                                st: map<string, Standing>, ms: seq<MatchResult>)
    requires bestOf >= 1 && bestOf % 2 == 1
  {
    var pairings := Combinations.Pairs(players);
    MatchesOf(played, pairings, RoundRobinIds(|pairings|), bestOf)
    && AmongKeys(played, st0) && ms == ms0 + played && st == AfterMatches(st0, played)
    && |order| > 0 && champion == MaxOf(order, PointsGamesKey(st))
  }

  /**
   * A round robin of `n` players plays `n(n - 1)/2` matches, each a round of its own,
   * and every match hands out four points.
   */
  lemma RoundRobinTotals(players: seq<string>, order: seq<string>, bestOf: int, st0: map<string, Standing>,
                         played: seq<MatchResult>, champion: string, st: map<string, Standing>, ms: seq<MatchResult>)
    requires bestOf >= 1 && bestOf % 2 == 1
    requires RoundRobinRun(players, order, bestOf, st0, [], played, champion, st, ms)
    requires Py.Distinct(order) && forall k :: k in order <==> k in st0
    ensures 2 * |ms| == |players| * (|players| - 1)
    ensures |RoundLabels(ms)| == |ms|
    ensures SumGames(ms) >= WinsNeeded(bestOf) * |ms|
    ensures Total(order, st, Points) == Total(order, st0, Points) + 4 * |ms|
  {
    Combinations.PairsCount(players);
    assert ms == played;
    assert Py.Distinct(Labels(played)) by {
      RoundRobinDistinctLabels(Combinations.Pairs(players), played, bestOf);
    }
    OneRoundEach(played);
    PlayedGamesAtLeast(played, Combinations.Pairs(players), RoundRobinIds(|Combinations.Pairs(players)|), bestOf);
    AfterMatchesTotals(order, st0, played);
  }

  /** The round robin ids `RR1`, `RR2`, … are their own labels and differ from each other. */
  lemma RoundRobinDistinctLabels(pairings: seq<(string, string)>, played: seq<MatchResult>, bestOf: int)
    requires bestOf >= 1 && bestOf % 2 == 1
    requires MatchesOf(played, pairings, RoundRobinIds(|pairings|), bestOf)
    ensures Py.Distinct(Labels(played))
  {
    var labels := NumberedLabels("RR", |played|);
    forall j | 0 <= j < |played| ensures Labels(played)[j] == labels[j] {
      assert PlayedMatch(played[j], pairings[j].0, pairings[j].1, RoundRobinIds(|pairings|)[j], bestOf);
      RoundRobinLabel(j + 1);
    }
    assert Labels(played) == labels;
    NumberedLabelsDistinct("RR", |played|);
  }

  /** The pairings `_generate_swiss_pairings` makes for round `roundNum` from standings `before`. */
  ghost function SwissPairs(roundNum: int, shuffled: seq<string>, order: seq<string>, before: map<string, Standing>)
    : seq<(string, string)>
    requires forall k :: k in order ==> k in before
  {
    if roundNum == 1 then AdjacentPairs(shuffled)
    else Greedy(SortDesc(order, PointsGamesKey(before)), before).0
  }

  /** The standings once round `roundNum` is paired: after round one, a leftover player's bye is credited. */
  ghost function Seeded(roundNum: int, order: seq<string>, before: map<string, Standing>): (r: map<string, Standing>)
    requires forall k :: k in order ==> k in before
    ensures r.Keys == before.Keys
  {
    if roundNum == 1 then before
    else WithBye(before, Greedy(SortDesc(order, PointsGamesKey(before)), before).1)
  }

  /**
   * How `_run_swiss` pairs round `roundNum` from standings `before`: its pairings `pairs`,
   * and `seeded`, the standings with a leftover player's bye credited.
   */
  ghost predicate SwissSeeding(roundNum: int, shuffled: seq<string>, order: seq<string>,
                               before: map<string, Standing>, pairs: seq<(string, string)>,
                               seeded: map<string, Standing>)
  {
    (forall k :: k in order ==> k in before)
    && pairs == SwissPairs(roundNum, shuffled, order, before)
    && seeded == Seeded(roundNum, order, before)
  }

  lemma SeedingFirst(shuffled: seq<string>, order: seq<string>, before: map<string, Standing>)
    requires forall k :: k in order ==> k in before
    ensures SwissSeeding(1, shuffled, order, before, AdjacentPairs(shuffled), before)
  {
  }

  lemma SeedingLater(roundNum: int, shuffled: seq<string>, order: seq<string>, before: map<string, Standing>,
                     pairs: seq<(string, string)>, unpaired: seq<string>)
    requires roundNum != 1 && forall k :: k in order ==> k in before
    requires (pairs, unpaired) == Greedy(SortDesc(order, PointsGamesKey(before)), before)
    ensures SwissSeeding(roundNum, shuffled, order, before, pairs, WithBye(before, unpaired))
  {
    assert pairs == SwissPairs(roundNum, shuffled, order, before) by {
    }
    assert WithBye(before, unpaired) == Seeded(roundNum, order, before) by {
    }
  }

  /**
   * What Swiss round `roundNum` plays once paired: match `S{round}M{i + 1}` for pair `i`,
   * recorded on top of the seeded standings.
   */
  ghost predicate SwissRoundPlayed(roundNum: nat, bestOf: int, seeded: map<string, Standing>,
                                   pairs: seq<(string, string)>, played: seq<MatchResult>,
                                   after: map<string, Standing>)
    requires bestOf >= 1 && bestOf % 2 == 1
  {
    MatchesOf(played, pairs, SwissIds(roundNum, |pairs|), bestOf)
    && AmongKeys(played, seeded)
    && after == AfterMatches(seeded, played)
  }

  /** Every match of Swiss round `roundNum` is labelled `S{round}`. */
  lemma SwissMatchLabel(roundNum: nat, bestOf: int, seeded: map<string, Standing>,
                        pairs: seq<(string, string)>, played: seq<MatchResult>,
                        after: map<string, Standing>, m: MatchResult)
    requires bestOf >= 1 && bestOf % 2 == 1
    requires SwissRoundPlayed(roundNum, bestOf, seeded, pairs, played, after) && m in played
    ensures Label(m) == "S" + Py.NatToString(roundNum)
  {
    var j := MatchIndex(played, pairs, SwissIds(roundNum, |pairs|), bestOf, m);
    IdLabel(m, "S", roundNum, j + 1);
  }

  lemma SwissMatchLabels(roundNum: nat, bestOf: int, seeded: map<string, Standing>,
                         pairs: seq<(string, string)>, played: seq<MatchResult>, after: map<string, Standing>)
    requires bestOf >= 1 && bestOf % 2 == 1
    requires SwissRoundPlayed(roundNum, bestOf, seeded, pairs, played, after)
    ensures forall m :: m in played ==> Label(m) == "S" + Py.NatToString(roundNum)
  {
    forall m | m in played ensures Label(m) == "S" + Py.NatToString(roundNum) {
      SwissMatchLabel(roundNum, bestOf, seeded, pairs, played, after, m);
    }
  }

  /**
   * Rounds `1..|rounds|` of a Swiss run once paired: round `r + 1` goes from `seeded[r]`
   * to `stands[r + 1]`, and its pairings follow the pairing history `sp0`.
   */
  ghost predicate SwissRounds(bestOf: int, sp0: seq<seq<(string, string)>>, stands: seq<map<string, Standing>>,
                              seeded: seq<map<string, Standing>>, rounds: seq<seq<MatchResult>>,
                              sp: seq<seq<(string, string)>>)
    requires bestOf >= 1 && bestOf % 2 == 1
  {
    |stands| == |rounds| + 1 && |seeded| == |rounds| && |sp| == |sp0| + |rounds| && sp0 <= sp
    && forall r :: 0 <= r < |rounds| ==>
         SwissRoundPlayed(r + 1, bestOf, seeded[r], sp[|sp0| + r], rounds[r], stands[r + 1])
  }

  /** Each Swiss round `r + 1` is paired from `stands[r]`, shuffling with `pick(r + 1)`. */
  ghost predicate SwissSeedings(players: seq<string>, order: seq<string>, pick: nat -> (nat -> nat),
                                sp0: seq<seq<(string, string)>>, stands: seq<map<string, Standing>>,
                                seeded: seq<map<string, Standing>>, sp: seq<seq<(string, string)>>)
    decreases |seeded|
  {
    |stands| == |seeded| + 1 && |sp| == |sp0| + |seeded|
    && if seeded == [] then true
       else
         var n := |seeded| - 1;
         SwissSeedings(players, order, pick, sp0, stands[..n + 1], seeded[..n], sp[..|sp0| + n])
         && SwissSeeding(n + 1, Shuffle.Shuffled(players, pick(n + 1)), order, stands[n], sp[|sp0| + n], seeded[n])
  }

  lemma SwissRoundsSnoc(bestOf: int, sp0: seq<seq<(string, string)>>, stands: seq<map<string, Standing>>,
                        seeded: seq<map<string, Standing>>, rounds: seq<seq<MatchResult>>,
                        sp: seq<seq<(string, string)>>, seed: map<string, Standing>,
                        pairs: seq<(string, string)>, played: seq<MatchResult>, after: map<string, Standing>)
    requires bestOf >= 1 && bestOf % 2 == 1
    requires SwissRounds(bestOf, sp0, stands, seeded, rounds, sp)
    requires SwissRoundPlayed(|rounds| + 1, bestOf, seed, pairs, played, after)
    ensures SwissRounds(bestOf, sp0, stands + [after], seeded + [seed], rounds + [played], sp + [pairs])
  {
    var n := |rounds|;
    var stands', seeded', rounds', sp' := stands + [after], seeded + [seed], rounds + [played], sp + [pairs];
    assert sp'[..|sp0|] == sp[..|sp0|];
    assert forall r :: 0 <= r < n ==>
      seeded'[r] == seeded[r] && sp'[|sp0| + r] == sp[|sp0| + r] && rounds'[r] == rounds[r]
      && stands'[r + 1] == stands[r + 1];
    assert seeded'[n] == seed && sp'[|sp0| + n] == pairs && rounds'[n] == played && stands'[n + 1] == after;
  }

  lemma SwissSeedingsSnoc(players: seq<string>, order: seq<string>, pick: nat -> (nat -> nat),
                          sp0: seq<seq<(string, string)>>, stands: seq<map<string, Standing>>,
                          seeded: seq<map<string, Standing>>, sp: seq<seq<(string, string)>>,
                          seed: map<string, Standing>, pairs: seq<(string, string)>, after: map<string, Standing>)
    requires |stands| == |seeded| + 1 && |sp| == |sp0| + |seeded|
    requires SwissSeedings(players, order, pick, sp0, stands, seeded, sp)
    requires SwissSeeding(|seeded| + 1, Shuffle.Shuffled(players, pick(|seeded| + 1)), order,
                          stands[|seeded|], pairs, seed)
    ensures SwissSeedings(players, order, pick, sp0, stands + [after], seeded + [seed], sp + [pairs])
  {
    var n := |seeded|;
    var stands', seeded', sp' := stands + [after], seeded + [seed], sp + [pairs];
    assert stands'[..n + 1] == stands && seeded'[..n] == seeded && sp'[..|sp0| + n] == sp;
    assert stands'[n] == stands[n] && sp'[|sp0| + n] == pairs && seeded'[n] == seed;
  }

  /**
   * A finished Swiss run: `min(max_rounds, ceil(log2 n))` rounds from standings `st0`,
   * their matches appended to `ms0`, and the champion the first key of `order` with the
   * highest `(points, games_won, wins)`.
   */
  ghost predicate SwissRun(players: seq<string>, order: seq<string>, bestOf: int, maxRounds: int,
                           pick: nat -> (nat -> nat), st0: map<string, Standing>, ms0: seq<MatchResult>,
                           sp0: seq<seq<(string, string)>>, stands: seq<map<string, Standing>>,
                           seeded: seq<map<string, Standing>>, rounds: seq<seq<MatchResult>>, champion: string,
                           st: map<string, Standing>, ms: seq<MatchResult>, sp: seq<seq<(string, string)>>)
    requires bestOf >= 1 && bestOf % 2 == 1
  {
    SwissRounds(bestOf, sp0, stands, seeded, rounds, sp)
    && SwissSeedings(players, order, pick, sp0, stands, seeded, sp)
    && |rounds| == Max0(Min(maxRounds, CeilLog2(|players|)))
    && stands[0] == st0 && stands[|rounds|] == st && ms == ms0 + Py.Concat(rounds)
    && |order| > 0 && champion == MaxOf(order, SwissChampionKey(st))
  }

  /** Swiss round `r + 1` labels its matches `S{r + 1}`. */
  lemma SwissRoundLabels(bestOf: int, sp0: seq<seq<(string, string)>>,
                         stands: seq<map<string, Standing>>, seeded: seq<map<string, Standing>>,
                         rounds: seq<seq<MatchResult>>, sp: seq<seq<(string, string)>>)
    requires bestOf >= 1 && bestOf % 2 == 1
    requires SwissRounds(bestOf, sp0, stands, seeded, rounds, sp)
    ensures forall r, m :: 0 <= r < |rounds| && m in rounds[r] ==> Label(m) == NumberedLabels("S", |rounds|)[r]
  {
    var labels := NumberedLabels("S", |rounds|);
    forall r | 0 <= r < |rounds| ensures forall m :: m in rounds[r] ==> Label(m) == labels[r] {
      SwissMatchLabels(r + 1, bestOf, seeded[r], sp[|sp0| + r], rounds[r], stands[r + 1]);
    }
  }

  /** A Swiss run counts one round for each round that played a match, at most the rounds it ran. */
  lemma SwissRoundCount(players: seq<string>, order: seq<string>, bestOf: int, maxRounds: int,
                        pick: nat -> (nat -> nat), st0: map<string, Standing>,
                        sp0: seq<seq<(string, string)>>, stands: seq<map<string, Standing>>,
                        seeded: seq<map<string, Standing>>, rounds: seq<seq<MatchResult>>, champion: string,
                        st: map<string, Standing>, ms: seq<MatchResult>, sp: seq<seq<(string, string)>>)
    requires bestOf >= 1 && bestOf % 2 == 1
    requires SwissRun(players, order, bestOf, maxRounds, pick, st0, [], sp0, stands, seeded, rounds, champion, st, ms, sp)
    ensures |RoundLabels(ms)| == Busy(rounds) <= Max0(Min(maxRounds, CeilLog2(|players|)))
  {
    SwissRoundLabels(bestOf, sp0, stands, seeded, rounds, sp);
    NumberedLabelsDistinct("S", |rounds|);
    OneRoundPerBlock(rounds, NumberedLabels("S", |rounds|));
    assert ms == Py.Concat(rounds);
  }

  /** The matches of each knockout round. */
  function RoundMatches(rounds: seq<seq<seq<MatchResult>>>): (r: seq<seq<MatchResult>>)
    ensures |r| == |rounds| && forall i :: 0 <= i < |rounds| ==> r[i] == Py.Concat(rounds[i])
  {
    seq(|rounds|, (i: nat) requires i < |rounds| => Py.Concat(rounds[i]))
  }

  lemma {:induction false} FlatIsConcat(rounds: seq<seq<seq<MatchResult>>>)
    ensures Flat(rounds) == Py.Concat(RoundMatches(rounds))
  {
    if rounds != [] {
      var n := |rounds| - 1;
      FlatIsConcat(rounds[..n]);
      assert RoundMatches(rounds) == RoundMatches(rounds[..n]) + [Py.Concat(rounds[n])];
      Py.ConcatSnoc(RoundMatches(rounds[..n]), Py.Concat(rounds[n]));
    }
  }

  /** Every match of knockout round `roundNum` is labelled `R{round}`. */
  lemma RoundMatchLabel(current: seq<string>, roundNum: nat, bestOf: int, next: seq<string>,
                        pairs: seq<seq<MatchResult>>, m: MatchResult)
    requires bestOf >= 1 && bestOf % 2 == 1
    requires RoundPlayed(current, roundNum, bestOf, next, pairs) && m in Py.Concat(pairs)
    ensures Label(m) == "R" + Py.NatToString(roundNum)
  {
    ConcatMembers(pairs, m);
    var k :| 0 <= k < |pairs| && m in pairs[k];
    PairMatchId(current[2 * k], PartnerAt(current, 2 * k), EliminationId(roundNum, k + 1), bestOf,
                pairs[k], next[k], m);
    IdLabel(m, "R", roundNum, k + 1);
  }

  /**
   * A knockout run over `2^k` entrants has `k` rounds; the rounds counted are those that
   * played a match, which a round of byes alone does not.
   */
  lemma KnockoutRoundCount(entrants: seq<string>, bestOf: int, st0: map<string, Standing>,
                           fields: seq<seq<string>>, rounds: seq<seq<seq<MatchResult>>>, champion: string,
                           st: map<string, Standing>, ms: seq<MatchResult>)
    requires bestOf >= 1 && bestOf % 2 == 1
    requires KnockoutRun(entrants, bestOf, st0, [], fields, rounds, champion, st, ms)
    ensures |RoundLabels(ms)| == Busy(RoundMatches(rounds)) <= |rounds|
    ensures |entrants| == Pow2(|rounds|) && champion in entrants
  {
    BracketRounds(fields, entrants, champion);
    var blocks := RoundMatches(rounds);
    var labels := NumberedLabels("R", |rounds|);
    forall r, m | 0 <= r < |blocks| && m in blocks[r] ensures Label(m) == labels[r] {
      RoundMatchLabel(fields[r], r + 1, bestOf, fields[r + 1], rounds[r], m);
    }
    NumberedLabelsDistinct("R", |rounds|);
    OneRoundPerBlock(blocks, labels);
    FlatIsConcat(rounds);
    assert ms == Flat(rounds);
  }

  /** The field-by-field updates of `_update_standings`; the result is `AfterMatch`. */
  method RecordMatch(standings: map<string, Standing>, p1: string, p2: string, w1: int, w2: int)
    returns (st: map<string, Standing>)
    requires p1 in standings && p2 in standings
    ensures st == AfterMatch(standings, p1, p2, w1, w2)
  {
    st := standings;
    st := st[p1 := st[p1].(matchesPlayed := st[p1].matchesPlayed + 1)];
    st := st[p2 := st[p2].(matchesPlayed := st[p2].matchesPlayed + 1)];
    st := st[p1 := st[p1].(gamesWon := st[p1].gamesWon + w1)];
    st := st[p1 := st[p1].(gamesLost := st[p1].gamesLost + w2)];
    st := st[p2 := st[p2].(gamesWon := st[p2].gamesWon + w2)];
    st := st[p2 := st[p2].(gamesLost := st[p2].gamesLost + w1)];
    if w1 > w2 {
      st := st[p1 := st[p1].(wins := st[p1].wins + 1)];
      st := st[p2 := st[p2].(losses := st[p2].losses + 1)];
      st := st[p1 := st[p1].(points := st[p1].points + 3)];
      st := st[p2 := st[p2].(points := st[p2].points + 1)];
    } else if w2 > w1 {
      st := st[p2 := st[p2].(wins := st[p2].wins + 1)];
      st := st[p1 := st[p1].(losses := st[p1].losses + 1)];
      st := st[p2 := st[p2].(points := st[p2].points + 3)];
      st := st[p1 := st[p1].(points := st[p1].points + 1)];
    } else {
      st := st[p1 := st[p1].(points := st[p1].points + 2)];
      st := st[p2 := st[p2].(points := st[p2].points + 2)];
    }
    st := st[p1 := st[p1].(opponents := st[p1].opponents + [p2])];
    st := st[p2 := st[p2].(opponents := st[p2].opponents + [p1])];
  }

  /** `sum(len(m.games) for m in matches)`. */
  function SumGames(ms: seq<MatchResult>): (n: nat)
    ensures ms == [] ==> n == 0
  {
    if ms == [] then 0 else SumGames(ms[..|ms| - 1]) + |ms[|ms| - 1].games|
  }

  /** The total of a concatenation is the sum of the totals. */
  lemma {:induction false} SumGamesAppend(a: seq<MatchResult>, b: seq<MatchResult>)
    ensures SumGames(a + b) == SumGames(a) + SumGames(b)
  {
    if b != [] {
      var n := |b| - 1;
      assert (a + b)[..|a + b| - 1] == a + b[..n];
      SumGamesAppend(a, b[..n]);
    } else {
      assert a + b == a;
    }
  }

  /** Matches of at least `k` games each add up to at least `k` games per match. */
  lemma {:induction false} SumGamesAtLeast(ms: seq<MatchResult>, k: nat)
    requires forall m :: m in ms ==> |m.games| >= k
    ensures SumGames(ms) >= k * |ms|
  {
    if ms != [] {
      SumGamesAtLeast(ms[..|ms| - 1], k);
      assert ms[|ms| - 1] in ms;
    }
  }

  /** Every match a format plays lasts at least `(best_of + 1) // 2` games. */
  lemma PlayedGamesAtLeast(ms: seq<MatchResult>, pairings: seq<(string, string)>, ids: seq<string>, bestOf: int)
    requires bestOf >= 1 && bestOf % 2 == 1
    requires MatchesOf(ms, pairings, ids, bestOf)
    ensures SumGames(ms) >= WinsNeeded(bestOf) * |ms|
  {
    forall m | m in ms ensures |m.games| >= WinsNeeded(bestOf) {
      var j := MatchIndex(ms, pairings, ids, bestOf, m);
      assert PlayedMatch(ms[j], pairings[j].0, pairings[j].1, ids[j], bestOf);
      MatchWinnerReachedMajority(m, pairings[j].0, pairings[j].1, ids[j], bestOf);
    }
    SumGamesAtLeast(ms, WinsNeeded(bestOf));
  }

  function Summaries(ms: seq<MatchResult>): (r: seq<MatchSummary>)
    ensures |r| == |ms|
    ensures forall i :: 0 <= i < |ms| ==>
      r[i] == MatchSummary(ms[i].matchId, [ms[i].player1, ms[i].player2], ms[i].winner, ms[i].score,
                           |ms[i].games|)
  {
    if ms == [] then []
    else [MatchSummary(ms[0].matchId, [ms[0].player1, ms[0].player2], ms[0].winner, ms[0].score,
                       |ms[0].games|)] + Summaries(ms[1..])
  }

  // ----- the engine -----

  class TournamentEngine {
    const config: TournamentConfig
    var players: seq<string>
    var matches: seq<MatchResult>
    var standings: map<string, Standing>
    /** The keys of `standings` in insertion order, the order Python's dict iterates in. */
    var order: seq<string>
    var swissPairings: seq<seq<(string, string)>>

    ghost predicate Valid()
      reads this
    {
      Py.Distinct(order) && (forall k :: k in order <==> k in standings)
      && (forall p :: p in players ==> p in standings)
    }

    constructor (config: TournamentConfig)
      ensures Valid() && this.config == config
      ensures players == [] && matches == [] && standings == map[] && order == [] && swissPairings == []
    {
      this.config := config;
      players := [];
      matches := [];
      standings := map[];
      order := [];
      swissPairings := [];
    }

    /** `add_players`: copy, shuffle when configured, and give every name a fresh standing. */
    method AddPlayers(newPlayers: seq<string>, pick: nat -> nat)
      requires Valid()
      modifies this
      ensures Valid()
      ensures players == (if config.shufflePlayers then Shuffle.Shuffled(newPlayers, pick) else newPlayers)
      ensures standings == WithFresh(old(standings), players)
      ensures order == InsertKeys(old(order), players)
      ensures matches == old(matches) && swissPairings == old(swissPairings)
    {
      var ps := newPlayers;
      if config.shufflePlayers {
        ps := Shuffle.Shuffled(ps, pick);
      }
      players := ps;
      var i := 0;
      while i < |ps|
        invariant 0 <= i <= |ps| && players == ps
        invariant standings == WithFresh(old(standings), ps[..i])
        invariant order == InsertKeys(old(order), ps[..i])
        invariant matches == old(matches) && swissPairings == old(swissPairings)
      {
        var name := ps[i];
        assert ps[..i + 1] == ps[..i] + [name];
        WithFreshSnoc(old(standings), ps[..i], name);
        InsertKeysSnoc(old(order), ps[..i], name);
        // `order` lists the keys of `standings`, so this is the test whether the key is new.
        if name !in order {
          order := order + [name];
        }
        standings := standings[name := FRESH];
        i := i + 1;
      }
      assert ps[..i] == ps;
      AddedKeys(old(order), old(standings), players);
    }

    /** `_update_standings`, field by field as the source increments them. */
    method UpdateStandings(p1: string, p2: string, w1: int, w2: int)
      requires p1 in standings && p2 in standings
      modifies this
      ensures standings == AfterMatch(old(standings), p1, p2, w1, w2)
      ensures players == old(players) && matches == old(matches) && order == old(order)
      ensures swissPairings == old(swissPairings)
    {
      standings := RecordMatch(standings, p1, p2, w1, w2);
    }

    /**
     * `_play_match`: games until one side has `(best_of + 1) // 2` wins, `p1` opening the
     * odd-numbered games; then the standings and the match list are updated. None when the
     * match reaches `fuel` games without a decision.
     */
    method PlayMatch(p1: string, p2: string, matchId: string, mover: Mover, fuel: nat)
      returns (result: Option<MatchResult>, ghost starts: seq<string>, ghost plies: seq<seq<(int, int)>>)
      requires Valid() && p1 in players && p2 in players
      modifies this
      ensures Valid() && players == old(players) && order == old(order)
      ensures swissPairings == old(swissPairings)
      ensures result.None? ==> standings == old(standings) && matches == old(matches)
      ensures result.Some? ==>
        PlayedMatch(result.value, p1, p2, matchId, config.bestOf)
        && standings == AfterMatch(old(standings), p1, p2, result.value.score.0, result.value.score.1)
        && matches == old(matches) + [result.value]
        && |starts| == |result.value.games|
        && GamesPlayedOut(config.gameConfig, p1, p2, matchId, mover, result.value.games, plies)
      ensures forall i :: 0 <= i < |starts| ==> starts[i] == (if i % 2 == 0 then p1 else p2)
    {
      var games, finished;
      games, finished, starts, plies := PlayGames(config.gameConfig, WinsNeeded(config.bestOf), p1, p2, matchId,
                                                  mover, fuel);
      if !finished {
        return None, starts, plies;
      }
      var score := Tally(games, p1, p2);
      var w1, w2 := score.0, score.1;
      var winner := if w1 > w2 then p1 else p2;
      UpdateStandings(p1, p2, w1, w2);
      var m := MatchResult(matchId, p1, p2, games, winner, (w1, w2), "best_of_" + Py.NatToString(config.bestOf));
      matches := matches + [m];
      return Some(m), starts, plies;
    }

    /** The padding loop of `_run_single_elimination`: append random entrants up to a power of two. */
    method PadPlayers(pick: nat -> nat)
      requires Valid()
      modifies this
      ensures Valid() && PaddedFrom(old(players), players)
      ensures standings == old(standings) && order == old(order) && matches == old(matches)
      ensures swissPairings == old(swissPairings)
    {
      var n0 := |players|;
      if n0 >= 1 {
        NextPow2Least(n0, n0);
      }
      while LowBitTest(|players|) != 0
        invariant old(players) <= players && forall p :: p in players ==> p in old(players)
        invariant n0 >= 1 ==> |players| <= NextPow2(n0) && IsPow2(NextPow2(n0))
        invariant n0 == 0 ==> players == []
        invariant standings == old(standings) && order == old(order) && matches == old(matches)
        invariant swissPairings == old(swissPairings) && Valid()
        decreases NextPow2(n0) - |players|
      {
        LowBitTestZero(|players|);
        assert |players| < NextPow2(n0);
        players := players + [players[pick(|players|) % |players|]];
      }
      LowBitTestZero(|players|);
      if n0 >= 1 {
        assert IsPow2(|players|) && n0 <= |players|;
        NextPow2Least(n0, |players|);
      }
    }

    /** One pair of a knockout round: a match between two names, or a bye for a name paired with itself. */
    method PlayPair(player1: string, player2: string, matchId: string, mover: Mover, fuel: nat)
      returns (winner: Option<string>, ghost played: seq<MatchResult>)
      requires Valid() && player1 in players && player2 in players
      modifies this
      ensures Valid() && players == old(players) && order == old(order) && swissPairings == old(swissPairings)
      ensures winner.Some? ==> winner.value == player1 || winner.value == player2
      ensures winner.Some? ==> PairPlayed(player1, player2, matchId, config.bestOf, played, winner.value)
      ensures winner.None? ==> player1 != player2 && played == []
      ensures AmongKeys(played, old(standings)) && matches == old(matches) + played
      ensures standings == AfterMatches(old(standings), played)
    {
      played := [];
      if player1 != player2 {
        ghost var starts, plies;
        var result;
        result, starts, plies := PlayMatch(player1, player2, matchId, mover, fuel);
        if result.None? {
          return None, played;
        }
        AfterMatchesSnoc(old(standings), [], result.value);
        assert [] + [result.value] == [result.value];
        played := [result.value];
        winner := Some(result.value.winner);
      } else {
        winner := Some(player1);
      }
    }

    /** The pair at `i` of a knockout round: `current[i]` against the next name, or a bye. */
    method PlayRoundPair(current: seq<string>, roundNum: nat, i: nat, next: seq<string>, ghost pairs: seq<seq<MatchResult>>,
                         ghost st0: map<string, Standing>, ghost ms0: seq<MatchResult>, mover: Mover, fuel: nat)
      returns (winner: Option<string>, ghost played: seq<MatchResult>)
      requires Valid() && (forall c :: c in current ==> c in players) && i == 2 * |next| && i < |current|
      requires RoundSoFar(current, roundNum, config.bestOf, next, pairs, st0, ms0, standings, matches)
      modifies this
      ensures Valid() && players == old(players) && order == old(order) && swissPairings == old(swissPairings)
      ensures winner.None? ==> RoundSoFar(current, roundNum, config.bestOf, next, pairs, st0, ms0, standings, matches)
      ensures winner.Some? ==>
        winner.value in players
        && RoundSoFar(current, roundNum, config.bestOf, next + [winner.value], pairs + [played], st0, ms0,
                      standings, matches)
    {
      var player1 := current[i];
      var player2 := if i + 1 < |current| then current[i + 1] else player1;
      assert player2 == PartnerAt(current, i) && i / 2 == |next|;
      winner, played := PlayPair(player1, player2, EliminationId(roundNum, i / 2 + 1), mover, fuel);
      if winner.None? {
        assert old(matches) + played == old(matches);
        return;
      }
      RoundSoFarSnoc(current, roundNum, config.bestOf, next, pairs, st0, ms0, old(standings), old(matches),
                     played, winner.value);
    }

    /**
     * One round of `_run_single_elimination`: consecutive names are paired, a pair of equal
     * names (or a last name without partner) advances as a bye, match `R{round}M{i // 2 + 1}`
     * decides the others. `finished` is false when a match did not finish.
     */
    method PlayRound(current: seq<string>, roundNum: nat, mover: Mover, fuel: nat)
      returns (next: seq<string>, finished: bool, ghost pairs: seq<seq<MatchResult>>)
      requires Valid() && forall c :: c in current ==> c in players
      modifies this
      ensures Valid() && players == old(players) && order == old(order) && swissPairings == old(swissPairings)
      ensures forall c :: c in next ==> c in players
      ensures RoundSoFar(current, roundNum, config.bestOf, next, pairs, old(standings), old(matches), standings, matches)
      ensures finished <==> |current| <= 2 * |next|
      ensures finished && |current| % 2 == 0 ==> Advances(current, next)
    {
      next := [];
      pairs := [];
      var i := 0;
      while i < |current|
        invariant Valid() && players == old(players) && order == old(order) && swissPairings == old(swissPairings)
        invariant i == 2 * |next| && i <= |current| + 1
        invariant forall c :: c in next ==> c in players
        invariant RoundSoFar(current, roundNum, config.bestOf, next, pairs, old(standings), old(matches), standings, matches)
        decreases |current| - i
      {
        var winner;
        ghost var played;
        winner, played := PlayRoundPair(current, roundNum, i, next, pairs, old(standings), old(matches), mover, fuel);
        if winner.None? {
          return next, false, pairs;
        }
        next := next + [winner.value];
        pairs := pairs + [played];
        i := i + 2;
      }
      finished := true;
      if |current| % 2 == 0 {
        RoundAdvances(current, roundNum, config.bestOf, next, pairs);
      }
    }

    /** `_run_single_elimination`: pad, then halve the field round by round. */
    method RunSingleElimination(mover: Mover, pick: nat -> nat, fuel: nat)
      returns (outcome: RunOutcome, ghost fields: seq<seq<string>>, ghost rounds: seq<seq<seq<MatchResult>>>)
      requires Valid()
      modifies this
      ensures Valid() && PaddedFrom(old(players), players)
      ensures |old(players)| == 0 <==> outcome.Failed?
      ensures outcome.Done? ==>
        KnockoutRun(players, config.bestOf, old(standings), old(matches), fields, rounds,
                    outcome.results.champion, standings, matches)
        && outcome.results == CompileResults(outcome.results.champion)
      ensures outcome.Done? && old(matches) == [] ==>
        outcome.results.totalRounds == Busy(RoundMatches(rounds)) <= |rounds|
        && |players| == Pow2(|rounds|) && outcome.results.champion in players
    {
      PadPlayers(pick);
      if |players| == 0 {
        return Failed("list index out of range"), [], [];
      }
      NextPow2Least(|old(players)|, |old(players)|);
      var champion;
      champion, fields, rounds := PlayRounds(mover, fuel);
      if champion.None? {
        return Unfinished, fields, rounds;
      }
      if old(matches) == [] {
        KnockoutRoundCount(players, config.bestOf, old(standings), fields, rounds, champion.value, standings, matches);
      }
      return Done(CompileResults(champion.value)), fields, rounds;
    }

    /** The round loop of `_run_single_elimination`: halve the field until one name is left. */
    method PlayRounds(mover: Mover, fuel: nat)
      returns (champion: Option<string>, ghost fields: seq<seq<string>>, ghost rounds: seq<seq<seq<MatchResult>>>)
      requires Valid() && IsPow2(|players|)
      modifies this
      ensures Valid() && players == old(players) && order == old(order) && swissPairings == old(swissPairings)
      ensures champion.Some? ==>
        KnockoutRun(players, config.bestOf, old(standings), old(matches), fields, rounds, champion.value,
                    standings, matches)
    {
      var current := players;
      var roundNum: nat := 1;
      fields := [current];
      rounds := [];
      while |current| > 1
        invariant Valid() && players == old(players) && order == old(order) && swissPairings == old(swissPairings)
        invariant IsPow2(|current|) && forall c :: c in current ==> c in players
        invariant roundNum == |fields|
        invariant KnockoutSoFar(players, config.bestOf, old(standings), old(matches), fields, rounds, current,
                                standings, matches)
        decreases |current|
      {
        Pow2Even(|current|);
        ghost var st, ms := standings, matches;
        var next, finished;
        ghost var pairs;
        next, finished, pairs := PlayRound(current, roundNum, mover, fuel);
        if !finished {
          return None, fields, rounds;
        }
        assert |current| <= 2 * |next| <= |current| + 1;
        assert |next| == |current| / 2;
        KnockoutSoFarSnoc(players, config.bestOf, old(standings), old(matches), fields, rounds, current, st, ms,
                          next, pairs, standings, matches);
        current := next;
        fields := fields + [current];
        rounds := rounds + [pairs];
        roundNum := roundNum + 1;
      }
      assert |current| == 1 by {
        assert IsPow2(|current|);
      }
      champion := Some(current[0]);
      assert current == [current[0]];
    }

    /** `_run_double_elimination` is the single elimination run. */
    method RunDoubleElimination(mover: Mover, pick: nat -> nat, fuel: nat)
      returns (outcome: RunOutcome, ghost fields: seq<seq<string>>, ghost rounds: seq<seq<seq<MatchResult>>>)
      requires Valid()
      modifies this
      ensures Valid() && PaddedFrom(old(players), players)
      ensures |old(players)| == 0 <==> outcome.Failed?
      ensures outcome.Done? ==>
        KnockoutRun(players, config.bestOf, old(standings), old(matches), fields, rounds,
                    outcome.results.champion, standings, matches)
        && outcome.results == CompileResults(outcome.results.champion)
      ensures outcome.Done? && old(matches) == [] ==>
        outcome.results.totalRounds == Busy(RoundMatches(rounds)) <= |rounds|
        && |players| == Pow2(|rounds|) && outcome.results.champion in players
    {
      outcome, fields, rounds := RunSingleElimination(mover, pick, fuel);
    }

    /**
     * The match loop of `_run_round_robin` and `_run_swiss`: match `ids[i]` for pair `i`.
     * A name that is not a player's stops the loop with `StopIteration`, as looking the
     * player up does; a match without a decision stops it as `Unfinished`. Whatever
     * stops it, the matches played so far are appended and recorded in the standings.
     */
    method PlayPairings(pairings: seq<(string, string)>, ids: seq<string>, mover: Mover, fuel: nat)
      returns (played: seq<MatchResult>, stop: Option<RunOutcome>)
      requires Valid() && |ids| == |pairings|
      modifies this
      ensures Valid() && players == old(players) && order == old(order) && swissPairings == old(swissPairings)
      ensures PairingsSoFar(pairings, ids, config.bestOf, played, old(standings), old(matches), standings, matches)
      ensures stop.None? <==> |played| == |pairings|
      ensures stop.None? || stop == Some(Unfinished) || stop == Some(Failed("StopIteration"))
      ensures stop == Some(Failed("StopIteration")) ==>
        |played| < |pairings| && (pairings[|played|].0 !in players || pairings[|played|].1 !in players)
      ensures (forall p :: p in pairings ==> p.0 in players && p.1 in players) ==>
        stop != Some(Failed("StopIteration"))
    {
      played := [];
      var i := 0;
      while i < |pairings|
        invariant i == |played| <= |pairings|
        invariant Valid() && players == old(players) && order == old(order) && swissPairings == old(swissPairings)
        invariant PairingsSoFar(pairings, ids, config.bestOf, played, old(standings), old(matches), standings, matches)
      {
        var player1, player2 := pairings[i].0, pairings[i].1;
        if player1 !in players || player2 !in players {
          assert pairings[i] in pairings;
          return played, Some(Failed("StopIteration"));
        }
        ghost var st, ms := standings, matches;
        ghost var starts, plies;
        var result;
        result, starts, plies := PlayMatch(player1, player2, ids[i], mover, fuel);
        if result.None? {
          return played, Some(Unfinished);
        }
        PairingsSoFarSnoc(pairings, ids, config.bestOf, played, old(standings), old(matches), st, ms, result.value);
        played := played + [result.value];
        i := i + 1;
      }
      return played, None;
    }

    /**
     * `_run_round_robin`: one match `RR{n}` for each pair of `itertools.combinations`, then
     * the first entry with the highest `(points, games_won)` is champion.
     */
    method RunRoundRobin(mover: Mover, fuel: nat) returns (outcome: RunOutcome, ghost played: seq<MatchResult>)
      requires Valid()
      modifies this
      ensures Valid() && players == old(players) && order == old(order)
      ensures !(outcome.Failed? && outcome.error == "StopIteration")
      ensures outcome.Failed? ==> order == [] && outcome.error == "max() arg is an empty sequence"
      ensures outcome.Done? ==>
        RoundRobinRun(players, order, config.bestOf, old(standings), old(matches), played,
                      outcome.results.champion, standings, matches)
        && outcome.results == CompileResults(outcome.results.champion)
        && forall k :: k in order ==>
             !KeyLess(PointsGamesKey(standings)(outcome.results.champion), PointsGamesKey(standings)(k))
      ensures outcome.Done? && old(matches) == [] ==>
        2 * outcome.results.totalMatches == |players| * (|players| - 1)
        && outcome.results.totalRounds == outcome.results.totalMatches
        && outcome.results.totalGames >= WinsNeeded(config.bestOf) * outcome.results.totalMatches
        && Total(order, standings, Points) == Total(order, old(standings), Points) + 4 * |matches|
    {
      var pairings := Combinations.Pairs(players);
      forall p | p in pairings ensures p.0 in players && p.1 in players {
        Combinations.PairsMembers(players, p.0, p.1);
      }
      var stop;
      played, stop := PlayPairings(pairings, RoundRobinIds(|pairings|), mover, fuel);
      if stop.Some? {
        return stop.value, played;
      }
      assert pairings[..|played|] == pairings && RoundRobinIds(|pairings|)[..|played|] == RoundRobinIds(|pairings|);
      if |order| == 0 {
        return Failed("max() arg is an empty sequence"), played;
      }
      var champion := MaxOf(order, PointsGamesKey(standings));
      MaxOfIsFirstMaximum(order, PointsGamesKey(standings), 2);
      if old(matches) == [] {
        RoundRobinTotals(players, order, config.bestOf, old(standings), played, champion, standings, matches);
      }
      return Done(CompileResults(champion)), played;
    }

    /**
     * `_generate_swiss_pairings`: round one pairs consecutive names of a shuffled copy of
     * the players; later rounds sort the standings by `(points, games_won)`, best first,
     * pair greedily and give a leftover player a bye worth 2 points.
     */
    method GenerateSwissPairings(roundNum: int, pick: nat -> nat) returns (pairs: seq<(string, string)>)
      requires Valid()
      modifies this
      ensures Valid() && players == old(players) && order == old(order) && matches == old(matches)
      ensures swissPairings == old(swissPairings)
      ensures roundNum == 1 ==> pairs == AdjacentPairs(Shuffle.Shuffled(players, pick)) && standings == old(standings)
      ensures roundNum != 1 ==>
        var g := Greedy(SortDesc(order, PointsGamesKey(old(standings))), old(standings));
        pairs == g.0 && standings == WithBye(old(standings), g.1)
      ensures SwissSeeding(roundNum, Shuffle.Shuffled(players, pick), order, old(standings), pairs, standings)
    {
      if roundNum == 1 {
        pairs := AdjacentPairs(Shuffle.Shuffled(players, pick));
        SeedingFirst(Shuffle.Shuffled(players, pick), order, standings);
        return;
      }
      var sorted := SortDesc(order, PointsGamesKey(standings));
      var unpaired;
      pairs, unpaired := PairByPoints(sorted, standings);
      SeedingLater(roundNum, Shuffle.Shuffled(players, pick), order, standings, pairs, unpaired);
      standings := WithBye(standings, unpaired);
    }

    /**
     * One Swiss round: generate the pairings, record them, then play match `S{round}M{i + 1}`
     * per pair on top of the seeded standings `seed`.
     */
    method PlaySwissRound(roundNum: nat, pick: nat -> nat, mover: Mover, fuel: nat)
      returns (pairings: seq<(string, string)>, stop: Option<RunOutcome>,
               ghost seed: map<string, Standing>, ghost played: seq<MatchResult>)
      requires Valid()
      modifies this
      ensures Valid() && players == old(players) && order == old(order)
      ensures swissPairings == old(swissPairings) + [pairings]
      ensures roundNum == 1 ==> pairings == AdjacentPairs(Shuffle.Shuffled(players, pick))
      ensures SwissSeeding(roundNum, Shuffle.Shuffled(players, pick), order, old(standings), pairings, seed)
      ensures PairingsSoFar(pairings, SwissIds(roundNum, |pairings|), config.bestOf, played, seed, old(matches),
                            standings, matches)
      ensures stop.None? <==> |played| == |pairings|
      ensures stop.None? ==> SwissRoundPlayed(roundNum, config.bestOf, seed, pairings, played, standings)
      ensures stop.None? || stop == Some(Unfinished) || stop == Some(Failed("StopIteration"))
    {
      pairings := GenerateSwissPairings(roundNum, pick);
      seed := standings;
      swissPairings := swissPairings + [pairings];
      played, stop := PlayPairings(pairings, SwissIds(roundNum, |pairings|), mover, fuel);
      if stop.None? {
        assert pairings[..|played|] == pairings;
        assert SwissIds(roundNum, |pairings|)[..|played|] == SwissIds(roundNum, |pairings|);
      }
    }

    /**
     * Rounds `1..numRounds` of a Swiss tournament, stopping at the first round that cannot
     * finish; round `r` shuffles with `pick(r)`.
     */
    method PlaySwissRounds(numRounds: int, pick: nat -> (nat -> nat), mover: Mover, fuel: nat)
      returns (stop: Option<RunOutcome>, ghost stands: seq<map<string, Standing>>,
               ghost seeded: seq<map<string, Standing>>, ghost rounds: seq<seq<MatchResult>>)
      requires Valid()
      modifies this
      ensures Valid() && players == old(players) && order == old(order)
      ensures stop.None? || stop == Some(Unfinished) || stop == Some(Failed("StopIteration"))
      ensures stop.None? ==>
        SwissRounds(config.bestOf, old(swissPairings), stands, seeded, rounds, swissPairings)
        && SwissSeedings(players, order, pick, old(swissPairings), stands, seeded, swissPairings)
        && |rounds| == Max0(numRounds) && stands[0] == old(standings) && stands[|rounds|] == standings
        && matches == old(matches) + Py.Concat(rounds)
        && old(swissPairings) <= swissPairings
        && |swissPairings| == |old(swissPairings)| + Max0(numRounds)
    {
      var roundNum := 1;
      stands, seeded, rounds := [standings], [], [];
      while roundNum <= numRounds
        invariant 1 <= roundNum <= Max0(numRounds) + 1 && |rounds| == roundNum - 1
        invariant Valid() && players == old(players) && order == old(order)
        invariant SwissRounds(config.bestOf, old(swissPairings), stands, seeded, rounds, swissPairings)
        invariant SwissSeedings(players, order, pick, old(swissPairings), stands, seeded, swissPairings)
        invariant stands[0] == old(standings) && stands[|rounds|] == standings
        invariant matches == old(matches) + Py.Concat(rounds)
        decreases numRounds - roundNum
      {
        ghost var sp, ms := swissPairings, matches;
        var pairings;
        ghost var seed, played;
        pairings, stop, seed, played := PlaySwissRound(roundNum, pick(roundNum), mover, fuel);
        if stop.Some? {
          return;
        }
        SwissRoundsSnoc(config.bestOf, old(swissPairings), stands, seeded, rounds, sp, seed, pairings, played,
                        standings);
        SwissSeedingsSnoc(players, order, pick, old(swissPairings), stands, seeded, sp, seed, pairings, standings);
        Py.ConcatSnoc(rounds, played);
        Py.AppendAssoc(old(matches), Py.Concat(rounds), played);
        stands, seeded, rounds := stands + [standings], seeded + [seed], rounds + [played];
        roundNum := roundNum + 1;
      }
      assert Max0(numRounds) == roundNum - 1;
      return None, stands, seeded, rounds;
    }

    /**
     * `_run_swiss`: `min(max_rounds, ceil(log2 n))` rounds of Swiss pairings, then the first
     * entry with the highest `(points, games_won, wins)`. With no players the logarithm
     * raises a domain error.
     */
    method RunSwiss(mover: Mover, pick: nat -> (nat -> nat), fuel: nat)
      returns (outcome: RunOutcome, ghost stands: seq<map<string, Standing>>,
               ghost seeded: seq<map<string, Standing>>, ghost rounds: seq<seq<MatchResult>>)
      requires Valid()
      modifies this
      ensures Valid() && players == old(players) && order == old(order)
      ensures |players| == 0 <==> outcome == Failed("math domain error")
      ensures outcome.Failed? ==> outcome.error in {"math domain error", "StopIteration", "max() arg is an empty sequence"}
      ensures outcome.Done? ==>
        SwissRun(players, order, config.bestOf, config.maxRounds, pick, old(standings), old(matches),
                 old(swissPairings), stands, seeded, rounds, outcome.results.champion, standings, matches,
                 swissPairings)
        && old(swissPairings) <= swissPairings
        && |swissPairings| == |old(swissPairings)| + Max0(Min(config.maxRounds, CeilLog2(|players|)))
        && outcome.results == CompileResults(outcome.results.champion)
        && forall k :: k in order ==>
             !KeyLess(SwissChampionKey(standings)(outcome.results.champion), SwissChampionKey(standings)(k))
      ensures outcome.Done? && old(matches) == [] ==>
        outcome.results.totalRounds == Busy(rounds) <= Max0(Min(config.maxRounds, CeilLog2(|players|)))
    {
      if |players| == 0 {
        return Failed("math domain error"), [], [], [];
      }
      var stop;
      stop, stands, seeded, rounds := PlaySwissRounds(Min(config.maxRounds, CeilLog2(|players|)), pick, mover, fuel);
      if stop.Some? {
        return stop.value, stands, seeded, rounds;
      }
      if |order| == 0 {
        return Failed("max() arg is an empty sequence"), stands, seeded, rounds;
      }
      var champion := MaxOf(order, SwissChampionKey(standings));
      MaxOfIsFirstMaximum(order, SwissChampionKey(standings), 3);
      if old(matches) == [] {
        SwissRoundCount(players, order, config.bestOf, config.maxRounds, pick, old(standings), old(swissPairings),
                        stands, seeded, rounds, champion, standings, matches, swissPairings);
      }
      return Done(CompileResults(champion)), stands, seeded, rounds;
    }

    /** `_estimate_total_rounds`, the round count announced when the run starts. */
    function EstimateTotalRounds(): (r: int)
      reads this
      requires config.format == SingleElimination || config.format == Swiss ==> |players| >= 1
      ensures config.format == SingleElimination ==>
        r >= 0 && |players| <= Pow2(r) && (r > 0 ==> Pow2(r - 1) < |players|)
      ensures config.format == RoundRobin ==> r == |players| - 1
      ensures config.format == Swiss ==> r == Min(config.maxRounds, CeilLog2(|players|))
      ensures config.format == DoubleElimination ==> r == |players|
    {
      match config.format
      case SingleElimination =>
        CeilLog2Bounds(|players|);
        CeilLog2(|players|)
      case RoundRobin => |players| - 1
      case Swiss => Min(config.maxRounds, CeilLog2(|players|))
      case DoubleElimination => |players|
    }

    /** `_compile_results`: the summary dictionary of the whole run. */
    function CompileResults(champion: string): (r: Results)
      reads this
      ensures r.champion == champion && r.participants == players && r.standings == standings
      ensures r.totalMatches == |matches| && r.totalRounds == |RoundLabels(matches)|
      ensures r.totalRounds <= r.totalMatches
      ensures r.totalGames == SumGames(matches) && r.matches == Summaries(matches)
      ensures r.format == FormatValue(config.format) && r.bestOf == config.bestOf
      ensures r.gameConfig == ToDict(config.gameConfig)
    {
      RoundLabelsBound(matches);
      Results(FormatValue(config.format), champion, |RoundLabels(matches)|, |matches|, SumGames(matches),
              players, standings, Summaries(matches), config.bestOf, ToDict(config.gameConfig))
    }

    /** `run_tournament`: refuse fewer than two players, then run the configured format. */
    method RunTournament(mover: Mover, pad: nat -> nat, swissShuffle: nat -> (nat -> nat), fuel: nat)
      returns (outcome: RunOutcome, ghost trace: Trace)
      requires Valid()
      modifies this
      ensures Valid()
      ensures |old(players)| < 2 <==> outcome == Failed("Need at least 2 players for a tournament")
      ensures |old(players)| >= 2 && config.format != Swiss ==> !outcome.Failed?
      ensures |old(players)| >= 2 && outcome.Failed? ==> outcome.error in {"StopIteration", "max() arg is an empty sequence"}
      ensures outcome.Done? ==> outcome.results == CompileResults(outcome.results.champion)
      ensures outcome.Done? && config.format in {SingleElimination, DoubleElimination} ==>
        trace.Knockout? && PaddedFrom(old(players), players)
        && KnockoutRun(players, config.bestOf, old(standings), old(matches), trace.fields, trace.knockoutRounds,
                       outcome.results.champion, standings, matches)
      ensures outcome.Done? && config.format == RoundRobin ==>
        trace.League?
        && RoundRobinRun(players, order, config.bestOf, old(standings), old(matches), trace.played,
                         outcome.results.champion, standings, matches)
      ensures outcome.Done? && config.format == Swiss ==>
        trace.SwissPlay?
        && SwissRun(players, order, config.bestOf, config.maxRounds, swissShuffle, old(standings), old(matches),
                    old(swissPairings), trace.stands, trace.seeded, trace.swissRounds, outcome.results.champion,
                    standings, matches, swissPairings)
    {
      if |players| < 2 {
        return Failed("Need at least 2 players for a tournament"), NoTrace;
      }
      assert players[0] in standings;
      match config.format
      case SingleElimination =>
        ghost var fields, rounds;
        outcome, fields, rounds := RunSingleElimination(mover, pad, fuel);
        trace := Knockout(fields, rounds);
      case RoundRobin =>
        ghost var played;
        outcome, played := RunRoundRobin(mover, fuel);
        trace := League(played);
      case Swiss =>
        ghost var stands, seeded, rounds;
        outcome, stands, seeded, rounds := RunSwiss(mover, swissShuffle, fuel);
        trace := SwissPlay(stands, seeded, rounds);
      case DoubleElimination =>
        ghost var fields, rounds;
        outcome, fields, rounds := RunDoubleElimination(mover, pad, fuel);
        trace := Knockout(fields, rounds);
    }
  }

  function Min(a: int, b: int): int
  {
    if a <= b then a else b
  }

  /** How many times `range(1, n + 1)` iterates. */
  function Max0(n: int): nat
  {
    if n < 0 then 0 else n
  }
}
