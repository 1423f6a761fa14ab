/**
 * The rules of Rock Paper Scissors Royale and the pure helpers around them: the three
 * moves and three results, who wins a round, reading a move from text, how many matches
 * each tournament format expects, and the per-match statistics written when a match ends
 * (draw count, move frequencies and win/loss streaks).
 */
module RpsRules {
  import opened Wrappers
  import opened Py
  import opened PowersOfTwo
  import Combinations

  datatype Move = Rock | Paper | Scissors

  datatype GameResult = Win | Loss | Draw

  /** `Move.value`. */
  function Value(m: Move): string
  {
    match m
    case Rock => "rock"
    case Paper => "paper"
    case Scissors => "scissors"
  }

  /** The result the other player gets. */
  function Opposite(r: GameResult): GameResult
  {
    match r
    case Win => Loss
    case Loss => Win
    case Draw => Draw
  }

  /** The set `winning_combinations`: rock beats scissors, paper beats rock, scissors beat paper. */
  predicate Beats(a: Move, b: Move)
  {
    (a == Rock && b == Scissors) || (a == Paper && b == Rock) || (a == Scissors && b == Paper)
  }

  /** Position on the cycle rock, paper, scissors. */
  function CyclePos(m: Move): int
  {
    match m
    case Rock => 0
    case Paper => 1
    case Scissors => 2
  }

  /** The winning table is the cyclic rule: a move beats the one just before it on the cycle. */
  lemma BeatsIsCyclic(a: Move, b: Move)
    ensures Beats(a, b) <==> (CyclePos(a) - CyclePos(b)) % 3 == 1
  {
  }

  /** For any two moves exactly one of "equal", "first beats second", "second beats first" holds. */
  lemma BeatsTrichotomy(a: Move, b: Move)
    ensures a == b || Beats(a, b) || Beats(b, a)
    ensures !(Beats(a, b) && Beats(b, a)) && !Beats(a, a)
  {
  }

  /** `determine_winner`: the results of player 1 and player 2 for one round. */
  function DetermineWinner(m1: Move, m2: Move): (r: (GameResult, GameResult))
    ensures r.0 == Draw <==> m1 == m2
    ensures r.1 == Draw <==> m1 == m2
    ensures r.0 == Win <==> Beats(m1, m2)
    ensures r.1 == Win <==> Beats(m2, m1)
    ensures r.1 == Opposite(r.0)
  {
    if m1 == m2 then (Draw, Draw)
    else if Beats(m1, m2) then (Win, Loss)
    else (Loss, Win)
  }

  /** Swapping the players swaps the two results. */
  lemma DetermineWinnerSwap(a: Move, b: Move)
    ensures DetermineWinner(b, a) == (DetermineWinner(a, b).1, DetermineWinner(a, b).0)
  {
  }

  // ----- parse_move -----

  /** The table `move_mappings`. */
  const MoveMappings: map<string, Move> :=
    map["rock" := Rock, "r" := Rock, "stone" := Rock,
        "paper" := Paper, "p" := Paper,
        "scissors" := Scissors, "s" := Scissors, "scissor" := Scissors]

  /** Every spelling of a move that `parse_move` accepts. */
  function Spellings(m: Move): set<string>
  {
    match m
    case Rock => {"rock", "r", "stone"}
    case Paper => {"paper", "p"}
    case Scissors => {"scissors", "s", "scissor"}
  }

  /** `s.lower().strip()`. */
  function Clean(s: string): string
  {
    Strip(Lower(s))
  }

  /** The table lists exactly the spellings, each under its own move. */
  lemma MappingsAreSpellings(t: string)
    ensures t in MoveMappings <==> t in Spellings(Rock) || t in Spellings(Paper) || t in Spellings(Scissors)
    ensures t in MoveMappings ==> t in Spellings(MoveMappings[t])
  {
  }

  /** `parse_move`: an Err stands for the ValueError it raises. */
  function ParseMove(s: string): (r: Result<Move>)
    ensures r.Ok? ==> Clean(s) in Spellings(r.value)
    ensures r.Err? <==> forall m :: Clean(s) !in Spellings(m)
    ensures r.Err? ==> r.message == "Invalid move: " + Clean(s)
  {
    var t := Clean(s);
    MappingsAreSpellings(t);
    if t in MoveMappings then Ok(MoveMappings[t]) else Err("Invalid move: " + t)
  }

  lemma {:induction false} LowerNoop(s: string)
    requires forall i :: 0 <= i < |s| ==> !IsUpper(s[i])
    ensures Lower(s) == s
  {
    assert forall i :: 0 <= i < |s| ==> Lower(s)[i] == s[i];
  }

  /** Cleaning is idempotent, so cleaning text twice, as the agents do, changes nothing. */
  lemma CleanIdempotent(s: string)
    ensures Clean(Clean(s)) == Clean(s)
  {
    var l := Lower(s);
    var t := Strip(l);
    forall i | 0 <= i < |t| ensures !IsUpper(t[i]) {
      StripChar(l, i);
    }
    LowerNoop(t);
    StripIdempotent(l);
  }

  /** `parse_move(m.value)` gives back `m`. */
  lemma ParseMoveValue(m: Move)
    ensures ParseMove(Value(m)) == Ok(m)
  {
    LowerNoop(Value(m));
    TrimLeftNoop(Value(m));
    TrimRightNoop(Value(m));
  }

  /** Text that is already clean parses the same as the raw text. */
  lemma ParseMoveClean(s: string)
    ensures ParseMove(Clean(s)) == ParseMove(s)
  {
    CleanIdempotent(s);
  }

  // ----- _calculate_expected_matches -----

  lemma ConsecutiveProductEven(n: int)
    ensures (n * (n - 1)) % 2 == 0
  {
    if n % 2 == 0 {
      assert n * (n - 1) == 2 * ((n / 2) * (n - 1));
    } else {
      assert n * (n - 1) == 2 * (n * ((n - 1) / 2));
    }
  }

  /** `_calculate_expected_matches` for `n` participants. */
  function ExpectedMatches(n: nat, tournamentType: string): (r: int)
    ensures tournamentType == "round_robin" ==> 2 * r == n * (n - 1)
    ensures tournamentType == "single_elimination" ==> r >= 1
    ensures tournamentType != "round_robin" && tournamentType != "single_elimination" ==> r == n
  {
    ConsecutiveProductEven(n);
    if tournamentType == "round_robin" then n * (n - 1) / 2
    else if tournamentType == "single_elimination" then
      (if n > 1 then NextPow2(n) else 2) - 1
    else n
  }

  /** Round robin expects one match per pair that `itertools.combinations(agents, 2)` lists. */
  lemma ExpectedRoundRobin<T>(agents: seq<T>)
    ensures ExpectedMatches(|agents|, "round_robin") == |Combinations.Pairs(agents)|
  {
    Combinations.PairsCount(agents);
  }

  /**
   * Single elimination expects one match fewer than the bracket size, which is the smallest
   * power of two that holds every participant and is at least 2.
   */
  lemma ExpectedSingleElimination(n: nat, m: int)
    ensures IsPow2(ExpectedMatches(n, "single_elimination") + 1)
    ensures 2 <= ExpectedMatches(n, "single_elimination") + 1 && n <= ExpectedMatches(n, "single_elimination") + 1
    ensures IsPow2(m) && m >= 2 && n <= m ==> ExpectedMatches(n, "single_elimination") + 1 <= m
  {
    if n > 1 {
      NextPow2Least(n, m);
      NextPow2Least(n, 2);
    } else {
      assert IsPow2(2) by {
        Pow2IsPow2(1);
      }
    }
  }

  // ----- per-round results and streaks (_calculate_streaks) -----

  /** The inline win test of `_calculate_streaks`, from the player's side. */
  function RoundOutcome(p: Move, o: Move): (r: GameResult)
    ensures r == DetermineWinner(p, o).0
  {
    if p == o then Draw
    else if (p == Rock && o == Scissors) || (p == Paper && o == Rock) || (p == Scissors && o == Paper) then Win
    else Loss
  }

  /** The list `results`: the player's result in each round. */
  function Outcomes(player: seq<Move>, opponent: seq<Move>): (rs: seq<GameResult>)
    requires |player| <= |opponent|
    ensures |rs| == |player|
    ensures forall i :: 0 <= i < |player| ==> rs[i] == DetermineWinner(player[i], opponent[i]).0
  {
    seq(|player|, i requires 0 <= i < |player| => RoundOutcome(player[i], opponent[i]))
  }

  /** The length of the run of `x` that ends `rs`. */
  function TrailingRun(rs: seq<GameResult>, x: GameResult): (n: nat)
    ensures n <= |rs|
  {
    if rs == [] || rs[|rs| - 1] != x then 0 else TrailingRun(rs[..|rs| - 1], x) + 1
  }

  function Max(a: int, b: int): int
  {
    if a >= b then a else b
  }

  /** The length of the longest run of `x` anywhere in `rs`. */
  function LongestRun(rs: seq<GameResult>, x: GameResult): (n: nat)
    ensures TrailingRun(rs, x) <= n <= |rs|
  {
    if rs == [] then 0 else Max(LongestRun(rs[..|rs| - 1], x), TrailingRun(rs, x))
  }

  /** `rs[i..i + k]` is a run of `x`. */
  predicate RunAt(rs: seq<GameResult>, x: GameResult, i: nat, k: nat)
  {
    i + k <= |rs| && forall j :: i <= j < i + k ==> rs[j] == x
  }

  lemma {:induction false} TrailingRunIsRun(rs: seq<GameResult>, x: GameResult)
    ensures RunAt(rs, x, |rs| - TrailingRun(rs, x), TrailingRun(rs, x))
  {
    if rs != [] && rs[|rs| - 1] == x {
      var pre := rs[..|rs| - 1];
      TrailingRunIsRun(pre, x);
      assert forall j :: |pre| - TrailingRun(pre, x) <= j < |pre| ==> rs[j] == pre[j];
    }
  }

  lemma {:induction false} TrailingRunAtLeast(rs: seq<GameResult>, x: GameResult, k: nat)
    requires k <= |rs| && RunAt(rs, x, |rs| - k, k)
    ensures k <= TrailingRun(rs, x)
  {
    if k > 0 {
      var pre := rs[..|rs| - 1];
      assert RunAt(pre, x, |pre| - (k - 1), k - 1) by {
        assert forall j :: |pre| - (k - 1) <= j < |pre| ==> pre[j] == rs[j];
      }
      TrailingRunAtLeast(pre, x, k - 1);
    }
  }

  /** No run of `x` in `rs` is longer than LongestRun. */
  lemma {:induction false} LongestRunIsLongest(rs: seq<GameResult>, x: GameResult, i: nat, k: nat)
    requires RunAt(rs, x, i, k)
    ensures k <= LongestRun(rs, x)
  {
    if rs != [] {
      var pre := rs[..|rs| - 1];
      if i + k < |rs| {
        assert RunAt(pre, x, i, k) by {
          assert forall j :: i <= j < i + k ==> pre[j] == rs[j];
        }
        LongestRunIsLongest(pre, x, i, k);
      } else {
        TrailingRunAtLeast(rs, x, k);
      }
    }
  }

  /** LongestRun is the length of an actual run of `x` in `rs`. */
  lemma {:induction false} LongestRunAttained(rs: seq<GameResult>, x: GameResult)
    ensures exists i: nat :: RunAt(rs, x, i, LongestRun(rs, x))
  {
    if rs == [] {
      assert RunAt(rs, x, 0, LongestRun(rs, x));
    } else {
      var pre := rs[..|rs| - 1];
      if LongestRun(rs, x) == TrailingRun(rs, x) {
        TrailingRunIsRun(rs, x);
      } else {
        LongestRunAttained(pre, x);
        var i: nat :| RunAt(pre, x, i, LongestRun(pre, x));
        assert RunAt(rs, x, i, LongestRun(rs, x)) by {
          assert forall j :: i <= j < i + LongestRun(pre, x) ==> pre[j] == rs[j];
        }
      }
    }
  }

  /** The dictionary `_calculate_streaks` returns; the early exit for an empty history has no `streak_type`. */
  datatype Streaks = Streaks(longestWin: nat, longestLoss: nat, current: int, streakType: Option<string>)

  /** `-current_loss_streak` after a loss, `current_win_streak` after a win, 0 after a draw. */
  function CurrentStreak(rs: seq<GameResult>): int
  {
    if rs == [] then 0
    else if rs[|rs| - 1] == Win then TrailingRun(rs, Win)
    else if rs[|rs| - 1] == Loss then -(TrailingRun(rs, Loss) as int)
    else 0
  }

  function StreakType(current: int): string
  {
    if current > 0 then "win" else if current < 0 then "loss" else "none"
  }

  /** The streak summary of a non-empty list of per-round results. */
  function StreaksOf(rs: seq<GameResult>): Streaks
  {
    var c := CurrentStreak(rs);
    Streaks(LongestRun(rs, Win), LongestRun(rs, Loss), c, Some(StreakType(c)))
  }

  /**
   * The current streak is positive exactly after a win and negative exactly after a loss,
   * its size never exceeds the longest streak of its kind, and the longest streaks fit in
   * the match.
   */
  lemma StreaksOfBounds(rs: seq<GameResult>)
    requires rs != []
    ensures StreaksOf(rs).current > 0 <==> rs[|rs| - 1] == Win
    ensures StreaksOf(rs).current < 0 <==> rs[|rs| - 1] == Loss
    ensures StreaksOf(rs).current > 0 ==> StreaksOf(rs).current <= StreaksOf(rs).longestWin
    ensures StreaksOf(rs).current < 0 ==> -StreaksOf(rs).current <= StreaksOf(rs).longestLoss
    ensures StreaksOf(rs).longestWin <= |rs| && StreaksOf(rs).longestLoss <= |rs|
    ensures StreaksOf(rs).streakType == Some(if rs[|rs| - 1] == Win then "win"
                                             else if rs[|rs| - 1] == Loss then "loss" else "none")
  {
  }

  /** One step of the streak loop keeps its running counters equal to the run lengths. */
  lemma StreakStep(rs: seq<GameResult>, i: nat)
    requires i < |rs|
    ensures TrailingRun(rs[..i + 1], Win) == (if rs[i] == Win then TrailingRun(rs[..i], Win) + 1 else 0)
    ensures TrailingRun(rs[..i + 1], Loss) == (if rs[i] == Loss then TrailingRun(rs[..i], Loss) + 1 else 0)
    ensures LongestRun(rs[..i + 1], Win) == Max(LongestRun(rs[..i], Win), TrailingRun(rs[..i + 1], Win))
    ensures LongestRun(rs[..i + 1], Loss) == Max(LongestRun(rs[..i], Loss), TrailingRun(rs[..i + 1], Loss))
  {
    assert rs[..i + 1][..i] == rs[..i];
  }

  /**
   * `_calculate_streaks(player_moves, opponent_moves)`. An Err stands for the IndexError of
   * an opponent history shorter than the player's.
   */
  method CalculateStreaks(playerMoves: seq<Move>, opponentMoves: seq<Move>) returns (r: Result<Streaks>)
    ensures |playerMoves| == 0 || |opponentMoves| == 0 ==> r == Ok(Streaks(0, 0, 0, None))
    ensures r.Err? <==> 0 < |opponentMoves| < |playerMoves|
    ensures r.Ok? && |playerMoves| > 0 && |opponentMoves| > 0 ==>
      r.value == StreaksOf(Outcomes(playerMoves, opponentMoves))
  {
    if |playerMoves| == 0 || |opponentMoves| == 0 {
      return Ok(Streaks(0, 0, 0, None));
    }
    if |opponentMoves| < |playerMoves| {
      return Err("list index out of range");
    }
    var results: seq<GameResult> := [];
    for i := 0 to |playerMoves|
      invariant results == Outcomes(playerMoves, opponentMoves)[..i]
    {
      var outcome := RoundOutcome(playerMoves[i], opponentMoves[i]);
      results := results + [outcome];
    }
    assert results == Outcomes(playerMoves, opponentMoves);
    var longestWin: nat, longestLoss: nat, currentWin: nat, currentLoss: nat := 0, 0, 0, 0;
    for i := 0 to |results|
      invariant currentWin == TrailingRun(results[..i], Win) && currentLoss == TrailingRun(results[..i], Loss)
      invariant longestWin == LongestRun(results[..i], Win) && longestLoss == LongestRun(results[..i], Loss)
    {
      StreakStep(results, i);
      if results[i] == Win {
        currentWin := currentWin + 1;
        currentLoss := 0;
        longestWin := Max(longestWin, currentWin);
      } else if results[i] == Loss {
        currentLoss := currentLoss + 1;
        currentWin := 0;
        longestLoss := Max(longestLoss, currentLoss);
      } else {
        currentWin := 0;
        currentLoss := 0;
      }
    }
    assert results[..|results|] == results;
    var current: int;
    if results[|results| - 1] == Win {
      current := currentWin;
    } else if results[|results| - 1] == Loss {
      current := -(currentLoss as int);
    } else {
      current := 0;
    }
    return Ok(Streaks(longestWin, longestLoss, current, Some(StreakType(current))));
  }

  // ----- counts of log_match_end -----

  /** The three counts of a move frequency table add up to the number of moves. */
  lemma MoveCountsSum(h: seq<Move>)
    ensures multiset(h)[Rock] + multiset(h)[Paper] + multiset(h)[Scissors] == |h|
  {
    assert forall i :: 0 <= i < |h| ==> h[i].Rock? || h[i].Paper? || h[i].Scissors?;
    CountsOfThree(h, Rock, Paper, Scissors);
  }

  /** The `{"rock": .., "paper": .., "scissors": ..}` table counting each move of `history`. */
  method MoveFrequency(history: seq<Move>) returns (freq: map<string, nat>)
    ensures freq.Keys == {"rock", "paper", "scissors"}
    ensures forall m :: freq[Value(m)] == multiset(history)[m]
    ensures freq["rock"] + freq["paper"] + freq["scissors"] == |history|
  {
    freq := map["rock" := 0, "paper" := 0, "scissors" := 0];
    for i := 0 to |history|
      invariant freq.Keys == {"rock", "paper", "scissors"}
      invariant forall m :: freq[Value(m)] == multiset(history[..i])[m]
    {
      assert history[..i + 1] == history[..i] + [history[i]];
      freq := freq[Value(history[i]) := freq[Value(history[i])] + 1];
    }
    assert history[..|history|] == history;
    assert freq["rock"] == freq[Value(Rock)] && freq["paper"] == freq[Value(Paper)];
    assert freq["scissors"] == freq[Value(Scissors)];
    MoveCountsSum(history);
  }

  /** The match-level figures `log_match_end` writes. */
  datatype MatchEndCounts = MatchEndCounts(totalRounds: nat, draws: int, freq1: map<string, nat>,
                                           freq2: map<string, nat>, moveSequences: seq<(nat, Move, Move)>,
                                           streaks1: Streaks, streaks2: Streaks)

  /** Round `i + 1` of a match lists both players' moves of that round. */
  ghost predicate MoveSequencesOf(ms: seq<(nat, Move, Move)>, history1: seq<Move>, history2: seq<Move>)
  {
    |ms| == |history1| <= |history2| && forall i :: 0 <= i < |ms| ==> ms[i] == (i + 1, history1[i], history2[i])
  }

  /**
   * `log_match_end`'s figures: the number of rounds is the length of player 1's history, the
   * draws are the rounds neither player won, each frequency table counts one history, round by
   * round moves, and both players' streaks. An Err stands for the IndexError of one history
   * shorter than the other where it is indexed: the round list reads player 2's history as far
   * as player 1's goes, and player 2's streaks read player 1's history as far as player 2's goes.
   */
  method MatchEndStatistics(score1: int, score2: int, history1: seq<Move>, history2: seq<Move>)
    returns (r: Result<MatchEndCounts>)
    ensures r.Err? <==> |history2| < |history1| || 0 < |history1| < |history2|
    ensures r.Ok? ==> var c := r.value;
      c.totalRounds == |history1| && c.draws + score1 + score2 == |history1|
      && c.freq1.Keys == c.freq2.Keys == {"rock", "paper", "scissors"}
      && (forall m :: c.freq1[Value(m)] == multiset(history1)[m] && c.freq2[Value(m)] == multiset(history2)[m])
      && c.freq1["rock"] + c.freq1["paper"] + c.freq1["scissors"] == |history1|
      && c.freq2["rock"] + c.freq2["paper"] + c.freq2["scissors"] == |history2|
      && MoveSequencesOf(c.moveSequences, history1, history2)
    ensures r.Ok? && |history1| > 0 ==>
      r.value.streaks1 == StreaksOf(Outcomes(history1, history2))
      && r.value.streaks2 == StreaksOf(Outcomes(history2, history1))
    ensures r.Ok? && |history1| == 0 ==> r.value.streaks1 == r.value.streaks2 == Streaks(0, 0, 0, None)
  {
    var total := |history1|;
    var draws := total - score1 - score2;
    var f1 := MoveFrequency(history1);
    var f2 := MoveFrequency(history2);
    var moveSequences: seq<(nat, Move, Move)> := [];
    for i := 0 to total
      invariant |moveSequences| == i <= |history2|
      invariant forall k :: 0 <= k < i ==> moveSequences[k] == (k + 1, history1[k], history2[k])
    {
      if i == |history2| {
        return Err("list index out of range");
      }
      moveSequences := moveSequences + [(i + 1, history1[i], history2[i])];
    }
    var s1 := CalculateStreaks(history1, history2);
    var s2 := CalculateStreaks(history2, history1);
    if s1.Err? || s2.Err? {
      return Err("list index out of range");
    }
    r := Ok(MatchEndCounts(total, draws, f1, f2, moveSequences, s1.value, s2.value));
  }
}
