/**
 * `TournamentManager`: plays Rock-Paper-Scissors rounds and matches between agents and runs
 * round-robin, single-elimination and league tournaments, scoring them with a
 * `TournamentScorer`. What the agents' language models reply and every random choice are
 * oracles; the JSONL log of rounds is kept as a sequence of records.
 */
module RpsTournament {
  import opened Wrappers
  import opened Py
  import opened PowersOfTwo
  import Combinations
  import Shuffle
  import TournamentSystem
  import opened RpsRules
  import opened RpsAgents
  import opened RpsScoring
  import RpsAnalysis

  /**
   * What one `_play_single_round` call draws from the outside world: each agent's model
   * reply (an `Err` when the query raises), each agent's own `random.choice`, and the two
   * random moves used when a query raised.
   */
  datatype RoundDraw = RoundDraw(reply1: Result<string>, reply2: Result<string>, random1: Move, random2: Move,
                                 fallback1: Move, fallback2: Move)

  /** The draws of the round that takes match counter value `c`. */
  type Oracle = nat -> RoundDraw

  /**
   * The moves of a round: agent 1 sees agent 2's history as its opponent's, and the other
   * way round; if either agent's query raises, both moves are random.
   */
  function ChooseMoves(agent1: PlayerAgent, agent2: PlayerAgent, history1: seq<Move>, history2: seq<Move>,
                       d: RoundDraw): (Move, Move)
  {
    var m1 := MakeMove(agent1, history2, d.reply1, d.random1);
    var m2 := MakeMove(agent2, history1, d.reply2, d.random2);
    if m1.Ok? && m2.Ok? then (m1.value, m2.value) else (d.fallback1, d.fallback2)
  }

  /** `f"{n:04d}"`: the decimal digits of `n`, padded on the left with zeros to four characters. */
  function ZeroPad4(n: nat): (s: string)
    ensures |s| == Max(4, |NatToString(n)|)
    ensures AllDigits(s) && DecimalValue(s) == n
  {
    var d := NatToString(n);
    NatToStringValue(n);
    var zs := seq(if |d| < 4 then 4 - |d| else 0, _ => '0');
    LeadingZerosValue(zs, d);
    zs + d
  }

  /** The id of a round: `f"M{match_counter:04d}"`. */
  function MatchIdOf(c: nat): string
  {
    "M" + ZeroPad4(c)
  }

  /** Different counter values give different round ids. */
  lemma MatchIdsDistinct(c1: nat, c2: nat)
    requires c1 != c2
    ensures MatchIdOf(c1) != MatchIdOf(c2)
  {
    assert MatchIdOf(c1)[1..] == ZeroPad4(c1);
    assert MatchIdOf(c2)[1..] == ZeroPad4(c2);
  }

  /** What `_play_single_round` returns. */
  datatype RoundResult = RoundResult(matchId: string, agent1: string, agent2: string, move1: Move, move2: Move,
                                     result1: GameResult, result2: GameResult)

  /** What `_play_match` returns; the duration is not modelled. */
  datatype MatchResult = MatchResult(winner: string, score: string, score1: nat, score2: nat, totalRounds: int,
                                     history1: seq<Move>, history2: seq<Move>)

  /** The winner rule of `_play_match`. */
  function MatchWinner(agent1: PlayerAgent, agent2: PlayerAgent, score1: nat, score2: nat): string
  {
    if score1 > score2 then agent1.name else if score2 > score1 then agent2.name else "Draw"
  }

  /** Agent 1's result of a match from the winner's name: the scoring rule of `run_round_robin`. */
  function WinnerResult(agent1: PlayerAgent, agent2: PlayerAgent, winner: string): (r: GameResult)
    ensures r == Win <==> winner == agent1.name
    ensures r == Loss <==> winner != agent1.name && winner == agent2.name
  {
    if winner == agent1.name then Win else if winner == agent2.name then Loss else Draw
  }

  /** How a round's moves follow from the histories so far and the counter value of the round. */
  type Chooser = (seq<Move>, seq<Move>, nat) -> (Move, Move)

  /** The agents' choices, the draws taken from `oracle` at the round's counter value. */
  function AgentsChoose(agent1: PlayerAgent, agent2: PlayerAgent, oracle: Oracle): Chooser
  {
    (history1: seq<Move>, history2: seq<Move>, c: nat) => ChooseMoves(agent1, agent2, history1, history2, oracle(c))
  }

  /** Every move pair in the histories is what `choose` gives, round `i` taking counter value `base + i + 1`. */
  ghost predicate Played(choose: Chooser, base: nat, history1: seq<Move>, history2: seq<Move>)
  {
    |history1| == |history2|
    && forall i :: 0 <= i < |history1| ==> (history1[i], history2[i]) == choose(history1[..i], history2[..i], base + i + 1)
  }

  lemma PlayedSnoc(choose: Chooser, base: nat, history1: seq<Move>, history2: seq<Move>, m1: Move, m2: Move)
    requires Played(choose, base, history1, history2)
    requires (m1, m2) == choose(history1, history2, base + |history1| + 1)
    ensures Played(choose, base, history1 + [m1], history2 + [m2])
  {
    var h1, h2 := history1 + [m1], history2 + [m2];
    forall i | 0 <= i < |h1|
      ensures (h1[i], h2[i]) == choose(h1[..i], h2[..i], base + i + 1)
    {
      if i < |history1| {
        assert h1[..i] == history1[..i] && h2[..i] == history2[..i];
      } else {
        assert h1[..i] == history1 && h2[..i] == history2;
      }
    }
  }

  /**
   * A match of `numRounds` rounds between `agent1` and `agent2` whose first round took counter
   * value `base + 1`: the moves are the agents' choices, a side scores the rounds it won, and
   * the winner is the side with more points, or "Draw".
   */
  ghost predicate MatchPlayed(agent1: PlayerAgent, agent2: PlayerAgent, numRounds: int, oracle: Oracle, base: nat,
                              res: MatchResult)
  {
    |res.history1| == |res.history2| == TournamentSystem.Max0(numRounds) && res.totalRounds == numRounds
    && Played(AgentsChoose(agent1, agent2, oracle), base, res.history1, res.history2)
    && res.score1 == multiset(Outcomes(res.history1, res.history2))[Win]
    && res.score2 == multiset(Outcomes(res.history1, res.history2))[Loss]
    && res.winner == MatchWinner(agent1, agent2, res.score1, res.score2)
    && res.score == NatToString(res.score1) + "-" + NatToString(res.score2)
  }

  /** The `"match"` record of a round under counter value `c`, with `determine_winner`'s results. */
  function LoggedRound(agent1: PlayerAgent, agent2: PlayerAgent, c: nat, move1: Move, move2: Move): RpsAnalysis.RoundRecord
  {
    RpsAnalysis.RoundRecord(MatchIdOf(c), agent1.name, agent2.name, move1, move2,
                            DetermineWinner(move1, move2).0, DetermineWinner(move1, move2).1)
  }

  /** The records a match logs: one per round, round `i` under counter value `base + i + 1`. */
  function MatchLog(agent1: PlayerAgent, agent2: PlayerAgent, base: nat, history1: seq<Move>, history2: seq<Move>)
    : (log: seq<RpsAnalysis.RoundRecord>)
    requires |history1| == |history2|
    ensures |log| == |history1|
  {
    seq(|history1|, i requires 0 <= i < |history1| => LoggedRound(agent1, agent2, base + i + 1, history1[i], history2[i]))
  }

  lemma MatchLogSnoc(agent1: PlayerAgent, agent2: PlayerAgent, base: nat, history1: seq<Move>, history2: seq<Move>,
                     move1: Move, move2: Move)
    requires |history1| == |history2|
    ensures MatchLog(agent1, agent2, base, history1 + [move1], history2 + [move2])
            == MatchLog(agent1, agent2, base, history1, history2)
               + [LoggedRound(agent1, agent2, base + |history1| + 1, move1, move2)]
  {
    var h1, h2 := history1 + [move1], history2 + [move2];
    assert forall i :: 0 <= i < |history1| ==> h1[i] == history1[i] && h2[i] == history2[i];
  }

  /**
   * Match `k` of `results` is the match of pairing `k`, its rounds numbered after the `k`
   * matches before it, and record `k` of `log` scores it by its winner.
   */
  ghost predicate RecordsMatches(log: seq<Recorded>, results: seq<MatchResult>,
                                 pairings: seq<(PlayerAgent, PlayerAgent)>, numRounds: int, oracle: Oracle, base: nat)
  {
    |log| == |results| <= |pairings|
    && forall k :: 0 <= k < |results| ==>
         MatchPlayed(pairings[k].0, pairings[k].1, numRounds, oracle, base + k * TournamentSystem.Max0(numRounds),
                     results[k])
         && log[k] == RecordFor(pairings[k].0, pairings[k].1,
                                WinnerResult(pairings[k].0, pairings[k].1, results[k].winner))
  }

  /** A match played from counter `s` is the one played from any equal counter `t`. */
  lemma MatchPlayedAt(agent1: PlayerAgent, agent2: PlayerAgent, numRounds: int, oracle: Oracle, s: nat, t: nat,
                      res: MatchResult)
    requires s == t && MatchPlayed(agent1, agent2, numRounds, oracle, s, res)
    ensures MatchPlayed(agent1, agent2, numRounds, oracle, t, res)
  {
  }

  lemma RecordsMatchesSnoc(log: seq<Recorded>, results: seq<MatchResult>,
                           pairings: seq<(PlayerAgent, PlayerAgent)>, numRounds: int, oracle: Oracle, base: nat,
                           res: MatchResult)
    requires RecordsMatches(log, results, pairings, numRounds, oracle, base) && |results| < |pairings|
    requires var k := |results|;
      MatchPlayed(pairings[k].0, pairings[k].1, numRounds, oracle, base + k * TournamentSystem.Max0(numRounds), res)
    ensures var k := |results|;
      RecordsMatches(log + [RecordFor(pairings[k].0, pairings[k].1, WinnerResult(pairings[k].0, pairings[k].1, res.winner))],
                     results + [res], pairings, numRounds, oracle, base)
  {
    var k := |results|;
    var l := log + [RecordFor(pairings[k].0, pairings[k].1, WinnerResult(pairings[k].0, pairings[k].1, res.winner))];
    var r := results + [res];
    assert forall j :: 0 <= j < k ==> r[j] == results[j];
    assert forall j :: 0 <= j < k ==> l[j] == log[j];
  }

  /** One more round extends the per-round results by that round's result. */
  lemma OutcomesSnoc(history1: seq<Move>, history2: seq<Move>, m1: Move, m2: Move)
    requires |history1| == |history2|
    ensures Outcomes(history1 + [m1], history2 + [m2]) == Outcomes(history1, history2) + [DetermineWinner(m1, m2).0]
  {
  }

  /** The scores after one more round: a win for either side adds one to that side, a draw adds nothing. */
  lemma ScoreStep(history1: seq<Move>, history2: seq<Move>, m1: Move, m2: Move)
    requires |history1| == |history2|
    ensures multiset(Outcomes(history1 + [m1], history2 + [m2]))[Win]
            == multiset(Outcomes(history1, history2))[Win] + (if DetermineWinner(m1, m2).0 == Win then 1 else 0)
    ensures multiset(Outcomes(history1 + [m1], history2 + [m2]))[Loss]
            == multiset(Outcomes(history1, history2))[Loss] + (if DetermineWinner(m1, m2).0 == Loss then 1 else 0)
  {
    OutcomesSnoc(history1, history2, m1, m2);
  }

  /** The names of the agents, in order. */
  function AgentNames(agents: seq<PlayerAgent>): (names: seq<string>)
    ensures |names| == |agents| && forall i :: 0 <= i < |agents| ==> names[i] == agents[i].name
  {
    seq(|agents|, i requires 0 <= i < |agents| => agents[i].name)
  }

  lemma NameRegistered(agents: seq<PlayerAgent>, a: PlayerAgent)
    requires a in agents
    ensures a.name in KeySet(AgentNames(agents))
  {
    var i :| 0 <= i < |agents| && agents[i] == a;
    assert AgentNames(agents)[i] == a.name;
  }

  // ----- _pad_bracket -----

  /** A bye: a random agent on model "random". */
  function Bye(name: string): (a: PlayerAgent)
    requires name != ""
    ensures a.name == name && a.model == "random" && a.kind == RandomAgent
  {
    CreateAgent("random", "random", Some(name))
  }

  /**
   * `_pad_bracket`: the agents followed by byes up to the smallest power of two that is at
   * least two and at least the number of agents; one or two byes named "Bye" for fewer than
   * two agents, otherwise byes named after their position.
   */
  method PadBracket(agents: seq<PlayerAgent>) returns (padded: seq<PlayerAgent>)
    ensures |agents| <= |padded| && padded[..|agents|] == agents
    ensures IsPow2(|padded|) && |padded| >= 2
    ensures forall m :: IsPow2(m) && m >= 2 && |agents| <= m ==> |padded| <= m
    ensures |agents| <= 1 ==> |padded| == 2 && forall i :: |agents| <= i < 2 ==> padded[i] == Bye("Bye")
    ensures |agents| >= 2 ==> |padded| == NextPow2(|agents|)
    ensures |agents| >= 2 ==> forall i :: |agents| <= i < |padded| ==> padded[i] == Bye("Bye" + NatToString(i))
  {
    if |agents| <= 1 {
      padded := agents + seq(2 - |agents|, _ => Bye("Bye"));
      assert IsPow2(2) by {
        assert IsPow2(1);
      }
      return;
    }
    var nextPower := NextPow2(|agents|);
    NextPow2Least(|agents|, 2);
    padded := agents;
    while |padded| < nextPower
      invariant |agents| <= |padded| <= nextPower && padded[..|agents|] == agents
      invariant forall i :: |agents| <= i < |padded| ==> padded[i] == Bye("Bye" + NatToString(i))
      decreases nextPower - |padded|
    {
      padded := padded + [Bye("Bye" + NatToString(|padded|))];
    }
    forall m | IsPow2(m) && m >= 2 && |agents| <= m
      ensures |padded| <= m
    {
      NextPow2Least(|agents|, m);
    }
    Pow2IsPow2(1);
  }

  // ----- league pairing -----

  /** The pairs of a league round: entries `2k` and `2k + 1`; an odd one out sits the round out. */
  method PairUp(shuffled: seq<PlayerAgent>) returns (pairs: seq<(PlayerAgent, PlayerAgent)>)
    ensures |pairs| == |shuffled| / 2 && |shuffled| - 2 * |pairs| <= 1
    ensures forall k :: 0 <= k < |pairs| ==> pairs[k] == (shuffled[2 * k], shuffled[2 * k + 1])
  {
    pairs := [];
    var i := 0;
    while i < |shuffled|
      invariant 0 <= i <= |shuffled| + 1 && i % 2 == 0
      invariant |pairs| == (if i <= |shuffled| then i / 2 else |shuffled| / 2)
      invariant forall k :: 0 <= k < |pairs| ==> 2 * k + 1 < |shuffled| && pairs[k] == (shuffled[2 * k], shuffled[2 * k + 1])
      decreases |shuffled| + 1 - i
    {
      if i + 1 < |shuffled| {
        pairs := pairs + [(shuffled[i], shuffled[i + 1])];
      }
      i := i + 2;
    }
  }

  /** Over distinct agents, the pairs of a league round are disjoint and nobody plays itself. */
  lemma PairsDisjoint(shuffled: seq<PlayerAgent>, pairs: seq<(PlayerAgent, PlayerAgent)>)
    requires Distinct(shuffled)
    requires forall k :: 0 <= k < |pairs| ==> 2 * k + 1 < |shuffled| && pairs[k] == (shuffled[2 * k], shuffled[2 * k + 1])
    ensures forall k :: 0 <= k < |pairs| ==> pairs[k].0 != pairs[k].1
    ensures forall k, l :: 0 <= k < l < |pairs| ==>
      pairs[k].0 != pairs[l].0 && pairs[k].0 != pairs[l].1 && pairs[k].1 != pairs[l].0 && pairs[k].1 != pairs[l].1
  {
    forall k, l | 0 <= k < l < |pairs|
      ensures pairs[k].0 != pairs[l].0 && pairs[k].0 != pairs[l].1 && pairs[k].1 != pairs[l].0 && pairs[k].1 != pairs[l].1
    {
      assert 2 * k + 1 < 2 * l;
    }
  }

  /** The scorer's record of a match, from agent 1's result. */
  function RecordFor(agent1: PlayerAgent, agent2: PlayerAgent, result1: GameResult): (r: Recorded)
    ensures r.player1 == agent1.name && r.player2 == agent2.name && r.result1 == result1
    ensures r.result2 == Opposite(result1)
  {
    match result1
    case Win => Recorded(agent1.name, agent2.name, Win, Loss)
    case Loss => Recorded(agent1.name, agent2.name, Loss, Win)
    case Draw => Recorded(agent1.name, agent2.name, Draw, Draw)
  }

  /** Every record's second result is the opposite of its first. */
  ghost predicate OppositeResults(log: seq<Recorded>)
  {
    forall k :: 0 <= k < |log| ==> log[k].result2 == Opposite(log[k].result1)
  }

  /** Record `k` is the match of pairing `k`, scored from one side. */
  ghost predicate RecordsPairings(log: seq<Recorded>, pairings: seq<(PlayerAgent, PlayerAgent)>)
  {
    |log| <= |pairings| && OppositeResults(log)
    && forall k :: 0 <= k < |log| ==> log[k].player1 == pairings[k].0.name && log[k].player2 == pairings[k].1.name
  }

  lemma RecordsPairingsSnoc(log: seq<Recorded>, pairings: seq<(PlayerAgent, PlayerAgent)>, result1: GameResult)
    requires RecordsPairings(log, pairings) && |log| < |pairings|
    ensures RecordsPairings(log + [RecordFor(pairings[|log|].0, pairings[|log|].1, result1)], pairings)
  {
    var r := log + [RecordFor(pairings[|log|].0, pairings[|log|].1, result1)];
    assert forall k :: 0 <= k < |log| ==> r[k] == log[k];
  }

  /** The scorer's records of a league round: record `k` scores round `k` of pair `k` by its first result. */
  ghost predicate LeagueRecords(added: seq<Recorded>, played: seq<RpsAnalysis.RoundRecord>,
                                pairs: seq<(PlayerAgent, PlayerAgent)>)
  {
    |added| == |played| <= |pairs|
    && forall k :: 0 <= k < |added| ==> added[k] == RecordFor(pairs[k].0, pairs[k].1, played[k].result1)
  }

  lemma LeagueRecordsSnoc(added: seq<Recorded>, played: seq<RpsAnalysis.RoundRecord>,
                          pairs: seq<(PlayerAgent, PlayerAgent)>, round: RpsAnalysis.RoundRecord)
    requires LeagueRecords(added, played, pairs) && |added| < |pairs|
    ensures LeagueRecords(added + [RecordFor(pairs[|added|].0, pairs[|added|].1, round.result1)], played + [round], pairs)
  {
    var a := added + [RecordFor(pairs[|added|].0, pairs[|added|].1, round.result1)];
    var p := played + [round];
    assert forall k :: 0 <= k < |added| ==> a[k] == added[k] && p[k] == played[k];
  }

  lemma OppositeAppend(before: seq<Recorded>, added: seq<Recorded>, played: seq<RpsAnalysis.RoundRecord>,
                       pairs: seq<(PlayerAgent, PlayerAgent)>)
    requires OppositeResults(before) && LeagueRecords(added, played, pairs)
    ensures OppositeResults(before + added)
  {
    var all := before + added;
    forall k | 0 <= k < |all| ensures all[k].result2 == Opposite(all[k].result1) {
      if k < |before| {
        assert all[k] == before[k];
      } else {
        assert all[k] == added[k - |before|];
      }
    }
  }

  /** The pairs of a league round over `shuffled`: entries `2k` and `2k + 1`; an odd one out sits out. */
  ghost predicate ConsecutivePairs(shuffled: seq<PlayerAgent>, pairs: seq<(PlayerAgent, PlayerAgent)>)
  {
    |pairs| == |shuffled| / 2
    && forall k :: 0 <= k < |pairs| ==> 2 * k + 1 < |shuffled| && pairs[k] == (shuffled[2 * k], shuffled[2 * k + 1])
  }

  /**
   * League rounds `1..|pairsOf|`: round `r + 1` pairs up the agents as shuffled by
   * `perm(r + 1)`, plays `played[r]` and records `added[r]` from it.
   */
  ghost predicate LeagueRun(agents: seq<PlayerAgent>, perm: nat -> nat -> nat,
                            pairsOf: seq<seq<(PlayerAgent, PlayerAgent)>>, added: seq<seq<Recorded>>,
                            played: seq<seq<RpsAnalysis.RoundRecord>>)
  {
    |pairsOf| == |added| == |played|
    && forall r :: 0 <= r < |pairsOf| ==>
         ConsecutivePairs(Shuffle.Shuffled(agents, perm(r + 1)), pairsOf[r])
         && |added[r]| == |pairsOf[r]| && LeagueRecords(added[r], played[r], pairsOf[r])
  }

  lemma LeagueRunSnoc(agents: seq<PlayerAgent>, perm: nat -> nat -> nat,
                      pairsOf: seq<seq<(PlayerAgent, PlayerAgent)>>, added: seq<seq<Recorded>>,
                      played: seq<seq<RpsAnalysis.RoundRecord>>, pairs: seq<(PlayerAgent, PlayerAgent)>,
                      a: seq<Recorded>, p: seq<RpsAnalysis.RoundRecord>)
    requires LeagueRun(agents, perm, pairsOf, added, played)
    requires ConsecutivePairs(Shuffle.Shuffled(agents, perm(|pairsOf| + 1)), pairs)
    requires |a| == |pairs| && LeagueRecords(a, p, pairs)
    ensures LeagueRun(agents, perm, pairsOf + [pairs], added + [a], played + [p])
  {
    var q, b, c := pairsOf + [pairs], added + [a], played + [p];
    forall r | 0 <= r < |q|
      ensures ConsecutivePairs(Shuffle.Shuffled(agents, perm(r + 1)), q[r])
              && |b[r]| == |q[r]| && LeagueRecords(b[r], c[r], q[r])
    {
      if r < |pairsOf| {
        assert q[r] == pairsOf[r] && b[r] == added[r] && c[r] == played[r];
      } else {
        assert q[r] == pairs && b[r] == a && c[r] == p;
      }
    }
  }

  /** What `run_round_robin` and `run_league` return; `totalMatches` is the match or round count. */
  datatype ScoredResults = ScoredResults(tournamentType: string, participants: seq<string>, champion: string,
                                         finalStandings: map<string, Standing>, totalMatches: int)

  /** What `run_single_elimination` returns. */
  datatype EliminationResults = EliminationResults(participants: seq<string>, champion: string, totalRounds: nat)

  /**
   * The agent that advanced from a match between `agent1` and `agent2`: one of the two, the
   * match winner whenever the winner is one of them.
   */
  ghost predicate AdvancedFrom(agent1: PlayerAgent, agent2: PlayerAgent, result: MatchResult, advancing: PlayerAgent)
  {
    (advancing == agent1 || advancing == agent2)
    && (result.winner == agent1.name ==> advancing == agent1)
    && (result.winner != agent1.name && result.winner == agent2.name ==> advancing == agent2)
  }

  /**
   * One pair of an elimination round whose match started after counter value `base`: the match
   * was played as `MatchPlayed` states, its winner advances, and on a draw `coin` of the counter
   * after the match picks one of the two.
   */
  ghost predicate EliminationPairPlayed(agent1: PlayerAgent, agent2: PlayerAgent, numRounds: int, oracle: Oracle,
                                        coin: nat -> bool, base: nat, result: MatchResult, advancing: PlayerAgent)
  {
    MatchPlayed(agent1, agent2, numRounds, oracle, base, result) && AdvancedFrom(agent1, agent2, result, advancing)
    && (result.winner != agent1.name && result.winner != agent2.name ==>
          advancing == (if coin(base + TournamentSystem.Max0(numRounds)) then agent1 else agent2))
  }

  /** The second entry of pair `j` of an elimination round, or the first when it is alone. */
  function Partner(current: seq<PlayerAgent>, j: nat): PlayerAgent
    requires 2 * j < |current|
  {
    if 2 * j + 1 < |current| then current[2 * j + 1] else current[2 * j]
  }


  /**
   * The pairs of an elimination round played so far, from counter value `base`: pair `j`
   * (entry `2j` and its partner) played its match after the `j` matches before it and sent
   * `next[j]` on.
   */
  ghost predicate EliminationRoundPlayed(current: seq<PlayerAgent>, numRounds: int, oracle: Oracle, coin: nat -> bool,
                                         base: nat, next: seq<PlayerAgent>, results: seq<MatchResult>)
  {
    |next| == |results| && 2 * |next| <= |current| + 1
    && forall j :: 0 <= j < |next| ==> PairPlayed(current, j, numRounds, oracle, coin, base, results[j], next[j])
  }

  /** Pair `j` of an elimination round from counter value `base`, after the `j` matches before it. */
  ghost predicate PairPlayed(current: seq<PlayerAgent>, j: nat, numRounds: int, oracle: Oracle, coin: nat -> bool,
                             base: nat, result: MatchResult, advancing: PlayerAgent)
  {
    2 * j < |current|
    && EliminationPairPlayed(current[2 * j], Partner(current, j), numRounds, oracle, coin,
                             base + j * TournamentSystem.Max0(numRounds), result, advancing)
  }

  /** `logs[j]` holds the records the match of pair `j` logged, from counter value `base` on. */
  ghost predicate EliminationRoundLogged(current: seq<PlayerAgent>, numRounds: int, base: nat,
                                         results: seq<MatchResult>, logs: seq<seq<RpsAnalysis.RoundRecord>>)
  {
    |logs| == |results| && 2 * |results| <= |current| + 1
    && forall j :: 0 <= j < |results| ==>
         |results[j].history1| == |results[j].history2|
         && logs[j] == MatchLog(current[2 * j], Partner(current, j), base + j * TournamentSystem.Max0(numRounds),
                                results[j].history1, results[j].history2)
  }

  /** Every pair of a played elimination round sent one of its own two agents on. */
  lemma EliminationRoundAdvances(current: seq<PlayerAgent>, numRounds: int, oracle: Oracle, coin: nat -> bool,
                                 base: nat, next: seq<PlayerAgent>, results: seq<MatchResult>)
    requires EliminationRoundPlayed(current, numRounds, oracle, coin, base, next, results)
    ensures forall j :: 0 <= j < |next| ==> AdvancedFrom(current[2 * j], Partner(current, j), results[j], next[j])
  {
  }

  lemma EliminationRoundSnoc(current: seq<PlayerAgent>, numRounds: int, oracle: Oracle, coin: nat -> bool, base: nat,
                             next: seq<PlayerAgent>, results: seq<MatchResult>, advancing: PlayerAgent,
                             result: MatchResult)
    requires EliminationRoundPlayed(current, numRounds, oracle, coin, base, next, results) && 2 * |next| < |current|
    requires PairPlayed(current, |next|, numRounds, oracle, coin, base, result, advancing)
    ensures EliminationRoundPlayed(current, numRounds, oracle, coin, base, next + [advancing], results + [result])
  {
    var k := |next|;
    var nx, rs := next + [advancing], results + [result];
    assert forall j :: 0 <= j < k ==> nx[j] == next[j] && rs[j] == results[j];
  }

  lemma EliminationLogSnoc(current: seq<PlayerAgent>, numRounds: int, base: nat, results: seq<MatchResult>,
                           logs: seq<seq<RpsAnalysis.RoundRecord>>, c: nat, result: MatchResult)
    requires EliminationRoundLogged(current, numRounds, base, results, logs)
    requires 2 * |results| < |current| && c == base + |results| * TournamentSystem.Max0(numRounds)
    requires |result.history1| == |result.history2|
    ensures EliminationRoundLogged(current, numRounds, base, results + [result],
                                   logs + [MatchLog(current[2 * |results|], Partner(current, |results|), c,
                                                    result.history1, result.history2)])
  {
    var k := |results|;
    var log := MatchLog(current[2 * k], Partner(current, k), c, result.history1, result.history2);
    var rs, ls := results + [result], logs + [log];
    forall j | 0 <= j < |rs|
      ensures |rs[j].history1| == |rs[j].history2|
      ensures ls[j] == MatchLog(current[2 * j], Partner(current, j), base + j * TournamentSystem.Max0(numRounds),
                                rs[j].history1, rs[j].history2)
    {
      if j < k {
        assert rs[j] == results[j] && ls[j] == logs[j];
      } else {
        assert j == k && rs[j] == result && ls[j] == log;
      }
    }
  }

  /** On an even field every agent has a partner, so each advancing agent comes from its own pair. */
  /** The rounds of `k` matches of `n` rounds each, counted one match at a time. */
  ghost function RoundsOf(k: nat, n: nat): nat
  {
    if k == 0 then 0 else RoundsOf(k - 1, n) + n
  }

  lemma {:induction false} RoundsOfProduct(k: nat, n: nat)
    ensures RoundsOf(k, n) == k * n
  {
    if k > 0 {
      RoundsOfProduct(k - 1, n);
      MulSucc(k - 1, n);
    }
  }

  lemma RoundsOfAdd(k: nat, j: nat, n: nat)
    ensures RoundsOf(k + j, n) == RoundsOf(k, n) + j * n
  {
    RoundsOfProduct(k, n);
    RoundsOfProduct(k + j, n);
    MulAdd(k, j, n);
  }

  lemma EvenRoundAdvances(current: seq<PlayerAgent>, next: seq<PlayerAgent>, results: seq<MatchResult>)
    requires |current| % 2 == 0 && |next| == |results| == (|current| + 1) / 2
    requires forall j :: 0 <= j < |next| ==> AdvancedFrom(current[2 * j], Partner(current, j), results[j], next[j])
    ensures TournamentSystem.Advances(AgentNames(current), AgentNames(next))
  {
    var cur, nxt := AgentNames(current), AgentNames(next);
    forall k | 0 <= k < |next| ensures nxt[k] == cur[2 * k] || nxt[k] == cur[2 * k + 1] {
      assert Partner(current, k) == current[2 * k + 1];
      assert AdvancedFrom(current[2 * k], current[2 * k + 1], results[k], next[k]);
    }
  }

  /** The scoring step of `run_round_robin`: a win for the agent named the winner, a draw otherwise. */
  method RecordByWinner(scorer: TournamentScorer, agent1: PlayerAgent, agent2: PlayerAgent, winner: string)
    returns (ghost result1: GameResult)
    requires scorer.Valid() && agent1.name in scorer.matchesPlayed && agent2.name in scorer.matchesPlayed
    modifies scorer
    ensures scorer.Valid() && scorer.models == old(scorer.models)
    ensures scorer.log == old(scorer.log) + [RecordFor(agent1, agent2, result1)]
    ensures result1 == WinnerResult(agent1, agent2, winner)
  {
    if winner == agent1.name {
      scorer.RecordMatch(agent1.name, agent2.name, Win, Loss);
      result1 := Win;
    } else if winner == agent2.name {
      scorer.RecordMatch(agent1.name, agent2.name, Loss, Win);
      result1 := Loss;
    } else {
      scorer.RecordMatch(agent1.name, agent2.name, Draw, Draw);
      result1 := Draw;
    }
  }

  /** The scoring step of `run_league`: the round's result for agent 1, and its opposite for agent 2. */
  method RecordByResult(scorer: TournamentScorer, agent1: PlayerAgent, agent2: PlayerAgent, result1: GameResult)
    requires scorer.Valid() && agent1.name in scorer.matchesPlayed && agent2.name in scorer.matchesPlayed
    modifies scorer
    ensures scorer.Valid() && scorer.models == old(scorer.models)
    ensures scorer.log == old(scorer.log) + [RecordFor(agent1, agent2, result1)]
  {
    if result1 == Win {
      scorer.RecordMatch(agent1.name, agent2.name, Win, Loss);
    } else if result1 == Loss {
      scorer.RecordMatch(agent1.name, agent2.name, Loss, Win);
    } else {
      scorer.RecordMatch(agent1.name, agent2.name, Draw, Draw);
    }
  }

  class TournamentManager {
    var matchCounter: nat
    /** The `"match"` records written to the log, one per round played. */
    ghost var roundLog: seq<RpsAnalysis.RoundRecord>

    /** Every logged round carries the results `determine_winner` gives for its moves. */
    ghost predicate Valid()
      reads this
    {
      forall k :: 0 <= k < |roundLog| ==> RpsAnalysis.Consistent(roundLog[k])
    }

    /** `__init__`: the match counter starts at zero. */
    constructor ()
      ensures Valid() && matchCounter == 0 && roundLog == []
    {
      matchCounter := 0;
      roundLog := [];
    }

    /**
     * `_play_single_round`: the counter goes up by one and names the round; the moves are the
     * agents' choices, the results are `determine_winner`'s, and the round is logged.
     */
    method PlaySingleRound(agent1: PlayerAgent, agent2: PlayerAgent, history1: seq<Move>, history2: seq<Move>,
                           oracle: Oracle) returns (r: RoundResult)
      requires Valid()
      modifies this
      ensures Valid() && matchCounter == old(matchCounter) + 1
      ensures r.matchId == MatchIdOf(matchCounter) && r.agent1 == agent1.name && r.agent2 == agent2.name
      ensures (r.move1, r.move2) == AgentsChoose(agent1, agent2, oracle)(history1, history2, matchCounter)
      ensures (r.result1, r.result2) == DetermineWinner(r.move1, r.move2)
      ensures roundLog == old(roundLog)
        + [RpsAnalysis.RoundRecord(r.matchId, agent1.name, agent2.name, r.move1, r.move2, r.result1, r.result2)]
    {
      matchCounter := matchCounter + 1;
      var matchId := MatchIdOf(matchCounter);
      var d := oracle(matchCounter);
      var move1, move2;
      var try1 := MakeMove(agent1, history2, d.reply1, d.random1);
      var try2 := MakeMove(agent2, history1, d.reply2, d.random2);
      if try1.Ok? && try2.Ok? {
        move1, move2 := try1.value, try2.value;
      } else {
        move1, move2 := d.fallback1, d.fallback2;
      }
      var (result1, result2) := DetermineWinner(move1, move2);
      roundLog := roundLog + [RpsAnalysis.RoundRecord(matchId, agent1.name, agent2.name, move1, move2, result1, result2)];
      r := RoundResult(matchId, agent1.name, agent2.name, move1, move2, result1, result2);
    }

    /** One turn of the loop of `_play_match`: play a round, score it, extend both histories. */
    method PlayScoredRound(agent1: PlayerAgent, agent2: PlayerAgent, oracle: Oracle, ghost base: nat,
                           ghost log0: seq<RpsAnalysis.RoundRecord>, history1: seq<Move>, history2: seq<Move>,
                           score1: nat, score2: nat)
      returns (move1: Move, move2: Move, score1': nat, score2': nat)
      requires Valid() && matchCounter == base + |history1| && |history1| == |history2|
      requires roundLog == log0 + MatchLog(agent1, agent2, base, history1, history2)
      requires Played(AgentsChoose(agent1, agent2, oracle), base, history1, history2)
      requires score1 == multiset(Outcomes(history1, history2))[Win]
      requires score2 == multiset(Outcomes(history1, history2))[Loss]
      modifies this
      ensures Valid() && matchCounter == old(matchCounter) + 1
      ensures roundLog == log0 + MatchLog(agent1, agent2, base, history1 + [move1], history2 + [move2])
      ensures Played(AgentsChoose(agent1, agent2, oracle), base, history1 + [move1], history2 + [move2])
      ensures score1' == multiset(Outcomes(history1 + [move1], history2 + [move2]))[Win]
      ensures score2' == multiset(Outcomes(history1 + [move1], history2 + [move2]))[Loss]
    {
      var r := PlaySingleRound(agent1, agent2, history1, history2, oracle);
      assert matchCounter == base + |history1| + 1;
      ScoreStep(history1, history2, r.move1, r.move2);
      PlayedSnoc(AgentsChoose(agent1, agent2, oracle), base, history1, history2, r.move1, r.move2);
      move1, move2 := r.move1, r.move2;
      ghost var record := LoggedRound(agent1, agent2, base + |history1| + 1, move1, move2);
      assert roundLog == old(roundLog) + [record];
      assert roundLog == log0 + MatchLog(agent1, agent2, base, history1 + [move1], history2 + [move2]) by {
        MatchLogSnoc(agent1, agent2, base, history1, history2, move1, move2);
        AppendAssoc(log0, MatchLog(agent1, agent2, base, history1, history2), [record]);
      }
      score1', score2' := score1, score2;
      if r.result1 == Win {
        score1' := score1 + 1;
      } else if r.result1 == Loss {
        score2' := score2 + 1;
      }
    }

    /**
     * `_play_match`: `num_rounds` rounds, each agent seeing both histories so far; a side
     * scores one point per round it wins and draws score nothing; the winner is the side
     * with more points, or "Draw".
     */
    method PlayMatch(agent1: PlayerAgent, agent2: PlayerAgent, numRounds: int, oracle: Oracle) returns (res: MatchResult)
      requires Valid()
      modifies this
      ensures Valid() && matchCounter == old(matchCounter) + TournamentSystem.Max0(numRounds)
      ensures |res.history1| == |res.history2| == TournamentSystem.Max0(numRounds) && res.totalRounds == numRounds
      ensures roundLog == old(roundLog) + MatchLog(agent1, agent2, old(matchCounter), res.history1, res.history2)
      ensures Played(AgentsChoose(agent1, agent2, oracle), old(matchCounter), res.history1, res.history2)
      ensures res.score1 == multiset(Outcomes(res.history1, res.history2))[Win]
      ensures res.score2 == multiset(Outcomes(res.history1, res.history2))[Loss]
      ensures res.score1 + res.score2 <= TournamentSystem.Max0(numRounds)
      ensures TournamentSystem.Max0(numRounds) - res.score1 - res.score2 == multiset(Outcomes(res.history1, res.history2))[Draw]
      ensures res.winner == MatchWinner(agent1, agent2, res.score1, res.score2)
      ensures res.score == NatToString(res.score1) + "-" + NatToString(res.score2)
      ensures MatchPlayed(agent1, agent2, numRounds, oracle, old(matchCounter), res)
    {
      var score1: nat, score2: nat := 0, 0;
      var history1: seq<Move>, history2: seq<Move> := [], [];
      var n := TournamentSystem.Max0(numRounds);
      for k := 0 to n
        invariant Valid() && matchCounter == old(matchCounter) + k
        invariant |history1| == |history2| == k
        invariant roundLog == old(roundLog) + MatchLog(agent1, agent2, old(matchCounter), history1, history2)
        invariant Played(AgentsChoose(agent1, agent2, oracle), old(matchCounter), history1, history2)
        invariant score1 == multiset(Outcomes(history1, history2))[Win]
        invariant score2 == multiset(Outcomes(history1, history2))[Loss]
      {
        var move1, move2;
        move1, move2, score1, score2 :=
          PlayScoredRound(agent1, agent2, oracle, old(matchCounter), old(roundLog), history1, history2, score1, score2);
        history1, history2 := history1 + [move1], history2 + [move2];
      }
      RpsAnalysis.ResultCountsSum(Outcomes(history1, history2));
      var winner := MatchWinner(agent1, agent2, score1, score2);
      res := MatchResult(winner, NatToString(score1) + "-" + NatToString(score2), score1, score2, numRounds,
                         history1, history2);
    }

    /** Match `i` of `run_round_robin`: pair `i` plays, and the scorer records it by the winner's name. */
    method PlayRecordedMatch(pairings: seq<(PlayerAgent, PlayerAgent)>, i: nat, roundsPerMatch: int, oracle: Oracle,
                             scorer: TournamentScorer, ghost agents: seq<PlayerAgent>, ghost base: nat,
                             ghost results: seq<MatchResult>)
      returns (res: MatchResult)
      requires Valid() && scorer.Valid() && scorer.models == AgentNames(agents)
      requires i == |results| < |pairings| && pairings[i].0 in agents && pairings[i].1 in agents
      requires RecordsPairings(scorer.log, pairings)
      requires RecordsMatches(scorer.log, results, pairings, roundsPerMatch, oracle, base)
      requires matchCounter == base + i * TournamentSystem.Max0(roundsPerMatch)
      modifies this, scorer
      ensures Valid() && scorer.Valid() && scorer.models == old(scorer.models)
      ensures RecordsPairings(scorer.log, pairings)
      ensures RecordsMatches(scorer.log, results + [res], pairings, roundsPerMatch, oracle, base)
      ensures matchCounter == old(matchCounter) + TournamentSystem.Max0(roundsPerMatch)
    {
      var agent1, agent2 := pairings[i].0, pairings[i].1;
      ghost var before := scorer.log;
      res := PlayMatch(agent1, agent2, roundsPerMatch, oracle);
      MatchPlayedAt(agent1, agent2, roundsPerMatch, oracle, old(matchCounter),
                    base + |results| * TournamentSystem.Max0(roundsPerMatch), res);
      RecordsMatchesSnoc(before, results, pairings, roundsPerMatch, oracle, base, res);
      NameRegistered(agents, agent1);
      NameRegistered(agents, agent2);
      ghost var result1 := RecordByWinner(scorer, agent1, agent2, res.winner);
      RecordsPairingsSnoc(before, pairings, result1);
    }

    /** The matches of `run_round_robin`, one per pair, each recorded by its winner's name. */
    method PlayPairings(pairings: seq<(PlayerAgent, PlayerAgent)>, roundsPerMatch: int, oracle: Oracle,
                        scorer: TournamentScorer, ghost agents: seq<PlayerAgent>)
      returns (ghost results: seq<MatchResult>)
      requires Valid() && scorer.Valid() && scorer.models == AgentNames(agents)
      requires forall k :: 0 <= k < |pairings| ==> pairings[k].0 in agents && pairings[k].1 in agents
      requires scorer.log == []
      modifies this, scorer
      ensures Valid() && scorer.Valid() && scorer.models == AgentNames(agents)
      ensures |scorer.log| == |pairings| && RecordsPairings(scorer.log, pairings)
      ensures RecordsMatches(scorer.log, results, pairings, roundsPerMatch, oracle, old(matchCounter))
      ensures matchCounter == old(matchCounter) + |pairings| * TournamentSystem.Max0(roundsPerMatch)
    {
      results := [];
      for i := 0 to |pairings|
        invariant Valid() && scorer.Valid() && scorer.models == AgentNames(agents)
        invariant |results| == i && RecordsPairings(scorer.log, pairings)
        invariant RecordsMatches(scorer.log, results, pairings, roundsPerMatch, oracle, old(matchCounter))
        invariant matchCounter == old(matchCounter) + i * TournamentSystem.Max0(roundsPerMatch)
      {
        var res := PlayRecordedMatch(pairings, i, roundsPerMatch, oracle, scorer, agents, old(matchCounter),
                                     results);
        MulSucc(i, TournamentSystem.Max0(roundsPerMatch));
        results := results + [res];
      }
    }

    /**
     * `run_round_robin`: every pair `itertools.combinations` lists plays one match, so there
     * are `n * (n - 1) / 2` matches; the champion and standings are the scorer's.
     */
    method RunRoundRobin(agents: seq<PlayerAgent>, roundsPerMatch: int, oracle: Oracle)
      returns (res: ScoredResults, scorer: TournamentScorer, ghost results: seq<MatchResult>)
      requires Valid()
      modifies this
      ensures Valid() && fresh(scorer) && scorer.Valid() && scorer.models == AgentNames(agents)
      ensures RecordsMatches(scorer.log, results, Combinations.Pairs(agents), roundsPerMatch, oracle, old(matchCounter))
      ensures res.tournamentType == "round_robin" && res.participants == AgentNames(agents)
      ensures res.totalMatches == |Combinations.Pairs(agents)| == ExpectedMatches(|agents|, "round_robin")
      ensures 2 * res.totalMatches == |agents| * (|agents| - 1)
      ensures |scorer.log| == res.totalMatches && RecordsPairings(scorer.log, Combinations.Pairs(agents))
      ensures res.finalStandings == scorer.GetStandings() && res.champion == scorer.GetChampion()
    {
      var agentNames := AgentNames(agents);
      scorer := new TournamentScorer(agentNames);
      var pairings := Combinations.Pairs(agents);
      var totalMatches := |pairings|;
      ExpectedRoundRobin(agents);
      Combinations.PairsCount(agents);
      forall k | 0 <= k < |pairings| ensures pairings[k].0 in agents && pairings[k].1 in agents {
        Combinations.PairsMembers(agents, pairings[k].0, pairings[k].1);
      }
      results := PlayPairings(pairings, roundsPerMatch, oracle, scorer, agents);
      res := ScoredResults("round_robin", agentNames, scorer.GetChampion(), scorer.GetStandings(), totalMatches);
    }

    /**
     * One pair of an elimination round: the match winner advances, and on a draw `coin`,
     * keyed by the match counter, picks one of the two.
     */
    method PlayEliminationPair(agent1: PlayerAgent, agent2: PlayerAgent, roundsPerMatch: int, oracle: Oracle,
                               coin: nat -> bool, ghost start: nat)
      returns (advancing: PlayerAgent, result: MatchResult)
      requires Valid() && matchCounter == start
      modifies this
      ensures Valid() && matchCounter == old(matchCounter) + TournamentSystem.Max0(roundsPerMatch)
      ensures EliminationPairPlayed(agent1, agent2, roundsPerMatch, oracle, coin, start, result, advancing)
      ensures roundLog == old(roundLog) + MatchLog(agent1, agent2, start, result.history1, result.history2)
    {
      result := PlayMatch(agent1, agent2, roundsPerMatch, oracle);
      assert MatchPlayed(agent1, agent2, roundsPerMatch, oracle, start, result);
      if result.winner == agent1.name {
        advancing := agent1;
      } else if result.winner == agent2.name {
        advancing := agent2;
      } else {
        advancing := if coin(matchCounter) then agent1 else agent2;
      }
    }

    /** Pair `|next|` of an elimination round plays, extending what the round has played so far. */
    method PlayEliminationStep(current: seq<PlayerAgent>, roundsPerMatch: int, oracle: Oracle, coin: nat -> bool,
                               ghost base: nat, next: seq<PlayerAgent>, results: seq<MatchResult>)
      returns (next': seq<PlayerAgent>, results': seq<MatchResult>)
      requires Valid() && 2 * |next| < |current|
      requires EliminationRoundPlayed(current, roundsPerMatch, oracle, coin, base, next, results)
      requires matchCounter == base + |next| * TournamentSystem.Max0(roundsPerMatch)
      modifies this
      ensures Valid() && |next'| == |next| + 1 && |results'| == |results| + 1
      ensures results' == results + [results'[|results|]]
      ensures |results'[|results|].history1| == |results'[|results|].history2|
      ensures EliminationRoundPlayed(current, roundsPerMatch, oracle, coin, base, next', results')
      ensures matchCounter == base + |next'| * TournamentSystem.Max0(roundsPerMatch)
      ensures roundLog == old(roundLog) + MatchLog(current[2 * |next|], Partner(current, |next|), old(matchCounter),
                                                   results'[|results|].history1, results'[|results|].history2)
    {
      var c := base + |next| * TournamentSystem.Max0(roundsPerMatch);
      var advancing, matchResult := PlayEliminationPair(current[2 * |next|], Partner(current, |next|), roundsPerMatch,
                                                        oracle, coin, c);
      EliminationRoundSnoc(current, roundsPerMatch, oracle, coin, base, next, results, advancing, matchResult);
      MulSucc(|next|, TournamentSystem.Max0(roundsPerMatch));
      next', results' := next + [advancing], results + [matchResult];
    }

    /**
     * The `for` loop of one elimination round: entries `2j` and `2j + 1` play a match (the
     * last entry plays itself when left alone).
     */
    method PlayEliminationRound(current: seq<PlayerAgent>, roundsPerMatch: int, oracle: Oracle, coin: nat -> bool)
      returns (next: seq<PlayerAgent>, results: seq<MatchResult>, ghost logs: seq<seq<RpsAnalysis.RoundRecord>>)
      requires Valid()
      modifies this
      ensures Valid() && |next| == |results| == |logs| == (|current| + 1) / 2
      ensures forall j :: 0 <= j < |next| ==> AdvancedFrom(current[2 * j], Partner(current, j), results[j], next[j])
      ensures EliminationRoundPlayed(current, roundsPerMatch, oracle, coin, old(matchCounter), next, results)
      ensures EliminationRoundLogged(current, roundsPerMatch, old(matchCounter), results, logs)
      ensures matchCounter == old(matchCounter) + |next| * TournamentSystem.Max0(roundsPerMatch)
      ensures roundLog == old(roundLog) + Concat(logs)
    {
      next, results, logs := [], [], [];
      var i := 0;
      ghost var n := TournamentSystem.Max0(roundsPerMatch);
      while i < |current|
        invariant 0 <= i <= |current| + 1 && i % 2 == 0 && |next| == |results| == |logs| == i / 2 && Valid()
        invariant EliminationRoundPlayed(current, roundsPerMatch, oracle, coin, old(matchCounter), next, results)
        invariant EliminationRoundLogged(current, roundsPerMatch, old(matchCounter), results, logs)
        invariant matchCounter == old(matchCounter) + |next| * n
        invariant roundLog == old(roundLog) + Concat(logs)
        decreases |current| + 1 - i
      {
        ghost var c, results0 := matchCounter, results;
        next, results := PlayEliminationStep(current, roundsPerMatch, oracle, coin, old(matchCounter), next, results);
        ghost var log := MatchLog(current[2 * |results0|], Partner(current, |results0|), c,
                                  results[|results0|].history1, results[|results0|].history2);
        EliminationLogSnoc(current, roundsPerMatch, old(matchCounter), results0, logs, c, results[|results0|]);
        ConcatSnoc(logs, log);
        AppendAssoc(old(roundLog), Concat(logs), log);
        logs := logs + [log];
        i := i + 2;
      }
      EliminationRoundAdvances(current, roundsPerMatch, oracle, coin, old(matchCounter), next, results);
    }

    /**
     * One round of `run_single_elimination` on a field of a power of two, seen from the bracket:
     * the agents advancing take one slot of each pair and extend the fields so far, and each of
     * the half as many matches moves the counter by one match's rounds.
     */
    method PlayKnockoutRound(current: seq<PlayerAgent>, roundsPerMatch: int, oracle: Oracle, coin: nat -> bool,
                             ghost start: int, ghost matches: nat, ghost fields: seq<seq<string>>, ghost entrants: seq<string>)
      returns (next: seq<PlayerAgent>)
      requires Valid() && IsPow2(|current|) && |current| > 1
      requires TournamentSystem.FieldsSoFar(fields, entrants, AgentNames(current))
      requires matchCounter == start + RoundsOf(matches, TournamentSystem.Max0(roundsPerMatch))
      modifies this
      ensures Valid() && 2 * |next| == |current| && IsPow2(|next|)
      ensures TournamentSystem.FieldsSoFar(fields + [AgentNames(next)], entrants, AgentNames(next))
      ensures matchCounter == start + RoundsOf(matches + |next|, TournamentSystem.Max0(roundsPerMatch))
      ensures old(roundLog) <= roundLog
    {
      Pow2Even(|current|);
      var results;
      ghost var logs;
      next, results, logs := PlayEliminationRound(current, roundsPerMatch, oracle, coin);
      EvenRoundAdvances(current, next, results);
      TournamentSystem.FieldsSnoc(fields, entrants, AgentNames(current), AgentNames(next));
      RoundsOfAdd(matches, |next|, TournamentSystem.Max0(roundsPerMatch));
    }

    /**
     * The rounds of `run_single_elimination` on a padded field: halve it until one agent is left.
     * That takes `log2` of its size rounds and one match fewer than there are entrants.
     */
    method PlayKnockoutRounds(entrants: seq<PlayerAgent>, roundsPerMatch: int, oracle: Oracle, coin: nat -> bool)
      returns (champion: string, ghost fields: seq<seq<string>>, ghost matches: nat)
      requires Valid() && IsPow2(|entrants|)
      modifies this
      ensures Valid() && |fields| == FloorLog2(|entrants|) + 1 && matches == |entrants| - 1
      ensures TournamentSystem.Bracket(fields, AgentNames(entrants), champion)
      ensures matchCounter == old(matchCounter) + RoundsOf(matches, TournamentSystem.Max0(roundsPerMatch))
      ensures old(roundLog) <= roundLog
    {
      var current := entrants;
      fields := [AgentNames(entrants)];
      matches := 0;
      while |current| > 1
        invariant Valid() && IsPow2(|current|) && matches + |current| == |entrants|
        invariant |fields| + FloorLog2(|current|) == FloorLog2(|entrants|) + 1
        invariant TournamentSystem.FieldsSoFar(fields, AgentNames(entrants), AgentNames(current))
        invariant matchCounter == old(matchCounter) + RoundsOf(matches, TournamentSystem.Max0(roundsPerMatch))
        invariant old(roundLog) <= roundLog
        decreases |current|
      {
        Pow2Even(|current|);
        var next := PlayKnockoutRound(current, roundsPerMatch, oracle, coin, old(matchCounter), matches, fields,
                                      AgentNames(entrants));
        fields := fields + [AgentNames(next)];
        matches := matches + |next|;
        current := next;
      }
      assert |current| == 1 && AgentNames(current) == [current[0].name];
      champion := current[0].name;
    }

    /**
     * `run_single_elimination`: pad the field to a power of two, then play its rounds; the
     * count of matches is the one `_calculate_expected_matches` expects.
     */
    method RunSingleElimination(agents: seq<PlayerAgent>, roundsPerMatch: int, oracle: Oracle, coin: nat -> bool)
      returns (res: EliminationResults, ghost fields: seq<seq<string>>, ghost matches: nat)
      requires Valid()
      modifies this
      ensures Valid()
      ensures |agents| <= |res.participants| && res.participants[..|agents|] == AgentNames(agents)
      ensures Pow2(res.totalRounds) == |res.participants| && |fields| == res.totalRounds + 1
      ensures TournamentSystem.Bracket(fields, res.participants, res.champion) && res.champion in res.participants
      ensures matches == |res.participants| - 1 == ExpectedMatches(|agents|, "single_elimination")
      ensures matchCounter == old(matchCounter) + matches * TournamentSystem.Max0(roundsPerMatch)
      ensures old(roundLog) <= roundLog
    {
      var tournamentAgents := PadBracket(agents);
      var agentNames := AgentNames(tournamentAgents);
      assert agentNames[..|agents|] == AgentNames(agents);
      var totalRounds := FloorLog2(|tournamentAgents|);
      if |agents| >= 2 {
        assert |tournamentAgents| == NextPow2(|agents|);
      }
      var champion;
      champion, fields, matches := PlayKnockoutRounds(tournamentAgents, roundsPerMatch, oracle, coin);
      TournamentSystem.BracketRounds(fields, agentNames, champion);
      RoundsOfProduct(matches, TournamentSystem.Max0(roundsPerMatch));
      res := EliminationResults(agentNames, champion, totalRounds);
    }

    /** One pair of a league round: a round with no history, recorded by agent 1's result. */
    method PlayLeaguePair(agent1: PlayerAgent, agent2: PlayerAgent, oracle: Oracle, scorer: TournamentScorer)
      returns (ghost round: RpsAnalysis.RoundRecord)
      requires Valid() && scorer.Valid() && agent1.name in scorer.matchesPlayed && agent2.name in scorer.matchesPlayed
      modifies this, scorer
      ensures Valid() && scorer.Valid() && scorer.models == old(scorer.models)
      ensures matchCounter == old(matchCounter) + 1 && roundLog == old(roundLog) + [round]
      ensures scorer.log == old(scorer.log) + [RecordFor(agent1, agent2, round.result1)]
    {
      var r := PlaySingleRound(agent1, agent2, [], [], oracle);
      round := roundLog[|roundLog| - 1];
      RecordByResult(scorer, agent1, agent2, r.result1);
    }

    /**
     * One league round: every pair plays one round with no history, recorded by agent 1's
     * result; `added` are the scorer's new records and `played` the new logged rounds.
     */
    method PlayLeagueRound(pairs: seq<(PlayerAgent, PlayerAgent)>, oracle: Oracle, scorer: TournamentScorer,
                           ghost agents: seq<PlayerAgent>)
      returns (ghost added: seq<Recorded>, ghost played: seq<RpsAnalysis.RoundRecord>)
      requires Valid() && scorer.Valid() && scorer.models == AgentNames(agents)
      requires forall k :: 0 <= k < |pairs| ==> pairs[k].0 in agents && pairs[k].1 in agents
      modifies this, scorer
      ensures Valid() && scorer.Valid() && scorer.models == AgentNames(agents)
      ensures matchCounter == old(matchCounter) + |pairs|
      ensures scorer.log == old(scorer.log) + added && roundLog == old(roundLog) + played
      ensures |added| == |pairs| && LeagueRecords(added, played, pairs)
    {
      added, played := [], [];
      ghost var records, rounds := scorer.log, roundLog;
      for i := 0 to |pairs|
        invariant Valid() && scorer.Valid() && scorer.models == AgentNames(agents)
        invariant matchCounter == old(matchCounter) + i
        invariant scorer.log == records + added && roundLog == rounds + played
        invariant |added| == i && LeagueRecords(added, played, pairs)
      {
        var (agent1, agent2) := pairs[i];
        NameRegistered(agents, agent1);
        NameRegistered(agents, agent2);
        ghost var round := PlayLeaguePair(agent1, agent2, oracle, scorer);
        LeagueRecordsSnoc(added, played, pairs, round);
        ghost var rec := RecordFor(agent1, agent2, round.result1);
        AppendAssoc(records, added, [rec]);
        AppendAssoc(rounds, played, [round]);
        added := added + [rec];
        played := played + [round];
      }
    }

    /**
     * Round `roundNum` of `run_league`: shuffle the agents with `perm(roundNum)`, pair them up
     * and play the league round; the round's pairs, records and logged rounds extend the run.
     */
    method PlayLeagueRoundNum(agents: seq<PlayerAgent>, roundNum: nat, oracle: Oracle, perm: nat -> nat -> nat,
                              scorer: TournamentScorer, ghost pairsOf: seq<seq<(PlayerAgent, PlayerAgent)>>,
                              ghost added: seq<seq<Recorded>>, ghost played: seq<seq<RpsAnalysis.RoundRecord>>,
                              ghost log0: seq<RpsAnalysis.RoundRecord>)
      returns (ghost pairs: seq<(PlayerAgent, PlayerAgent)>, ghost a: seq<Recorded>,
               ghost p: seq<RpsAnalysis.RoundRecord>)
      requires Valid() && scorer.Valid() && scorer.models == AgentNames(agents) && roundNum == |pairsOf| + 1
      requires LeagueRun(agents, perm, pairsOf, added, played)
      requires scorer.log == Concat(added) && roundLog == log0 + Concat(played) && OppositeResults(scorer.log)
      modifies this, scorer
      ensures Valid() && scorer.Valid() && scorer.models == old(scorer.models)
      ensures LeagueRun(agents, perm, pairsOf + [pairs], added + [a], played + [p])
      ensures scorer.log == Concat(added + [a]) && roundLog == log0 + Concat(played + [p])
      ensures OppositeResults(scorer.log) && |scorer.log| == |old(scorer.log)| + |agents| / 2
      ensures matchCounter == old(matchCounter) + |agents| / 2
    {
      var shuffledAgents := Shuffle.Shuffled(agents, perm(roundNum));
      var realPairs := PairUp(shuffledAgents);
      pairs := realPairs;
      forall k | 0 <= k < |pairs| ensures pairs[k].0 in agents && pairs[k].1 in agents {
        Shuffle.ShuffledSameMembers(agents, perm(roundNum), pairs[k].0);
        Shuffle.ShuffledSameMembers(agents, perm(roundNum), pairs[k].1);
      }
      ghost var before := scorer.log;
      a, p := PlayLeagueRound(realPairs, oracle, scorer, agents);
      OppositeAppend(before, a, p, pairs);
      LeagueRunSnoc(agents, perm, pairsOf, added, played, pairs, a, p);
      ConcatSnoc(added, a);
      ConcatSnoc(played, p);
      AppendAssoc(log0, Concat(played), p);
    }

    /**
     * `run_league`: each of `rounds` rounds shuffles the agents (`perm(round)` stands for
     * `random.shuffle`) and plays one round between consecutive pairs, `n / 2` per round.
     */
    method RunLeague(agents: seq<PlayerAgent>, rounds: int, oracle: Oracle, perm: nat -> nat -> nat)
      returns (res: ScoredResults, scorer: TournamentScorer, ghost pairsOf: seq<seq<(PlayerAgent, PlayerAgent)>>,
               ghost added: seq<seq<Recorded>>, ghost played: seq<seq<RpsAnalysis.RoundRecord>>)
      requires Valid()
      modifies this
      ensures Valid() && fresh(scorer) && scorer.Valid() && scorer.models == AgentNames(agents)
      ensures res.tournamentType == "league" && res.participants == AgentNames(agents) && res.totalMatches == rounds
      ensures |pairsOf| == TournamentSystem.Max0(rounds) && LeagueRun(agents, perm, pairsOf, added, played)
      ensures scorer.log == Concat(added) && roundLog == old(roundLog) + Concat(played)
      ensures |scorer.log| == TournamentSystem.Max0(rounds) * (|agents| / 2)
      ensures matchCounter == old(matchCounter) + TournamentSystem.Max0(rounds) * (|agents| / 2)
      ensures OppositeResults(scorer.log)
      ensures res.finalStandings == scorer.GetStandings() && res.champion == scorer.GetChampion()
    {
      var agentNames := AgentNames(agents);
      scorer := new TournamentScorer(agentNames);
      var half := |agents| / 2;
      pairsOf, added, played := [], [], [];
      for roundNum := 1 to TournamentSystem.Max0(rounds) + 1
        invariant Valid() && fresh(scorer) && scorer.Valid() && scorer.models == agentNames
        invariant |pairsOf| == roundNum - 1 && LeagueRun(agents, perm, pairsOf, added, played)
        invariant scorer.log == Concat(added) && roundLog == old(roundLog) + Concat(played)
        invariant |scorer.log| == (roundNum - 1) * half
        invariant matchCounter == old(matchCounter) + (roundNum - 1) * half
        invariant OppositeResults(scorer.log)
      {
        ghost var pairs, a, p := PlayLeagueRoundNum(agents, roundNum, oracle, perm, scorer, pairsOf, added, played,
                                                    old(roundLog));
        MulSucc(roundNum - 1, half);
        pairsOf, added, played := pairsOf + [pairs], added + [a], played + [p];
      }
      res := ScoredResults("league", agentNames, scorer.GetChampion(), scorer.GetStandings(), rounds);
    }
  }

  /**
   * The rounds the manager logs are the ones the analyzer reads: between two different
   * agents, head-to-head analysis from either side lists the same rounds with the wins
   * exchanged.
   */
  lemma LoggedHeadToHead(m: TournamentManager, a: string, b: string)
    requires m.Valid() && a != b
    ensures RpsAnalysis.H2HRounds(m.roundLog, b, a) == RpsAnalysis.Flip(RpsAnalysis.H2HRounds(m.roundLog, a, b))
    ensures RpsAnalysis.Tally(RpsAnalysis.H2HRounds(m.roundLog, b, a), Win)
            == RpsAnalysis.Tally(RpsAnalysis.H2HRounds(m.roundLog, a, b), Loss)
  {
    RpsAnalysis.HeadToHeadSwap(m.roundLog, a, b);
  }
}
