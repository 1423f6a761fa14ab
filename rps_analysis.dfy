/**
 * `TournamentAnalyzer`: statistics read back from a tournament's log. The log is a list of
 * records; one record per played round (`"type": "match"`) and one per finished match
 * (`"type": "match_end"`) are the ones the counters below look at.
 */
module RpsAnalysis {
  import opened RpsRules
  import opened Ranking
  import opened Py

  /** A `"match"` record: one round, as `log_match` writes it. */
  datatype RoundRecord = RoundRecord(matchId: string, player1: string, player2: string,
                                     move1: Move, move2: Move, result1: GameResult, result2: GameResult)

  /** The fields of a `"match_end"` record the counters read; `winner` is a name or "Draw". */
  datatype MatchEndRecord = MatchEndRecord(player1: string, player2: string, winner: string)

  datatype LogRecord = RoundLog(round: RoundRecord) | MatchEndLog(end: MatchEndRecord) | OtherLog(kind: string)

  /** `[r for r in tournament_data if r.get("type") == "match"]`. */
  function RoundsOf(data: seq<LogRecord>): (rs: seq<RoundRecord>)
    ensures |rs| <= |data|
    ensures forall r :: r in rs <==> RoundLog(r) in data
  {
    if data == [] then []
    else
      var pre := data[..|data| - 1];
      var last := data[|data| - 1];
      assert data == pre + [last];
      RoundsOf(pre) + (if last.RoundLog? then [last.round] else [])
  }

  /** `[r for r in tournament_data if r.get("type") == "match_end"]`. */
  function MatchEndsOf(data: seq<LogRecord>): (es: seq<MatchEndRecord>)
    ensures |es| <= |data|
    ensures forall e :: e in es <==> MatchEndLog(e) in data
  {
    if data == [] then []
    else
      var pre := data[..|data| - 1];
      var last := data[|data| - 1];
      assert data == pre + [last];
      MatchEndsOf(pre) + (if last.MatchEndLog? then [last.end] else [])
  }

  /** A record written by the tournament, whose two results are those of `determine_winner`. */
  predicate Consistent(r: RoundRecord)
  {
    (r.result1, r.result2) == DetermineWinner(r.move1, r.move2)
  }

  // ----- get_head_to_head_analysis -----

  /** One entry of `rounds_detail`, seen from agent 1. */
  datatype H2HRound = H2HRound(agent1Move: Move, agent2Move: Move, result: GameResult)

  /** The entry a round between the two agents contributes, oriented towards `agent1`. */
  function Oriented(r: RoundRecord, agent1: string, agent2: string): seq<H2HRound>
  {
    if (r.player1 == agent1 && r.player2 == agent2) || (r.player1 == agent2 && r.player2 == agent1) then
      if r.player1 == agent1 then [H2HRound(r.move1, r.move2, r.result1)]
      else [H2HRound(r.move2, r.move1, r.result2)]
    else []
  }

  /** `rounds_detail`: every round between the two agents, in log order. */
  function H2HRounds(ms: seq<RoundRecord>, agent1: string, agent2: string): seq<H2HRound>
  {
    if ms == [] then [] else H2HRounds(ms[..|ms| - 1], agent1, agent2) + Oriented(ms[|ms| - 1], agent1, agent2)
  }

  /** How many entries have result `x`. */
  function Tally(hs: seq<H2HRound>, x: GameResult): nat
  {
    if hs == [] then 0 else Tally(hs[..|hs| - 1], x) + (if hs[|hs| - 1].result == x then 1 else 0)
  }

  lemma {:induction false} TallyAddsUp(hs: seq<H2HRound>)
    ensures Tally(hs, Win) + Tally(hs, Loss) + Tally(hs, Draw) == |hs|
  {
    if hs != [] {
      TallyAddsUp(hs[..|hs| - 1]);
    }
  }

  lemma TallySnoc(hs: seq<H2HRound>, extra: seq<H2HRound>, x: GameResult)
    requires |extra| <= 1
    ensures Tally(hs + extra, x) == Tally(hs, x) + (if |extra| == 1 && extra[0].result == x then 1 else 0)
  {
    if |extra| == 1 {
      assert (hs + extra)[..|hs|] == hs;
    } else {
      assert hs + extra == hs;
    }
  }

  lemma H2HSnoc(ms: seq<RoundRecord>, i: nat, agent1: string, agent2: string)
    requires i < |ms|
    ensures H2HRounds(ms[..i + 1], agent1, agent2) == H2HRounds(ms[..i], agent1, agent2) + Oriented(ms[i], agent1, agent2)
  {
    assert ms[..i + 1][..i] == ms[..i];
  }

  /** One round record's turn in the loop of `get_head_to_head_analysis`. */
  method H2HStep(m: RoundRecord, agent1: string, agent2: string, rounds: seq<H2HRound>, wins1: nat, wins2: nat, draws: nat)
    returns (rounds': seq<H2HRound>, wins1': nat, wins2': nat, draws': nat)
    requires wins1 == Tally(rounds, Win) && wins2 == Tally(rounds, Loss) && draws == Tally(rounds, Draw)
    ensures rounds' == rounds + Oriented(m, agent1, agent2)
    ensures wins1' == Tally(rounds', Win) && wins2' == Tally(rounds', Loss) && draws' == Tally(rounds', Draw)
  {
    var extra: seq<H2HRound> := [];
    wins1', wins2', draws' := wins1, wins2, draws;
    if (m.player1 == agent1 && m.player2 == agent2) || (m.player1 == agent2 && m.player2 == agent1) {
      if m.player1 == agent1 {
        extra := [H2HRound(m.move1, m.move2, m.result1)];
        if m.result1 == Win {
          wins1' := wins1 + 1;
        } else if m.result1 == Loss {
          wins2' := wins2 + 1;
        } else {
          draws' := draws + 1;
        }
      } else {
        extra := [H2HRound(m.move2, m.move1, m.result2)];
        if m.result2 == Win {
          wins1' := wins1 + 1;
        } else if m.result2 == Loss {
          wins2' := wins2 + 1;
        } else {
          draws' := draws + 1;
        }
      }
    }
    TallySnoc(rounds, extra, Win);
    TallySnoc(rounds, extra, Loss);
    TallySnoc(rounds, extra, Draw);
    rounds' := rounds + extra;
  }

  /** The dictionary `get_head_to_head_analysis` returns. */
  datatype HeadToHead = HeadToHead(agent1: string, agent2: string, totalRounds: nat, agent1Wins: nat,
                                   agent2Wins: nat, draws: nat, agent1WinRate: Ratio, agent2WinRate: Ratio,
                                   roundsDetail: seq<H2HRound>)

  /** Each entry from agent 2's side: moves exchanged and the opposite result. */
  function Flip(hs: seq<H2HRound>): (r: seq<H2HRound>)
    ensures |r| == |hs|
    ensures forall i :: 0 <= i < |hs| ==>
      r[i] == H2HRound(hs[i].agent2Move, hs[i].agent1Move, Opposite(hs[i].result))
  {
    seq(|hs|, i requires 0 <= i < |hs| => H2HRound(hs[i].agent2Move, hs[i].agent1Move, Opposite(hs[i].result)))
  }

  lemma {:induction false} TallyFlip(hs: seq<H2HRound>)
    ensures Tally(Flip(hs), Win) == Tally(hs, Loss) && Tally(Flip(hs), Loss) == Tally(hs, Win)
    ensures Tally(Flip(hs), Draw) == Tally(hs, Draw)
  {
    if hs != [] {
      var pre := hs[..|hs| - 1];
      assert Flip(hs)[..|hs| - 1] == Flip(pre);
      TallyFlip(pre);
    }
  }

  lemma FlipAppend(x: seq<H2HRound>, y: seq<H2HRound>)
    ensures Flip(x + y) == Flip(x) + Flip(y)
  {
  }

  /** A round read from the other agent's side is the same round flipped. */
  lemma OrientedFlip(r: RoundRecord, a: string, b: string)
    requires a != b && Consistent(r)
    ensures Oriented(r, b, a) == Flip(Oriented(r, a, b))
  {
    DetermineWinnerSwap(r.move1, r.move2);
  }

  /**
   * Between two different agents, over a log the tournament wrote, the analysis from agent
   * 2's side lists the same rounds with the moves exchanged, and swaps the win counts.
   */
  lemma {:induction false} HeadToHeadSwap(ms: seq<RoundRecord>, a: string, b: string)
    requires a != b
    requires forall k :: 0 <= k < |ms| ==> Consistent(ms[k])
    ensures H2HRounds(ms, b, a) == Flip(H2HRounds(ms, a, b))
    ensures Tally(H2HRounds(ms, b, a), Win) == Tally(H2HRounds(ms, a, b), Loss)
    ensures Tally(H2HRounds(ms, b, a), Draw) == Tally(H2HRounds(ms, a, b), Draw)
  {
    if ms != [] {
      var pre := ms[..|ms| - 1];
      var r := ms[|ms| - 1];
      HeadToHeadSwap(pre, a, b);
      OrientedFlip(r, a, b);
      FlipAppend(H2HRounds(pre, a, b), Oriented(r, a, b));
    }
    TallyFlip(H2HRounds(ms, a, b));
  }

  /** Over a log the tournament wrote, every entry's result is agent 1's result for those moves. */
  lemma {:induction false} HeadToHeadResults(ms: seq<RoundRecord>, a: string, b: string)
    requires forall k :: 0 <= k < |ms| ==> Consistent(ms[k])
    ensures forall h :: h in H2HRounds(ms, a, b) ==> h.result == DetermineWinner(h.agent1Move, h.agent2Move).0
  {
    if ms != [] {
      HeadToHeadResults(ms[..|ms| - 1], a, b);
      DetermineWinnerSwap(ms[|ms| - 1].move1, ms[|ms| - 1].move2);
    }
  }

  // ----- get_agent_statistics -----

  /** One round `agent` played: its move, its opponent and its result. */
  datatype Side = Side(move: Move, opponent: string, result: GameResult)

  /** The side a round record gives `agent`; player 1 is checked first. */
  function SideOf(r: RoundRecord, agent: string): seq<Side>
  {
    if r.player1 == agent then [Side(r.move1, r.player2, r.result1)]
    else if r.player2 == agent then [Side(r.move2, r.player1, r.result2)]
    else []
  }

  function Sides(ms: seq<RoundRecord>, agent: string): seq<Side>
  {
    if ms == [] then [] else Sides(ms[..|ms| - 1], agent) + SideOf(ms[|ms| - 1], agent)
  }

  function SideResults(ss: seq<Side>): (r: seq<GameResult>)
    ensures |r| == |ss| && forall i :: 0 <= i < |ss| ==> r[i] == ss[i].result
  {
    seq(|ss|, i requires 0 <= i < |ss| => ss[i].result)
  }

  function SideMoves(ss: seq<Side>): (r: seq<Move>)
    ensures |r| == |ss| && forall i :: 0 <= i < |ss| ==> r[i] == ss[i].move
  {
    seq(|ss|, i requires 0 <= i < |ss| => ss[i].move)
  }

  function Opponents(ss: seq<Side>): set<string>
  {
    set i | 0 <= i < |ss| :: ss[i].opponent
  }

  /** What a `"match_end"` record means for `agent`: a win, a draw, a loss, or nothing. */
  function MatchOutcome(e: MatchEndRecord, agent: string): seq<GameResult>
  {
    if e.player1 == agent || e.player2 == agent then
      [if e.winner == agent then Win else if e.winner == "Draw" then Draw else Loss]
    else []
  }

  function MatchOutcomes(es: seq<MatchEndRecord>, agent: string): seq<GameResult>
  {
    if es == [] then [] else MatchOutcomes(es[..|es| - 1], agent) + MatchOutcome(es[|es| - 1], agent)
  }

  /** The counting part of the dictionary `get_agent_statistics` returns. */
  datatype AgentStatistics = AgentStatistics(agentName: string, totalRounds: nat, roundWins: nat, roundLosses: nat,
                                             roundDraws: nat, roundWinRate: Ratio, matchWins: nat,
                                             matchLosses: nat, matchDraws: nat, matchWinRate: Ratio,
                                             moveFrequency: map<string, nat>, opponentsFaced: set<string>,
                                             totalOpponents: nat)

  lemma SidesSnoc(ms: seq<RoundRecord>, i: nat, agent: string)
    requires i < |ms|
    ensures Sides(ms[..i + 1], agent) == Sides(ms[..i], agent) + SideOf(ms[i], agent)
  {
    assert ms[..i + 1][..i] == ms[..i];
  }

  lemma OutcomesSnoc(es: seq<MatchEndRecord>, i: nat, agent: string, x: GameResult)
    requires i < |es|
    ensures multiset(MatchOutcomes(es[..i + 1], agent))[x] ==
      multiset(MatchOutcomes(es[..i], agent))[x] + multiset(MatchOutcome(es[i], agent))[x]
  {
    assert es[..i + 1][..i] == es[..i];
    assert MatchOutcomes(es[..i + 1], agent) == MatchOutcomes(es[..i], agent) + MatchOutcome(es[i], agent);
  }

  /** Extending the sides by at most one side extends their results, moves and opponents by it. */
  lemma SideStep(ss: seq<Side>, extra: seq<Side>)
    requires |extra| <= 1
    ensures SideResults(ss + extra) == SideResults(ss) + SideResults(extra)
    ensures SideMoves(ss + extra) == SideMoves(ss) + SideMoves(extra)
    ensures Opponents(ss + extra) == Opponents(ss) + Opponents(extra)
  {
    var t := ss + extra;
    assert forall i :: 0 <= i < |ss| ==> t[i] == ss[i];
    if |extra| == 1 {
      assert t[|ss|] == extra[0];
      assert Opponents(extra) == {extra[0].opponent};
    }
  }

  lemma SideAdded(before: seq<Side>, s: Side)
    ensures multiset(SideResults(before + [s])) == multiset(SideResults(before)) + multiset{s.result}
    ensures multiset(SideMoves(before + [s])) == multiset(SideMoves(before)) + multiset{s.move}
    ensures Opponents(before + [s]) == Opponents(before) + {s.opponent}
  {
    SideStep(before, [s]);
  }

  /** Adding one to a move's entry of the frequency table counts one more of that move. */
  lemma BumpMove(moves: map<string, nat>, counted: multiset<Move>, mv: Move)
    requires moves.Keys == {"rock", "paper", "scissors"}
    requires forall m :: moves[Value(m)] == counted[m]
    ensures forall m :: moves[Value(mv) := moves[Value(mv)] + 1][Value(m)] == (counted + multiset{mv})[m]
  {
    forall m
      ensures moves[Value(mv) := moves[Value(mv)] + 1][Value(m)] == (counted + multiset{mv})[m]
    {
      if m != mv {
        assert |Value(m)| != |Value(mv)|;
      }
    }
  }

  /** The `if result == "win" ... elif ... else` counting of one round's result. */
  method CountResult(result: GameResult, wins: nat, losses: nat, draws: nat) returns (wins': nat, losses': nat, draws': nat)
    ensures wins' == wins + multiset{result}[Win]
    ensures losses' == losses + multiset{result}[Loss]
    ensures draws' == draws + multiset{result}[Draw]
  {
    wins', losses', draws' := wins, losses, draws;
    if result == Win {
      wins' := wins + 1;
    } else if result == Loss {
      losses' := losses + 1;
    } else {
      draws' := draws + 1;
    }
  }

  /** One round record's turn in the round loop of `get_agent_statistics`. */
  method CountRound(r: RoundRecord, agent: string, ghost before: seq<Side>, total: nat, wins: nat, losses: nat,
                    draws: nat, moves: map<string, nat>, opponents: set<string>)
    returns (total': nat, wins': nat, losses': nat, draws': nat, moves': map<string, nat>, opponents': set<string>)
    requires total == |before|
    requires wins == multiset(SideResults(before))[Win] && losses == multiset(SideResults(before))[Loss]
    requires draws == multiset(SideResults(before))[Draw]
    requires moves.Keys == {"rock", "paper", "scissors"}
    requires forall m :: moves[Value(m)] == multiset(SideMoves(before))[m]
    requires opponents == Opponents(before)
    ensures total' == |before + SideOf(r, agent)|
    ensures wins' == multiset(SideResults(before + SideOf(r, agent)))[Win]
    ensures losses' == multiset(SideResults(before + SideOf(r, agent)))[Loss]
    ensures draws' == multiset(SideResults(before + SideOf(r, agent)))[Draw]
    ensures moves'.Keys == {"rock", "paper", "scissors"}
    ensures forall m :: moves'[Value(m)] == multiset(SideMoves(before + SideOf(r, agent)))[m]
    ensures opponents' == Opponents(before + SideOf(r, agent))
  {
    total', wins', losses', draws', moves', opponents' := total, wins, losses, draws, moves, opponents;
    if r.player1 == agent || r.player2 == agent {
      var s := SideOf(r, agent)[0];
      SideAdded(before, s);
      BumpMove(moves, multiset(SideMoves(before)), s.move);
      total' := total + 1;
      moves' := moves[Value(s.move) := moves[Value(s.move)] + 1];
      opponents' := opponents + {s.opponent};
      wins', losses', draws' := CountResult(s.result, wins, losses, draws);
    } else {
      assert before + SideOf(r, agent) == before;
    }
  }

  /** The round loop of `get_agent_statistics`. */
  method RoundCounts(ms: seq<RoundRecord>, agent: string)
    returns (total: nat, wins: nat, losses: nat, draws: nat, moves: map<string, nat>, opponents: set<string>)
    ensures total == |Sides(ms, agent)|
    ensures wins == multiset(SideResults(Sides(ms, agent)))[Win]
    ensures losses == multiset(SideResults(Sides(ms, agent)))[Loss]
    ensures draws == multiset(SideResults(Sides(ms, agent)))[Draw]
    ensures moves.Keys == {"rock", "paper", "scissors"}
    ensures forall m :: moves[Value(m)] == multiset(SideMoves(Sides(ms, agent)))[m]
    ensures opponents == Opponents(Sides(ms, agent))
  {
    total, wins, losses, draws := 0, 0, 0, 0;
    moves := map["rock" := 0, "paper" := 0, "scissors" := 0];
    opponents := {};
    for i := 0 to |ms|
      invariant total == |Sides(ms[..i], agent)|
      invariant wins == multiset(SideResults(Sides(ms[..i], agent)))[Win]
      invariant losses == multiset(SideResults(Sides(ms[..i], agent)))[Loss]
      invariant draws == multiset(SideResults(Sides(ms[..i], agent)))[Draw]
      invariant moves.Keys == {"rock", "paper", "scissors"}
      invariant forall m :: moves[Value(m)] == multiset(SideMoves(Sides(ms[..i], agent)))[m]
      invariant opponents == Opponents(Sides(ms[..i], agent))
    {
      SidesSnoc(ms, i, agent);
      total, wins, losses, draws, moves, opponents :=
        CountRound(ms[i], agent, Sides(ms[..i], agent), total, wins, losses, draws, moves, opponents);
    }
    assert ms[..|ms|] == ms;
  }

  /** One `"match_end"` record's turn in the match-end loop of `get_agent_statistics`. */
  method CountMatchEnd(e: MatchEndRecord, agent: string, wins: nat, draws: nat, losses: nat)
    returns (wins': nat, draws': nat, losses': nat)
    ensures wins' == wins + multiset(MatchOutcome(e, agent))[Win]
    ensures draws' == draws + multiset(MatchOutcome(e, agent))[Draw]
    ensures losses' == losses + multiset(MatchOutcome(e, agent))[Loss]
  {
    wins', draws', losses' := wins, draws, losses;
    if e.player1 == agent || e.player2 == agent {
      if e.winner == agent {
        wins' := wins + 1;
      } else if e.winner == "Draw" {
        draws' := draws + 1;
      } else {
        losses' := losses + 1;
      }
    }
  }

  /** The match-end loop of `get_agent_statistics`. */
  method MatchCounts(es: seq<MatchEndRecord>, agent: string) returns (wins: nat, draws: nat, losses: nat)
    ensures wins == multiset(MatchOutcomes(es, agent))[Win]
    ensures draws == multiset(MatchOutcomes(es, agent))[Draw]
    ensures losses == multiset(MatchOutcomes(es, agent))[Loss]
  {
    wins, draws, losses := 0, 0, 0;
    for i := 0 to |es|
      invariant wins == multiset(MatchOutcomes(es[..i], agent))[Win]
      invariant draws == multiset(MatchOutcomes(es[..i], agent))[Draw]
      invariant losses == multiset(MatchOutcomes(es[..i], agent))[Loss]
    {
      OutcomesSnoc(es, i, agent, Win);
      OutcomesSnoc(es, i, agent, Draw);
      OutcomesSnoc(es, i, agent, Loss);
      wins, draws, losses := CountMatchEnd(es[i], agent, wins, draws, losses);
    }
    assert es[..|es|] == es;
  }

  lemma ResultCountsSum(rs: seq<GameResult>)
    ensures multiset(rs)[Win] + multiset(rs)[Loss] + multiset(rs)[Draw] == |rs|
  {
    assert forall i :: 0 <= i < |rs| ==> rs[i].Win? || rs[i].Loss? || rs[i].Draw?;
    CountsOfThree(rs, Win, Loss, Draw);
  }

  class TournamentAnalyzer {
    var data: seq<LogRecord>
    var matches: seq<RoundRecord>
    var matchEnds: seq<MatchEndRecord>

    /** `__init__`: keep the log and pick out its round and match-end records. */
    constructor (tournamentData: seq<LogRecord>)
      ensures data == tournamentData && matches == RoundsOf(tournamentData) && matchEnds == MatchEndsOf(tournamentData)
    {
      data := tournamentData;
      matches := RoundsOf(tournamentData);
      matchEnds := MatchEndsOf(tournamentData);
    }

    /**
     * `get_head_to_head_analysis`: every round between the two agents from agent 1's side,
     * how many each won and how many were drawn; the three counts add up to the rounds.
     */
    method GetHeadToHeadAnalysis(agent1: string, agent2: string) returns (h: HeadToHead)
      ensures h.agent1 == agent1 && h.agent2 == agent2
      ensures h.roundsDetail == H2HRounds(matches, agent1, agent2) && h.totalRounds == |h.roundsDetail|
      ensures h.agent1Wins == Tally(h.roundsDetail, Win) && h.agent2Wins == Tally(h.roundsDetail, Loss)
      ensures h.draws == Tally(h.roundsDetail, Draw)
      ensures h.agent1Wins + h.agent2Wins + h.draws == h.totalRounds
      ensures h.agent1WinRate == RateOf(h.agent1Wins, h.totalRounds) && h.agent2WinRate == RateOf(h.agent2Wins, h.totalRounds)
    {
      var rounds: seq<H2HRound> := [];
      var wins1: nat, wins2: nat, draws: nat := 0, 0, 0;
      for i := 0 to |matches|
        invariant rounds == H2HRounds(matches[..i], agent1, agent2)
        invariant wins1 == Tally(rounds, Win) && wins2 == Tally(rounds, Loss) && draws == Tally(rounds, Draw)
      {
        H2HSnoc(matches, i, agent1, agent2);
        rounds, wins1, wins2, draws := H2HStep(matches[i], agent1, agent2, rounds, wins1, wins2, draws);
      }
      assert matches[..|matches|] == matches;
      TallyAddsUp(rounds);
      var total := |rounds|;
      h := HeadToHead(agent1, agent2, total, wins1, wins2, draws, RateOf(wins1, total), RateOf(wins2, total), rounds);
    }

    /**
     * The counters of `get_agent_statistics`: the agent's rounds split into wins, losses and
     * draws, its moves by kind, the opponents it met, and its finished matches split into
     * wins, losses and draws.
     */
    method GetAgentStatistics(agentName: string) returns (st: AgentStatistics)
      ensures st.agentName == agentName && st.totalRounds == |Sides(matches, agentName)|
      ensures st.roundWins == multiset(SideResults(Sides(matches, agentName)))[Win]
      ensures st.roundLosses == multiset(SideResults(Sides(matches, agentName)))[Loss]
      ensures st.roundDraws == multiset(SideResults(Sides(matches, agentName)))[Draw]
      ensures st.roundWins + st.roundLosses + st.roundDraws == st.totalRounds
      ensures st.moveFrequency.Keys == {"rock", "paper", "scissors"}
      ensures forall m :: st.moveFrequency[Value(m)] == multiset(SideMoves(Sides(matches, agentName)))[m]
      ensures st.moveFrequency["rock"] + st.moveFrequency["paper"] + st.moveFrequency["scissors"] == st.totalRounds
      ensures st.opponentsFaced == Opponents(Sides(matches, agentName)) && st.totalOpponents == |st.opponentsFaced|
      ensures st.matchWins == multiset(MatchOutcomes(matchEnds, agentName))[Win]
      ensures st.matchDraws == multiset(MatchOutcomes(matchEnds, agentName))[Draw]
      ensures st.matchLosses == multiset(MatchOutcomes(matchEnds, agentName))[Loss]
      ensures st.matchWins + st.matchLosses + st.matchDraws == |MatchOutcomes(matchEnds, agentName)|
      ensures st.roundWinRate == RateOf(st.roundWins, st.totalRounds)
      ensures st.matchWinRate == RateOf(st.matchWins, st.matchWins + st.matchLosses + st.matchDraws)
    {
      var total, wins, losses, draws, moves, opponents := RoundCounts(matches, agentName);
      var mWins, mDraws, mLosses := MatchCounts(matchEnds, agentName);
      ResultCountsSum(SideResults(Sides(matches, agentName)));
      ResultCountsSum(MatchOutcomes(matchEnds, agentName));
      MoveCountsSum(SideMoves(Sides(matches, agentName)));
      assert moves["rock"] == moves[Value(Rock)] && moves["paper"] == moves[Value(Paper)];
      assert moves["scissors"] == moves[Value(Scissors)];
      var played := mWins + mLosses + mDraws;
      st := AgentStatistics(agentName, total, wins, losses, draws, RateOf(wins, total), mWins, mLosses, mDraws,
                            RateOf(mWins, played), moves, opponents, |opponents|);
    }
  }
}
