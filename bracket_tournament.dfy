/**
 * The original single-elimination Tic-Tac-Toe tournament: a bracket of model names padded
 * to a power of two, rounds that pair neighbours and advance the winner of each game (one
 * of the two, chosen at random, on a draw), a seeded bracket builder, and the per-model
 * tallies of a finished tournament.
 */
module BracketTournament {
  import opened Wrappers
  import Py
  import opened PowersOfTwo
  import Shuffle
  import GameEngine
  import opened Ranking
  import TournamentSystem

  /** The model an empty list of participants falls back to. */
  const DEFAULT_MODEL: string := "phi4"

  // ----- padding the bracket -----

  /** Every entry added after `orig`, at position `i`, repeats one of the first `i / 2` entries. */
  ghost predicate DrawnFromFirstHalf(orig: seq<string>, padded: seq<string>)
  {
    orig <= padded && forall i :: |orig| <= i < |padded| ==> padded[i] in padded[..i / 2]
  }

  /** What `_pad_to_power_of_two` makes of `orig`. */
  ghost predicate Padded(orig: seq<string>, padded: seq<string>)
  {
    (|orig| == 0 ==> padded == [DEFAULT_MODEL, DEFAULT_MODEL])
    && (|orig| == 1 ==> padded == orig + orig)
    && (|orig| >= 2 ==> DrawnFromFirstHalf(orig, padded) && |padded| == NextPow2(|orig|))
  }

  /** Dropping the last added entry keeps the property, and that entry was already present. */
  lemma DrawnDropLast(orig: seq<string>, padded: seq<string>)
    requires DrawnFromFirstHalf(orig, padded) && |padded| > |orig|
    ensures DrawnFromFirstHalf(orig, padded[..|padded| - 1])
    ensures padded[|padded| - 1] in padded[..|padded| - 1]
  {
    var n := |padded| - 1;
    var pre := padded[..n];
    forall i | |orig| <= i < n ensures pre[i] in pre[..i / 2] {
      assert pre[..i / 2] == padded[..i / 2];
    }
    assert padded[..n / 2] <= pre;
  }

  /** Drawing from the first half never brings in a name that was not there at the start. */
  lemma {:induction false} DrawnFromOriginal(orig: seq<string>, padded: seq<string>)
    requires DrawnFromFirstHalf(orig, padded)
    ensures forall x :: x in padded ==> x in orig
    decreases |padded|
  {
    if |padded| > |orig| {
      var pre := padded[..|padded| - 1];
      DrawnDropLast(orig, padded);
      DrawnFromOriginal(orig, pre);
      forall x | x in padded ensures x in orig {
        var j :| 0 <= j < |padded| && padded[j] == x;
        if j < |pre| {
          assert pre[j] == x;
        }
      }
    }
  }

  /** A padded bracket has a power-of-two size of at least 2, and its names come from `orig`. */
  lemma PaddedShape(orig: seq<string>, padded: seq<string>)
    requires Padded(orig, padded)
    ensures |padded| >= 2 && IsPow2(|padded|)
    ensures |orig| >= 1 ==> orig <= padded && forall x :: x in padded ==> x in orig
    ensures |orig| == 0 ==> forall x :: x in padded ==> x == DEFAULT_MODEL
  {
    assert IsPow2(2) by {
      assert IsPow2(1);
    }
    if |orig| == 1 {
      assert padded[1] == orig[0];
    }
    if |orig| >= 2 {
      DrawnFromOriginal(orig, padded);
      NextPow2Least(|orig|, |orig|);
    }
  }

  lemma DrawnSnoc(orig: seq<string>, ms: seq<string>, x: string)
    requires DrawnFromFirstHalf(orig, ms) && x in ms[..|ms| / 2]
    ensures DrawnFromFirstHalf(orig, ms + [x])
  {
    var r := ms + [x];
    assert r[..|ms|] == ms && r[..|ms| / 2] == ms[..|ms| / 2];
    forall i | |orig| <= i < |r| ensures r[i] in r[..i / 2] {
      if i < |ms| {
        assert r[..i / 2] == ms[..i / 2];
      }
    }
  }

  /** The `while` loop of `_pad_to_power_of_two` on a list of at least two models. */
  method GrowToPow2(models: seq<string>, pick: nat -> nat) returns (ms: seq<string>)
    requires |models| >= 2
    ensures DrawnFromFirstHalf(models, ms) && |ms| == NextPow2(|models|)
  {
    ms := models;
    var nextPower := NextPow2(|ms|);
    NextPow2Least(|ms|, |ms|);
    while |ms| < nextPower
      invariant DrawnFromFirstHalf(models, ms) && |ms| <= nextPower
      decreases nextPower - |ms|
    {
      var half := ms[..|ms| / 2];
      var choice := half[pick(|ms|) % |half|];
      DrawnSnoc(models, ms, choice);
      ms := ms + [choice];
    }
  }

  class TournamentBracket {
    var models: seq<string>
    const seed: int

    /** The bracket a constructed `TournamentBracket` always holds. */
    predicate Valid()
      reads this
    {
      |models| >= 2 && IsPow2(|models|)
    }

    /** `TournamentBracket(models, temperature, seed)`: copy the models, then pad them. */
    constructor (models: seq<string>, seed: int, pick: nat -> nat)
      ensures Valid() && Padded(models, this.models) && this.seed == seed
    {
      this.models := models;
      this.seed := seed;
      new;
      PadToPowerOfTwo(pick);
    }

    /**
     * `_pad_to_power_of_two`: an empty list becomes two default models, a single model
     * plays itself, and a longer list grows to the next power of two, each new entry a
     * random choice (`pick`) among the first half of the list as it stands.
     */
    method PadToPowerOfTwo(pick: nat -> nat)
      modifies this
      ensures Valid() && Padded(old(models), models)
    {
      if |models| == 0 {
        models := [DEFAULT_MODEL, DEFAULT_MODEL];
        PaddedShape([], models);
        return;
      }
      if |models| == 1 {
        models := models + [models[0]];
        PaddedShape(old(models), models);
        return;
      }
      var ms := GrowToPow2(models, pick);
      models := ms;
      PaddedShape(old(models), models);
    }

    /** `get_total_rounds`: `int(log2(len(models)))`, exact once the bracket is padded. */
    function GetTotalRounds(): (r: nat)
      reads this
      requires |models| >= 1
      ensures Pow2(r) <= |models| < Pow2(r + 1)
      ensures IsPow2(|models|) ==> Pow2(r) == |models|
    {
      FloorLog2Bounds(|models|);
      if IsPow2(|models|) then
        LogsAgreeOnPow2(|models|);
        FloorLog2(|models|)
      else
        FloorLog2(|models|)
    }
  }

  // ----- one round of the bracket -----

  /** A scheduled match: `{"match_id", "model1", "model2"}`. */
  datatype MatchInfo = MatchInfo(matchId: string, model1: string, model2: string)

  /** A played match as `run_tournament` records it. */
  datatype MatchRecord = MatchRecord(round: nat, matchId: string, model1: string, model2: string,
                                     winner: Option<string>, advancing: string, result: string)

  function MatchId(roundNum: nat, j: nat): string
  {
    "R" + Py.NatToString(roundNum) + "M" + Py.NatToString(j + 1)
  }

  /** `current[i + 1] if i + 1 < len(current) else current[i]`, with `i = 2 * j`. */
  function Opponent(current: seq<string>, j: nat): string
    requires 2 * j < |current|
  {
    if 2 * j + 1 < |current| then current[2 * j + 1] else current[2 * j]
  }

  /** The matches of a round: entries `2j` and `2j + 1`, the last one playing itself when left alone. */
  ghost predicate Scheduled(current: seq<string>, roundNum: nat, ms: seq<MatchInfo>)
  {
    |ms| == (|current| + 1) / 2
    && forall j :: 0 <= j < |ms| ==>
         ms[j] == MatchInfo(MatchId(roundNum, j), current[2 * j], Opponent(current, j))
  }

  /** The first loop of a round: one match for every step of two along the field. */
  method ScheduleRound(current: seq<string>, roundNum: nat) returns (ms: seq<MatchInfo>)
    ensures Scheduled(current, roundNum, ms)
  {
    ms := [];
    var i := 0;
    while i < |current|
      invariant 0 <= i <= |current| + 1 && i % 2 == 0 && |ms| == i / 2
      invariant forall j :: 0 <= j < |ms| ==>
        ms[j] == MatchInfo(MatchId(roundNum, j), current[2 * j], Opponent(current, j))
    {
      var model1 := current[i];
      var model2 := if i + 1 < |current| then current[i + 1] else model1;
      ms := ms + [MatchInfo(MatchId(roundNum, i / 2), model1, model2)];
      i := i + 2;
    }
  }

  /**
   * The advancing model of a game is the X player on an X win, the O player on an O win,
   * and on a draw one of the two; the result is "win" exactly when there is a winner.
   */
  ghost predicate Decided(rec: MatchRecord)
  {
    (rec.winner == Some("X") ==> rec.advancing == rec.model1)
    && (rec.winner == Some("O") ==> rec.advancing == rec.model2)
    && (rec.winner.Some? ==> rec.winner == Some("X") || rec.winner == Some("O"))
    && (rec.advancing == rec.model1 || rec.advancing == rec.model2)
    && (rec.result == "win" <==> rec.winner.Some?)
  }

  /** Record `rec` is match `info` of round `roundNum`, decided. */
  ghost predicate RecordOf(rec: MatchRecord, info: MatchInfo, roundNum: nat)
  {
    rec.round == roundNum && rec.matchId == info.matchId
    && rec.model1 == info.model1 && rec.model2 == info.model2 && Decided(rec)
  }

  /** The game between the two agents of a match (`play_game`, its agents built from the models). */
  type Players = MatchInfo -> GameEngine.Agent

  /**
   * The game `cells` of the record's match: the moves `play_game` made for `agent`, stopping at
   * the first line. A winner is the mover of the last move, who completed a line; a draw is a
   * full board without a line, and then the advancing model is the tiebreak `coin` picked.
   */
  ghost predicate GameRecorded(rec: MatchRecord, agent: GameEngine.Agent, cells: seq<(int, int)>, coin: string -> nat)
  {
    GameEngine.Played(cells, agent) && GameEngine.AllOnBoard(cells) && GameEngine.NoLineBefore(cells)
    && |cells| <= 9 && rec.result == (if rec.winner.Some? then "win" else "draw")
    && (rec.winner.Some? ==>
          |cells| >= 1 && rec.winner.value == GameEngine.Symbol(|cells| - 1)
          && GameEngine.ThreeInARow(GameEngine.Replay(cells), rec.winner.value))
    && (rec.winner.None? ==>
          |cells| == 9
          && !GameEngine.ThreeInARow(GameEngine.Replay(cells), "X")
          && !GameEngine.ThreeInARow(GameEngine.Replay(cells), "O")
          && rec.advancing == (if coin(rec.matchId) % 2 == 0 then rec.model1 else rec.model2))
  }

  /** Record `rec` is match `info` of round `roundNum`, decided by the game `cells` of its agents. */
  ghost predicate MatchGame(rec: MatchRecord, info: MatchInfo, roundNum: nat, agents: Players,
                            coin: string -> nat, cells: seq<(int, int)>)
  {
    RecordOf(rec, info, roundNum) && GameRecorded(rec, agents(info), cells, coin)
  }

  /**
   * One game of the second loop of a round, with at most 50 moves; the draw tiebreak
   * `random.choice([model1, model2])` is `coin`.
   */
  method PlayMatch(info: MatchInfo, roundNum: nat, agents: Players, coin: string -> nat)
    returns (rec: MatchRecord, ghost cells: seq<(int, int)>)
    ensures MatchGame(rec, info, roundNum, agents, coin, cells)
  {
    var result, winner;
    result, winner, cells := GameEngine.PlayGame(agents(info), 50);
    var advancing;
    if winner == Some("X") {
      advancing := info.model1;
    } else if winner == Some("O") {
      advancing := info.model2;
    } else {
      advancing := if coin(info.matchId) % 2 == 0 then info.model1 else info.model2;
    }
    rec := MatchRecord(roundNum, info.matchId, info.model1, info.model2, winner, advancing, result);
  }

  /** The second loop of a round: play each scheduled game. */
  method PlayScheduled(ms: seq<MatchInfo>, roundNum: nat, agents: Players, coin: string -> nat)
    returns (next: seq<string>, records: seq<MatchRecord>, ghost games: seq<seq<(int, int)>>)
    ensures |next| == |records| == |games| == |ms|
    ensures forall j :: 0 <= j < |ms| ==>
      MatchGame(records[j], ms[j], roundNum, agents, coin, games[j]) && next[j] == records[j].advancing
  {
    next, records, games := [], [], [];
    for j := 0 to |ms|
      invariant |next| == |records| == |games| == j
      invariant forall k :: 0 <= k < j ==>
        MatchGame(records[k], ms[k], roundNum, agents, coin, games[k]) && next[k] == records[k].advancing
    {
      var rec, cells := PlayMatch(ms[j], roundNum, agents, coin);
      next := next + [rec.advancing];
      records := records + [rec];
      games := games + [cells];
    }
  }

  /**
   * Round `roundNum` on the even field `current` gave `next` and `records`: match `j` pits
   * entries `2j` and `2j + 1` under id `R{roundNum}M{j+1}`, was decided by game `games[j]`,
   * and its advancing model is `next[j]`.
   */
  ghost predicate RoundRecorded(current: seq<string>, roundNum: nat, next: seq<string>, records: seq<MatchRecord>,
                                games: seq<seq<(int, int)>>, agents: Players, coin: string -> nat)
  {
    |records| == |next| == |games| && 2 * |next| == |current|
    && forall j {:trigger games[j]} :: 0 <= j < |next| ==>
         MatchGame(records[j], MatchInfo(MatchId(roundNum, j), current[2 * j], current[2 * j + 1]), roundNum,
                   agents, coin, games[j])
         && next[j] == records[j].advancing
  }

  /** One round: schedule the matches, then play them; the winners form the next field. */
  method PlayRound(current: seq<string>, roundNum: nat, agents: Players, coin: string -> nat)
    returns (next: seq<string>, records: seq<MatchRecord>, ghost games: seq<seq<(int, int)>>)
    requires |current| % 2 == 0
    ensures TournamentSystem.Advances(current, next)
    ensures RoundRecorded(current, roundNum, next, records, games, agents, coin)
    ensures forall j :: 0 <= j < |next| ==>
      Decided(records[j]) && records[j].round == roundNum && next[j] == records[j].advancing
  {
    var ms := ScheduleRound(current, roundNum);
    next, records, games := PlayScheduled(ms, roundNum, agents, coin);
    forall j | 0 <= j < |next|
      ensures next[j] == current[2 * j] || next[j] == current[2 * j + 1]
      ensures MatchGame(records[j], MatchInfo(MatchId(roundNum, j), current[2 * j], current[2 * j + 1]), roundNum,
                        agents, coin, games[j])
    {
      assert ms[j] == MatchInfo(MatchId(roundNum, j), current[2 * j], current[2 * j + 1]);
      assert MatchGame(records[j], ms[j], roundNum, agents, coin, games[j]);
    }
  }

  /** What `run_tournament` returns; `unique_models` is `list(set(...))`, whose order is arbitrary. */
  datatype TournamentResults = TournamentResults(champion: string, totalRounds: nat, totalParticipants: nat,
                                                 uniqueModels: set<string>, allMatches: seq<MatchRecord>,
                                                 bracket: seq<string>)

  /** Every record is decided and belongs to one of rounds `1 .. last`. */
  ghost predicate PlayedRounds(rs: seq<MatchRecord>, last: int)
  {
    forall k :: 0 <= k < |rs| ==> Decided(rs[k]) && 1 <= rs[k].round <= last
  }

  /** The records of the round just played, at the end of `rs`, advanced exactly `field`. */
  ghost predicate Advanced(rs: seq<MatchRecord>, field: seq<string>)
  {
    |field| <= |rs| && forall j :: 0 <= j < |field| ==> rs[|rs| - |field| + j].advancing == field[j]
  }

  lemma PlayedRoundsAppend(rs: seq<MatchRecord>, records: seq<MatchRecord>, next: seq<string>, roundNum: nat)
    requires roundNum >= 1 && PlayedRounds(rs, roundNum - 1) && |records| == |next|
    requires forall j :: 0 <= j < |next| ==>
      Decided(records[j]) && records[j].round == roundNum && next[j] == records[j].advancing
    ensures PlayedRounds(rs + records, roundNum) && Advanced(rs + records, next)
  {
    var all := rs + records;
    forall k | 0 <= k < |all| ensures Decided(all[k]) && 1 <= all[k].round <= roundNum {
      if k >= |rs| {
        assert all[k] == records[k - |rs|];
      } else {
        assert all[k] == rs[k];
      }
    }
    forall j | 0 <= j < |next| ensures all[|all| - |next| + j].advancing == next[j] {
      assert all[|all| - |next| + j] == records[j];
    }
  }

  /**
   * Round `r + 1` took field `fields[r]` to `fields[r + 1]` through the records `rounds[r]`,
   * each decided by its game in `games[r]`.
   */
  ghost predicate BracketRecorded(fields: seq<seq<string>>, rounds: seq<seq<MatchRecord>>,
                                  games: seq<seq<seq<(int, int)>>>, agents: Players, coin: string -> nat)
  {
    |fields| == |rounds| + 1 && |games| == |rounds|
    && forall r {:trigger games[r]} :: 0 <= r < |rounds| ==> RoundRecorded(fields[r], r + 1, fields[r + 1], rounds[r], games[r], agents, coin)
  }

  lemma BracketRecordedSnoc(fields: seq<seq<string>>, rounds: seq<seq<MatchRecord>>, games: seq<seq<seq<(int, int)>>>,
                            agents: Players, coin: string -> nat,
                            next: seq<string>, records: seq<MatchRecord>, played: seq<seq<(int, int)>>)
    requires BracketRecorded(fields, rounds, games, agents, coin)
    requires RoundRecorded(fields[|fields| - 1], |fields|, next, records, played, agents, coin)
    ensures BracketRecorded(fields + [next], rounds + [records], games + [played], agents, coin)
  {
    var f, rs, gs := fields + [next], rounds + [records], games + [played];
    forall r | 0 <= r < |rs| ensures RoundRecorded(f[r], r + 1, f[r + 1], rs[r], gs[r], agents, coin) {
      if r < |rounds| {
        assert f[r] == fields[r] && f[r + 1] == fields[r + 1] && rs[r] == rounds[r] && gs[r] == games[r];
      } else {
        assert f[r] == fields[|fields| - 1] && f[r + 1] == next && rs[r] == records && gs[r] == played;
      }
    }
  }

  lemma Pow2Halves(k: int, n: nat)
    requires k >= 0 && Pow2(k) == n && n > 1
    ensures k >= 1 && Pow2(k - 1) == n / 2
  {
  }

  /**
   * The `while` loop of `run_tournament` on a bracket of `2 ** totalRounds` entrants: every
   * round halves the field, so it ends after `totalRounds` rounds and `n - 1` matches with
   * the winner of the last match as champion. `allResults` lists the records of `rounds`
   * round after round, and each record is the game played on its pair of `fields`.
   */
  method PlayBracket(entrants: seq<string>, totalRounds: nat, agents: Players, coin: string -> nat)
    returns (champion: string, allResults: seq<MatchRecord>, ghost fields: seq<seq<string>>,
             ghost rounds: seq<seq<MatchRecord>>, ghost games: seq<seq<seq<(int, int)>>>)
    requires |entrants| >= 2 && Pow2(totalRounds) == |entrants|
    ensures TournamentSystem.Bracket(fields, entrants, champion) && |fields| == totalRounds + 1
    ensures |allResults| == |entrants| - 1
    ensures PlayedRounds(allResults, totalRounds) && Advanced(allResults, [champion])
    ensures allResults == Py.Concat(rounds) && BracketRecorded(fields, rounds, games, agents, coin)
  {
    Pow2IsPow2(totalRounds);
    var current := entrants;
    var roundNum: nat := 1;
    allResults := [];
    fields, rounds, games := [current], [], [];
    while |current| > 1
      invariant IsPow2(|current|) && |allResults| + |current| == |entrants|
      invariant roundNum <= totalRounds + 1 && Pow2(totalRounds + 1 - roundNum) == |current|
      invariant |fields| == roundNum && TournamentSystem.FieldsSoFar(fields, entrants, current)
      invariant PlayedRounds(allResults, roundNum - 1)
      invariant roundNum > 1 ==> Advanced(allResults, current)
      invariant allResults == Py.Concat(rounds) && BracketRecorded(fields, rounds, games, agents, coin)
      decreases |current|
    {
      Pow2Even(|current|);
      Pow2Halves(totalRounds + 1 - roundNum, |current|);
      var next, records, played := PlayRound(current, roundNum, agents, coin);
      PlayedRoundsAppend(allResults, records, next, roundNum);
      TournamentSystem.FieldsSnoc(fields, entrants, current, next);
      assert BracketRecorded(fields + [next], rounds + [records], games + [played], agents, coin) by {
        BracketRecordedSnoc(fields, rounds, games, agents, coin, next, records, played);
      }
      assert allResults + records == Py.Concat(rounds + [records]) by {
        Py.ConcatSnoc(rounds, records);
      }
      allResults := allResults + records;
      fields, rounds, games := fields + [next], rounds + [records], games + [played];
      current := next;
      roundNum := roundNum + 1;
    }
    assert |current| == 1 && current == [current[0]];
    assert roundNum == totalRounds + 1;
    champion := current[0];
  }

  /**
   * `run_tournament`: build the padded bracket, play it out, and report the champion, the
   * number of rounds and participants, the distinct models, every match and the bracket.
   */
  method RunTournament(models: seq<string>, seed: int, pick: nat -> nat, agents: Players, coin: string -> nat)
    returns (results: TournamentResults, ghost fields: seq<seq<string>>,
             ghost rounds: seq<seq<MatchRecord>>, ghost games: seq<seq<seq<(int, int)>>>)
    ensures Padded(models, results.bracket) && results.totalParticipants == |results.bracket|
    ensures Pow2(results.totalRounds) == |results.bracket|
    ensures results.uniqueModels == set m | m in results.bracket
    ensures TournamentSystem.Bracket(fields, results.bracket, results.champion)
    ensures |fields| == results.totalRounds + 1
    ensures |results.allMatches| == |results.bracket| - 1
    ensures PlayedRounds(results.allMatches, results.totalRounds)
    ensures Advanced(results.allMatches, [results.champion])
    ensures results.allMatches == Py.Concat(rounds) && BracketRecorded(fields, rounds, games, agents, coin)
  {
    var bracket := new TournamentBracket(models, seed, pick);
    var totalRounds := bracket.GetTotalRounds();
    var entrants := bracket.models;
    var champion, allResults;
    champion, allResults, fields, rounds, games := PlayBracket(entrants, totalRounds, agents, coin);
    results := TournamentResults(champion, totalRounds, |entrants|, (set m | m in entrants), allResults, entrants);
  }

  // ----- create_seeded_bracket -----

  /**
   * `create_seeded_bracket`: a copy of `models`, shuffled when asked (`perm` stands for
   * `random.shuffle`), then extended by random choices among `models` (`pick`) until its
   * length passes the `n & (n - 1) == 0` test. An empty list stays empty.
   */
  method CreateSeededBracket(models: seq<string>, shuffle: bool, perm: nat -> nat, pick: nat -> nat)
    returns (bracket: seq<string>)
    ensures |models| == 0 ==> bracket == []
    ensures |models| >= 1 ==> IsPow2(|bracket|) && |bracket| == NextPow2(|models|)
    ensures |models| <= |bracket| && multiset(bracket[..|models|]) == multiset(models)
    ensures !shuffle ==> models <= bracket
    ensures forall x :: x in bracket ==> x in models
  {
    bracket := models;
    if shuffle {
      bracket := Shuffle.Shuffled(bracket, perm);
    }
    ghost var seeded := bracket;
    forall x | x in seeded ensures x in models {
      Shuffle.ShuffledSameMembers(models, perm, x);
    }
    var n0 := |bracket|;
    if n0 >= 1 {
      NextPow2Least(n0, n0);
    }
    while LowBitTest(|bracket|) != 0
      invariant seeded <= bracket && forall x :: x in bracket ==> x in models
      invariant n0 >= 1 ==> |bracket| <= NextPow2(n0)
      invariant n0 == 0 ==> bracket == []
      decreases NextPow2(n0) - |bracket|
    {
      LowBitTestZero(|bracket|);
      assert |bracket| < NextPow2(n0);
      bracket := bracket + [models[pick(|bracket|) % |models|]];
    }
    LowBitTestZero(|bracket|);
    if n0 >= 1 {
      NextPow2Least(n0, |bracket|);
    }
    assert bracket[..|models|] == seeded;
  }

  // ----- get_tournament_stats -----

  /** `ks` with `x` added at the end unless it is already there (a new dictionary key). */
  function AddKey(ks: seq<string>, x: string): (r: seq<string>)
    ensures r == ks + (if x in ks then [] else [x])
  {
    if x in ks then ks else ks + [x]
  }

  /** The models of `ms` in order of first appearance, model1 before model2: the dictionaries' key order. */
  function ModelOrder(ms: seq<MatchRecord>): seq<string>
  {
    if ms == [] then []
    else AddKey(AddKey(ModelOrder(ms[..|ms| - 1]), ms[|ms| - 1].model1), ms[|ms| - 1].model2)
  }

  /** `games_by_model[m]`: one for every side of a match that `m` plays (two when it plays itself). */
  function Games(ms: seq<MatchRecord>, m: string): nat
  {
    if ms == [] then 0
    else Games(ms[..|ms| - 1], m) + Py.Indicator(ms[|ms| - 1].model1, m) + Py.Indicator(ms[|ms| - 1].model2, m)
  }

  /** `wins_by_model[m]`: the matches `m` advanced from, counted once `m` is a key. */
  function Wins(ms: seq<MatchRecord>, m: string): nat
  {
    if ms == [] then 0
    else Wins(ms[..|ms| - 1], m) + (if m in ModelOrder(ms) then Py.Indicator(ms[|ms| - 1].advancing, m) else 0)
  }

  lemma TallyUnfold(ms: seq<MatchRecord>, r: MatchRecord, m: string)
    ensures ModelOrder(ms + [r]) == AddKey(AddKey(ModelOrder(ms), r.model1), r.model2)
    ensures Games(ms + [r], m) == Games(ms, m) + Py.Indicator(r.model1, m) + Py.Indicator(r.model2, m)
    ensures Wins(ms + [r], m) == Wins(ms, m) + (if m in ModelOrder(ms + [r]) then Py.Indicator(r.advancing, m) else 0)
  {
    assert (ms + [r])[..|ms|] == ms;
  }

  /** A model that has not appeared has neither games nor wins. */
  lemma {:induction false} UnseenZero(ms: seq<MatchRecord>, m: string)
    requires m !in ModelOrder(ms)
    ensures Wins(ms, m) == 0 && Games(ms, m) == 0
  {
    if ms != [] {
      var pre := ms[..|ms| - 1];
      assert m !in ModelOrder(pre);
      UnseenZero(pre, m);
    }
  }

  /** The win and game counters after the matches `ms`, keyed in order of first appearance. */
  ghost predicate Tallied(ms: seq<MatchRecord>, keys: seq<string>, wins: map<string, nat>, games: map<string, nat>)
  {
    keys == ModelOrder(ms)
    && (forall m :: m in wins <==> m in keys) && (forall m :: m in games <==> m in keys)
    && forall m :: m in keys ==> wins[m] == Wins(ms, m) && games[m] == Games(ms, m)
  }

  /** What `get_tournament_stats` returns; `models` is the key order of its dictionaries. */
  datatype TournamentStats = TournamentStats(totalGames: nat, totalMoves: nat, winsByModel: map<string, nat>,
                                             gamesByModel: map<string, nat>, avgGameLength: nat,
                                             winRates: map<string, Ratio>, models: seq<string>)

  /** `keys'`, `wins'`, `games'` are the counters after the step for `model`: a key of both, one more game. */
  ghost predicate ModelCounted(keys: seq<string>, wins: map<string, nat>, games: map<string, nat>, model: string,
                               keys': seq<string>, wins': map<string, nat>, games': map<string, nat>)
  {
    keys' == AddKey(keys, model) && (forall m :: m in keys' <==> m in keys || m == model)
    && (forall m :: m in wins' <==> m in wins || m == model)
    && (forall m :: m in games' <==> m in games || m == model)
    && (forall m :: m in wins' ==> wins'[m] == if m in wins then wins[m] else 0)
    && (forall m :: m in games' ==> games'[m] == (if m in games then games[m] else 0) + Py.Indicator(model, m))
  }

  /** The inner `for model in [model1, model2]` step: make `model` a key of both counters, count its game. */
  method CountModel(keys: seq<string>, wins: map<string, nat>, games: map<string, nat>, model: string)
    returns (keys': seq<string>, wins': map<string, nat>, games': map<string, nat>)
    ensures ModelCounted(keys, wins, games, model, keys', wins', games')
  {
    keys', wins', games' := keys, wins, games;
    if model !in wins' {
      wins' := wins'[model := 0];
    }
    if model !in games' {
      games' := games'[model := 0];
    }
    if model !in keys' {
      keys' := keys' + [model];
    }
    games' := games'[model := games'[model] + 1];
  }

  /** `wins'` is `wins` with one more win for `advancing` when it is a key. */
  ghost predicate WinCounted(wins: map<string, nat>, advancing: string, wins': map<string, nat>)
  {
    (forall m :: m in wins' <==> m in wins)
    && forall m :: m in wins' ==> wins'[m] == wins[m] + Py.Indicator(advancing, m)
  }

  /** `if advancing in wins_by_model: wins_by_model[advancing] += 1`. */
  method CountWin(wins: map<string, nat>, advancing: string) returns (wins': map<string, nat>)
    ensures WinCounted(wins, advancing, wins')
  {
    wins' := wins;
    if advancing in wins' {
      wins' := wins'[advancing := wins'[advancing] + 1];
    }
  }

  /** The three steps of one match together: both models become keys, each side one game, one win. */
  lemma CountsComposed(rec: MatchRecord, keys: seq<string>, wins: map<string, nat>, games: map<string, nat>,
                       k1: seq<string>, w1: map<string, nat>, g1: map<string, nat>,
                       keys': seq<string>, w2: map<string, nat>, games': map<string, nat>, wins': map<string, nat>)
    requires (forall m :: m in wins <==> m in keys) && (forall m :: m in games <==> m in keys)
    requires ModelCounted(keys, wins, games, rec.model1, k1, w1, g1)
    requires ModelCounted(k1, w1, g1, rec.model2, keys', w2, games')
    requires WinCounted(w2, rec.advancing, wins')
    ensures keys' == AddKey(AddKey(keys, rec.model1), rec.model2)
    ensures forall m :: m in wins' <==> m in keys'
    ensures forall m :: m in games' <==> m in keys'
    ensures forall m :: m in keys' ==>
      games'[m] == (if m in keys then games[m] else 0) + Py.Indicator(rec.model1, m) + Py.Indicator(rec.model2, m)
    ensures forall m :: m in keys' ==> wins'[m] == (if m in keys then wins[m] else 0) + Py.Indicator(rec.advancing, m)
  {
  }

  /** The tallies of one model one match on, from its tallies before (0 for a model not yet seen). */
  lemma TallyAt(ms: seq<MatchRecord>, rec: MatchRecord, m: string)
    ensures Games(ms + [rec], m) ==
      (if m in ModelOrder(ms) then Games(ms, m) else 0) + Py.Indicator(rec.model1, m) + Py.Indicator(rec.model2, m)
    ensures m in ModelOrder(ms + [rec]) ==>
      Wins(ms + [rec], m) == (if m in ModelOrder(ms) then Wins(ms, m) else 0) + Py.Indicator(rec.advancing, m)
  {
    TallyUnfold(ms, rec, m);
    if m !in ModelOrder(ms) {
      UnseenZero(ms, m);
    }
  }

  /** Counters that moved by the match `rec` as its three steps say are the tallies one match on. */
  lemma TalliedStep(ms: seq<MatchRecord>, rec: MatchRecord, keys: seq<string>, wins: map<string, nat>,
                    games: map<string, nat>, keys': seq<string>, wins': map<string, nat>, games': map<string, nat>)
    requires Tallied(ms, keys, wins, games)
    requires keys' == AddKey(AddKey(keys, rec.model1), rec.model2)
    requires forall m :: m in wins' <==> m in keys'
    requires forall m :: m in games' <==> m in keys'
    requires forall m :: m in keys' ==>
      games'[m] == (if m in keys then games[m] else 0) + Py.Indicator(rec.model1, m) + Py.Indicator(rec.model2, m)
    requires forall m :: m in keys' ==> wins'[m] == (if m in keys then wins[m] else 0) + Py.Indicator(rec.advancing, m)
    ensures Tallied(ms + [rec], keys', wins', games')
  {
    TallyUnfold(ms, rec, rec.model1);
    assert keys' == ModelOrder(ms + [rec]);
    forall m | m in keys' ensures wins'[m] == Wins(ms + [rec], m) && games'[m] == Games(ms + [rec], m) {
      TallyAt(ms, rec, m);
    }
  }

  /** One match of the counting loop keeps the counters equal to the tallies. */
  method CountMatch(ghost ms: seq<MatchRecord>, keys: seq<string>, wins: map<string, nat>, games: map<string, nat>,
                    rec: MatchRecord)
    returns (keys': seq<string>, wins': map<string, nat>, games': map<string, nat>)
    requires Tallied(ms, keys, wins, games)
    ensures Tallied(ms + [rec], keys', wins', games')
  {
    var k1, w1, g1 := CountModel(keys, wins, games, rec.model1);
    var w2;
    keys', w2, games' := CountModel(k1, w1, g1, rec.model2);
    wins' := CountWin(w2, rec.advancing);
    CountsComposed(rec, keys, wins, games, k1, w1, g1, keys', w2, games', wins');
    TalliedStep(ms, rec, keys, wins, games, keys', wins', games');
  }

  /** The counting loop of `get_tournament_stats`. */
  method CountAll(allMatches: seq<MatchRecord>)
    returns (keys: seq<string>, wins: map<string, nat>, games: map<string, nat>)
    ensures Tallied(allMatches, keys, wins, games)
  {
    keys, wins, games := [], map[], map[];
    for k := 0 to |allMatches|
      invariant Tallied(allMatches[..k], keys, wins, games)
    {
      assert allMatches[..k + 1] == allMatches[..k] + [allMatches[k]];
      keys, wins, games := CountMatch(allMatches[..k], keys, wins, games, allMatches[k]);
    }
    assert allMatches[..|allMatches|] == allMatches;
  }

  /** The `win_rates` loop: `wins / games if games > 0 else 0` for every model with games. */
  method WinRates(keys: seq<string>, wins: map<string, nat>, games: map<string, nat>)
    returns (rates: map<string, Ratio>)
    requires forall m :: m in keys ==> m in games
    ensures forall m :: m in rates <==> m in keys
    ensures forall m :: m in rates ==> rates[m] == RateOf(if m in wins then wins[m] else 0, games[m])
  {
    rates := map[];
    for k := 0 to |keys|
      invariant forall m :: m in rates <==> m in keys[..k]
      invariant forall m :: m in rates ==> m in games && rates[m] == RateOf(if m in wins then wins[m] else 0, games[m])
    {
      var model := keys[k];
      var g := games[model];
      var w := if model in wins then wins[model] else 0;
      rates := rates[model := RateOf(w, g)];
    }
    assert keys[..|keys|] == keys;
  }

  /**
   * `get_tournament_stats`: the number of matches, per model the games played and the
   * matches advanced from, and the win rate `wins / games`; moves and game lengths are
   * never counted, so both stay 0.
   */
  method GetTournamentStats(allMatches: seq<MatchRecord>) returns (stats: TournamentStats)
    ensures stats.totalGames == |allMatches| && stats.totalMoves == 0 && stats.avgGameLength == 0
    ensures Tallied(allMatches, stats.models, stats.winsByModel, stats.gamesByModel)
    ensures forall m :: m in stats.winRates <==> m in stats.models
    ensures forall m :: m in stats.models ==>
      stats.winRates[m] == RateOf(Wins(allMatches, m), Games(allMatches, m))
  {
    var keys, wins, games := CountAll(allMatches);
    var rates := WinRates(keys, wins, games);
    stats := TournamentStats(|allMatches|, 0, wins, games, 0, rates, keys);
  }

  // ----- every match counts one win and two games -----

  /** The sum of `wins_by_model` over the models `keys`. */
  function SumWins(keys: seq<string>, ms: seq<MatchRecord>): nat
  {
    if keys == [] then 0 else SumWins(keys[..|keys| - 1], ms) + Wins(ms, keys[|keys| - 1])
  }

  /** The sum of `games_by_model` over the models `keys`. */
  function SumGames(keys: seq<string>, ms: seq<MatchRecord>): nat
  {
    if keys == [] then 0 else SumGames(keys[..|keys| - 1], ms) + Games(ms, keys[|keys| - 1])
  }

  lemma AddKeyDistinct(ks: seq<string>, x: string)
    requires Py.Distinct(ks)
    ensures Py.Distinct(AddKey(ks, x)) && x in AddKey(ks, x)
  {
  }

  /** The dictionaries never hold a key twice, and both models of the last match are keys. */
  lemma ModelOrderDistinct(ms: seq<MatchRecord>)
    ensures Py.Distinct(ModelOrder(ms))
    ensures ms != [] ==> ms[|ms| - 1].model1 in ModelOrder(ms) && ms[|ms| - 1].model2 in ModelOrder(ms)
  {
    if ms != [] {
      var pre := ms[..|ms| - 1];
      var r := ms[|ms| - 1];
      ModelOrderDistinct(pre);
      AddKeyDistinct(ModelOrder(pre), r.model1);
      AddKeyDistinct(AddKey(ModelOrder(pre), r.model1), r.model2);
    }
  }

  /** Once the advancing model is a key, one more match adds one win to it and none to anyone else. */
  lemma WinsSnoc(ms: seq<MatchRecord>, r: MatchRecord, m: string)
    requires r.advancing in ModelOrder(ms + [r])
    ensures Wins(ms + [r], m) == Wins(ms, m) + Py.Indicator(r.advancing, m)
  {
    TallyUnfold(ms, r, m);
  }

  /** One more match adds one game for each of its sides. */
  lemma GamesSnoc(ms: seq<MatchRecord>, r: MatchRecord, m: string)
    ensures Games(ms + [r], m) == Games(ms, m) + Py.Indicator(r.model1, m) + Py.Indicator(r.model2, m)
  {
    assert (ms + [r])[..|ms|] == ms;
  }

  lemma {:induction false} SumWinsSnoc(keys: seq<string>, ms: seq<MatchRecord>, r: MatchRecord)
    requires r.advancing in ModelOrder(ms + [r])
    ensures SumWins(keys, ms + [r]) == SumWins(keys, ms) + multiset(keys)[r.advancing]
  {
    if keys != [] {
      var pre := keys[..|keys| - 1];
      var x := keys[|keys| - 1];
      SumWinsSnoc(pre, ms, r);
      WinsSnoc(ms, r, x);
      Py.CountLast(keys, r.advancing);
    }
  }

  lemma {:induction false} SumGamesSnoc(keys: seq<string>, ms: seq<MatchRecord>, r: MatchRecord)
    ensures SumGames(keys, ms + [r]) == SumGames(keys, ms) + multiset(keys)[r.model1] + multiset(keys)[r.model2]
  {
    if keys != [] {
      var pre := keys[..|keys| - 1];
      var x := keys[|keys| - 1];
      SumGamesSnoc(pre, ms, r);
      GamesSnoc(ms, r, x);
      Py.CountLast(keys, r.model1);
      Py.CountLast(keys, r.model2);
    }
  }

  /** A model that has not appeared adds nothing to either sum when it becomes a key. */
  lemma AddKeySums(ks: seq<string>, x: string, ms: seq<MatchRecord>)
    requires x in ks || x !in ModelOrder(ms)
    ensures SumWins(AddKey(ks, x), ms) == SumWins(ks, ms) && SumGames(AddKey(ks, x), ms) == SumGames(ks, ms)
  {
    if x !in ks {
      var all := ks + [x];
      assert all[..|ks|] == ks && all[|ks|] == x;
      UnseenZero(ms, x);
    }
  }

  /** A key of a list without repeats occurs in it exactly once. */
  lemma CountOnce(keys: seq<string>, x: string)
    requires Py.Distinct(keys) && x in keys
    ensures multiset(keys)[x] == 1
  {
    Py.DistinctCountOne(keys, x);
  }

  /**
   * Every match adds one to `games_by_model` for each side and, since the advancing model
   * is one of the two, one to `wins_by_model`: over all models the wins add up to the
   * number of matches and the games to twice that.
   */
  lemma {:induction false} StatsTotals(ms: seq<MatchRecord>)
    requires forall k :: 0 <= k < |ms| ==> ms[k].advancing == ms[k].model1 || ms[k].advancing == ms[k].model2
    ensures SumWins(ModelOrder(ms), ms) == |ms|
    ensures SumGames(ModelOrder(ms), ms) == 2 * |ms|
  {
    if ms != [] {
      var pre := ms[..|ms| - 1];
      var r := ms[|ms| - 1];
      assert ms == pre + [r];
      StatsTotals(pre);
      var k := ModelOrder(pre);
      var k1 := AddKey(k, r.model1);
      var k2 := AddKey(k1, r.model2);
      assert ModelOrder(ms) == k2;
      ModelOrderDistinct(ms);
      assert r.advancing in k2;
      SumWinsSnoc(k2, pre, r);
      SumGamesSnoc(k2, pre, r);
      CountOnce(k2, r.advancing);
      CountOnce(k2, r.model1);
      CountOnce(k2, r.model2);
      AddKeySums(k, r.model1, pre);
      AddKeySums(k1, r.model2, pre);
    }
  }
}
