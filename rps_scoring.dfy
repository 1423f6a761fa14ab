/**
 * `TournamentScorer`: per-model counters of wins, losses, draws and matches played,
 * the standings built from them (3 points for a win, 1 for a draw) and the leaderboard and
 * champion, ordered by (points, win rate, wins) with the first registered model first
 * among equals.
 */
module RpsScoring {
  import opened RpsRules
  import opened Ranking
  import opened Py

  /** One call of `record_match`. */
  datatype Recorded = Recorded(player1: string, player2: string, result1: GameResult, result2: GameResult)

  /** How many sides of the recorded matches `m` played (a match against itself counts twice). */
  function Appearances(log: seq<Recorded>, m: string): nat
  {
    if log == [] then 0
    else
      var r := log[|log| - 1];
      Appearances(log[..|log| - 1], m) + Indicator(r.player1, m) + Indicator(r.player2, m)
  }

  /** How many sides of the recorded matches `m` played with result `x`. */
  function ResultsOf(log: seq<Recorded>, m: string, x: GameResult): nat
  {
    if log == [] then 0
    else
      var r := log[|log| - 1];
      ResultsOf(log[..|log| - 1], m, x)
      + (if r.result1 == x then Indicator(r.player1, m) else 0)
      + (if r.result2 == x then Indicator(r.player2, m) else 0)
  }

  /** Every side a model played ended in exactly one of win, loss and draw. */
  lemma {:induction false} ResultsAddUp(log: seq<Recorded>, m: string)
    ensures ResultsOf(log, m, Win) + ResultsOf(log, m, Loss) + ResultsOf(log, m, Draw) == Appearances(log, m)
  {
    if log != [] {
      ResultsAddUp(log[..|log| - 1], m);
    }
  }

  lemma LogSnoc(log: seq<Recorded>, r: Recorded, m: string, x: GameResult)
    ensures Appearances(log + [r], m) == Appearances(log, m) + Indicator(r.player1, m) + Indicator(r.player2, m)
    ensures ResultsOf(log + [r], m, x) == ResultsOf(log, m, x)
      + (if r.result1 == x then Indicator(r.player1, m) else 0)
      + (if r.result2 == x then Indicator(r.player2, m) else 0)
  {
    assert (log + [r])[..|log|] == log;
  }

  /** `counter[p] += 1` when `c` holds; the counter of `p` must exist. */
  function BumpIf(w: map<string, nat>, p: string, c: bool): (r: map<string, nat>)
    requires p in w
    ensures r.Keys == w.Keys
    ensures forall m :: m in r ==> r[m] == w[m] + (if c then Indicator(p, m) else 0)
  {
    if c then w[p := w[p] + 1] else w
  }

  /** A counter for every model, all at zero. */
  function Zeros(models: seq<string>): (r: map<string, nat>)
    ensures r.Keys == set m | m in models
    ensures forall m :: m in r ==> r[m] == 0
  {
    map m | m in models :: 0
  }

  /** One row of `get_standings`. */
  datatype Standing = Standing(wins: nat, losses: nat, draws: nat, matchesPlayed: nat, winRate: Ratio, points: nat)

  /** The sort key `(points, win_rate, wins)` of the leaderboard. */
  function StandingKey(st: map<string, Standing>): string -> seq<Ratio>
  {
    m => if m in st then [Whole(st[m].points), st[m].winRate, Whole(st[m].wins)] else [Whole(0), Whole(0), Whole(0)]
  }

  lemma StandingKeyFn(st: map<string, Standing>)
    requires forall m :: m in st ==> st[m].winRate.den > 0
    ensures KeyFn(StandingKey(st), 3)
  {
  }

  /**
   * There is a counter of each kind for each model in `ks` and no other, each counter counts
   * the recorded matches, and so a model's wins, losses and draws add up to its matches.
   */
  ghost predicate Counts(ks: set<string>, wins: map<string, nat>, losses: map<string, nat>, draws: map<string, nat>,
                         matchesPlayed: map<string, nat>, log: seq<Recorded>)
  {
    wins.Keys == ks && losses.Keys == ks && draws.Keys == ks && matchesPlayed.Keys == ks
    && (forall m :: m in matchesPlayed ==>
          matchesPlayed[m] == Appearances(log, m) && wins[m] == ResultsOf(log, m, Win)
          && losses[m] == ResultsOf(log, m, Loss) && draws[m] == ResultsOf(log, m, Draw))
    && (forall m :: m in matchesPlayed ==> wins[m] + losses[m] + draws[m] == matchesPlayed[m])
  }

  /** The counters after one more recorded match. */
  ghost predicate CountedOnce(r: Recorded, w: map<string, nat>, l: map<string, nat>, d: map<string, nat>,
                              mp: map<string, nat>, w': map<string, nat>, l': map<string, nat>,
                              d': map<string, nat>, mp': map<string, nat>)
  {
    w'.Keys == w.Keys && l'.Keys == l.Keys && d'.Keys == d.Keys && mp'.Keys == mp.Keys
    && (forall m :: m in mp' ==> mp'[m] == mp[m] + Indicator(r.player1, m) + Indicator(r.player2, m))
    && (forall m :: m in w' ==> w'[m] == w[m] + (if r.result1 == Win then Indicator(r.player1, m) else 0)
                                              + (if r.result2 == Win then Indicator(r.player2, m) else 0))
    && (forall m :: m in l' ==> l'[m] == l[m] + (if r.result1 == Loss then Indicator(r.player1, m) else 0)
                                              + (if r.result2 == Loss then Indicator(r.player2, m) else 0))
    && (forall m :: m in d' ==> d'[m] == d[m] + (if r.result1 == Draw then Indicator(r.player1, m) else 0)
                                              + (if r.result2 == Draw then Indicator(r.player2, m) else 0))
  }

  /** The counter updates of `record_match`, in the source's order. */
  method RecordCounts(r: Recorded, wins: map<string, nat>, losses: map<string, nat>, draws: map<string, nat>,
                      matchesPlayed: map<string, nat>)
    returns (w: map<string, nat>, l: map<string, nat>, d: map<string, nat>, mp: map<string, nat>)
    requires r.player1 in matchesPlayed && r.player2 in matchesPlayed
    requires wins.Keys == losses.Keys == draws.Keys == matchesPlayed.Keys
    ensures CountedOnce(r, wins, losses, draws, matchesPlayed, w, l, d, mp)
  {
    mp := BumpIf(BumpIf(matchesPlayed, r.player1, true), r.player2, true);
    w := BumpIf(wins, r.player1, r.result1 == Win);
    l := BumpIf(losses, r.player1, r.result1 == Loss);
    d := BumpIf(draws, r.player1, r.result1 != Win && r.result1 != Loss);
    w := BumpIf(w, r.player2, r.result2 == Win);
    l := BumpIf(l, r.player2, r.result2 == Loss);
    d := BumpIf(d, r.player2, r.result2 != Win && r.result2 != Loss);
  }

  /** Counting one more match keeps the counters equal to the log with that match appended. */
  lemma CountsStep(ks: set<string>, r: Recorded, w: map<string, nat>, l: map<string, nat>, d: map<string, nat>,
                   mp: map<string, nat>, w': map<string, nat>, l': map<string, nat>, d': map<string, nat>,
                   mp': map<string, nat>, log: seq<Recorded>)
    requires Counts(ks, w, l, d, mp, log) && CountedOnce(r, w, l, d, mp, w', l', d', mp')
    ensures Counts(ks, w', l', d', mp', log + [r])
  {
    forall m | m in mp'
      ensures mp'[m] == Appearances(log + [r], m) && w'[m] == ResultsOf(log + [r], m, Win)
      ensures l'[m] == ResultsOf(log + [r], m, Loss) && d'[m] == ResultsOf(log + [r], m, Draw)
    {
      LogSnoc(log, r, m, Win);
      LogSnoc(log, r, m, Loss);
      LogSnoc(log, r, m, Draw);
    }
    forall m | m in mp' ensures w'[m] + l'[m] + d'[m] == mp'[m] {
      ResultsAddUp(log + [r], m);
    }
  }

  /** The keys of a dictionary built with `{model: ... for model in models}`. */
  function KeySet(models: seq<string>): (ks: set<string>)
    ensures forall m :: m in ks <==> m in models
  {
    set m | m in models
  }

  /** RecordCounts on counters that match the log, which then match the log with `r` appended. */
  method RecordLogged(ghost ks: set<string>, r: Recorded, wins: map<string, nat>, losses: map<string, nat>,
                      draws: map<string, nat>, matchesPlayed: map<string, nat>, ghost log: seq<Recorded>)
    returns (w: map<string, nat>, l: map<string, nat>, d: map<string, nat>, mp: map<string, nat>)
    requires Counts(ks, wins, losses, draws, matchesPlayed, log)
    requires r.player1 in matchesPlayed && r.player2 in matchesPlayed
    ensures Counts(ks, w, l, d, mp, log + [r])
    ensures CountedOnce(r, wins, losses, draws, matchesPlayed, w, l, d, mp)
  {
    w, l, d, mp := RecordCounts(r, wins, losses, draws, matchesPlayed);
    CountsStep(ks, r, wins, losses, draws, matchesPlayed, w, l, d, mp, log);
  }

  /** The entry names of a leaderboard, in order. */
  function Names(lb: seq<(string, Standing)>): (r: seq<string>)
    ensures |r| == |lb| && forall i :: 0 <= i < |lb| ==> r[i] == lb[i].0
  {
    seq(|lb|, i requires 0 <= i < |lb| => lb[i].0)
  }

  /** The `(model, standing)` items for the models of `order`, in that order. */
  function Rows(order: seq<string>, st: map<string, Standing>): (lb: seq<(string, Standing)>)
    requires forall m :: m in order ==> m in st
    ensures Names(lb) == order
    ensures forall i :: 0 <= i < |lb| ==> lb[i].0 in st && lb[i].1 == st[lb[i].0]
  {
    var lb := seq(|order|, i requires 0 <= i < |order| => (order[i], st[order[i]]));
    assert Names(lb) == order;
    lb
  }

  /**
   * `sorted(standings.items(), key=..., reverse=True)` for standings registered in the order
   * of `models`: each model once, descending by (points, win rate, wins), ties kept in
   * registration order.
   */
  function LeaderboardOf(models: seq<string>, st: map<string, Standing>): (lb: seq<(string, Standing)>)
    requires forall m :: m in models ==> m in st
    requires forall m :: m in st ==> st[m].winRate.den > 0
    ensures |lb| == |FirstOccurrences(models)| && Distinct(Names(lb))
    ensures forall m :: m in Names(lb) <==> m in models
    ensures forall i :: 0 <= i < |lb| ==> lb[i].0 in st && lb[i].1 == st[lb[i].0]
    ensures SortedDesc(Names(lb), StandingKey(st))
    ensures |lb| > 0 ==> lb[0].0 == MaxOf(FirstOccurrences(models), StandingKey(st))
  {
    var key := StandingKey(st);
    var keys := FirstOccurrences(models);
    var order := SortDesc(keys, key);
    StandingKeyFn(st);
    SortDescSorted(keys, key, 3);
    DistinctByMultiset(keys, order);
    assert |keys| > 0 ==> order[0] == MaxOf(keys, key) by {
      if |keys| > 0 {
        SortDescHeadIsMax(keys, key);
      }
    }
    Rows(order, st)
  }

  class TournamentScorer {
    var models: seq<string>
    var wins: map<string, nat>
    var losses: map<string, nat>
    var draws: map<string, nat>
    var matchesPlayed: map<string, nat>
    /** Every match recorded since the last reset. */
    ghost var log: seq<Recorded>

    /**
     * There is a counter of each kind for each model and no other, each counter counts the
     * recorded matches, and so a model's wins, losses and draws add up to its matches.
     */
    ghost predicate Valid()
      reads this
    {
      Counts(KeySet(models), wins, losses, draws, matchesPlayed, log)
    }

    /** `__init__`: register the models and start every counter at zero. */
    constructor (models: seq<string>)
      ensures Valid() && this.models == models && log == []
      ensures forall m :: m in matchesPlayed ==> matchesPlayed[m] == 0 && wins[m] == 0 && losses[m] == 0 && draws[m] == 0
    {
      this.models := models;
      new;
      ResetScores();
    }

    /** `reset_scores`: every counter back to zero. */
    method ResetScores()
      modifies this
      ensures Valid() && models == old(models) && log == []
      ensures forall m :: m in matchesPlayed ==> matchesPlayed[m] == 0 && wins[m] == 0 && losses[m] == 0 && draws[m] == 0
    {
      wins := Zeros(models);
      losses := Zeros(models);
      draws := Zeros(models);
      matchesPlayed := Zeros(models);
      log := [];
      assert KeySet(models) == set m | m in models;
    }

    /**
     * `record_match`: both players' match counts go up by one and each player's counter for
     * its own result goes up by one; every other counter keeps its value. Both players must
     * be registered (the source raises KeyError otherwise).
     */
    method RecordMatch(player1: string, player2: string, result1: GameResult, result2: GameResult)
      requires Valid() && player1 in matchesPlayed && player2 in matchesPlayed
      modifies this
      ensures Valid() && models == old(models) && log == old(log) + [Recorded(player1, player2, result1, result2)]
      ensures CountedOnce(Recorded(player1, player2, result1, result2), old(wins), old(losses), old(draws),
                          old(matchesPlayed), wins, losses, draws, matchesPlayed)
    {
      var r := Recorded(player1, player2, result1, result2);
      wins, losses, draws, matchesPlayed := RecordLogged(KeySet(models), r, wins, losses, draws, matchesPlayed, log);
      log := log + [r];
    }

    /** `get_standings`: one row per registered model, with `points = 3 * wins + draws`. */
    function GetStandings(): (st: map<string, Standing>)
      reads this
      requires Valid()
      ensures st.Keys == set m | m in models
      ensures forall m :: m in st ==>
        st[m] == Standing(wins[m], losses[m], draws[m], matchesPlayed[m], RateOf(wins[m], matchesPlayed[m]),
                          3 * wins[m] + draws[m])
    {
      map m | m in models :: Standing(wins[m], losses[m], draws[m], matchesPlayed[m],
                                      RateOf(wins[m], matchesPlayed[m]), 3 * wins[m] + draws[m])
    }

    /**
     * The points of a model are 3 per recorded win and 1 per recorded draw; they lie between
     * the number of matches it did not lose and three times its matches.
     */
    lemma StandingPoints(m: string)
      requires Valid() && m in models
      ensures GetStandings()[m].points == 3 * ResultsOf(log, m, Win) + ResultsOf(log, m, Draw)
      ensures GetStandings()[m].matchesPlayed - GetStandings()[m].losses <= GetStandings()[m].points
      ensures GetStandings()[m].points <= 3 * GetStandings()[m].matchesPlayed
    {
      assert m in matchesPlayed;
    }

    /** `get_leaderboard`, on the current standings. */
    function GetLeaderboard(): seq<(string, Standing)>
      reads this
      requires Valid()
    {
      LeaderboardOf(models, GetStandings())
    }

    /**
     * `get_champion`: "" when no model is registered; otherwise the registered model at the
     * head of the leaderboard, whose key no other model beats and which comes first in
     * registration order among the models sharing its key.
     */
    function GetChampion(): (c: string)
      reads this
      requires Valid()
      ensures |models| == 0 ==> c == ""
      ensures |models| > 0 ==> c in models && c == MaxOf(FirstOccurrences(models), StandingKey(GetStandings()))
      ensures |models| > 0 ==>
        forall m :: m in models ==> !KeyLess(StandingKey(GetStandings())(c), StandingKey(GetStandings())(m))
    {
      var st := GetStandings();
      var lb := LeaderboardOf(models, st);
      if |lb| == 0 then
        assert |models| == 0;
        ""
      else
        var keys := FirstOccurrences(models);
        StandingKeyFn(st);
        MaxOfIsFirstMaximum(keys, StandingKey(st), 3);
        lb[0].0
    }
  }
}
