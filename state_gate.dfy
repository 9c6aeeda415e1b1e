/** The state-aware handler of `src/handler.ts`: fetch the day's games, then
    the scores, then decide from the games' aggregate states what to write.
    Every game Final: latest, dated snapshot and daily row, keyed by today.
    Otherwise no game Live: nothing. Otherwise: latest only. A game list with
    no games at all is "every game Final", so it takes the first branch. */
module StateGate {
  import opened Wrappers
  import opened MlbTypes
  import opened Runtime

  /** `games.every(g => g.status.abstractGameState === "Final")` */
  function AllFinal(games: seq<Game>): (r: bool)
    ensures r <==> forall i :: 0 <= i < |games| ==> games[i].state == Final
  {
    if games == [] then true
    else games[0].state == Final && AllFinal(games[1..])
  }

  /** `games.some(g => g.status.abstractGameState === "Live")` */
  function AnyLive(games: seq<Game>): (r: bool)
    ensures r <==> exists i :: 0 <= i < |games| && games[i].state == Live
  {
    if games == [] then false
    else games[0].state == Live || AnyLive(games[1..])
  }

  /** The writes the handler performs once games and scores are fetched:
      every game Final (so also no games at all) gives latest, snapshot and
      daily row under today's date; some game not Final and none Live gives
      nothing; some game Live gives latest only. */
  function GatePlan(league: string, today: string, scores: Scores, games: seq<Game>): (plan: seq<Write>)
    ensures (forall i :: 0 <= i < |games| ==> games[i].state == Final) ==>
              plan == [Latest(league, scores), Snapshot(league, today, scores), Daily(league, today, scores)]
    ensures (exists i :: 0 <= i < |games| && games[i].state != Final)
            && (forall i :: 0 <= i < |games| ==> games[i].state != Live) ==>
              plan == []
    ensures (exists i :: 0 <= i < |games| && games[i].state == Live) ==>
              plan == [Latest(league, scores)]
  {
    if AllFinal(games) then
      [Latest(league, scores), Snapshot(league, today, scores), Daily(league, today, scores)]
    else if !AnyLive(games) then
      []
    else
      [Latest(league, scores)]
  }

  /** `handler(context)` with `today` the Eastern calendar date. */
  method Handler(env: Environment, league: string, today: string) returns (o: Outcome)
    modifies env
    ensures env.games.Err? ==>
              env.calls == old(env.calls) + [FetchGames] && o == Rejected(env.games.error)
    ensures env.games.Ok? && env.scores.Err? ==>
              env.calls == old(env.calls) + [FetchGames, FetchScores(None)]
              && o == Rejected(env.scores.error)
    ensures env.games.Ok? && env.scores.Ok? ==>
              var run := RunPlan(GatePlan(league, today, env.scores.value, env.games.value), env.failures);
              env.calls == old(env.calls) + [FetchGames, FetchScores(None)] + Puts(run.attempted)
              && o == run.outcome
  {
    var games := env.FetchGames();
    if games.Err? {
      return Rejected(games.error);
    }
    var scores := env.FetchScores(None);
    if scores.Err? {
      return Rejected(scores.error);
    }
    var anyLive := AnyLive(games.value);
    var allFinal := AllFinal(games.value);
    if allFinal {
      var latest, snapshot, daily :=
        Latest(league, scores.value), Snapshot(league, today, scores.value), Daily(league, today, scores.value);
      assert [latest, snapshot, daily] == [latest] + ([snapshot] + ([daily] + []));
      RunPlanCons(latest, [snapshot] + ([daily] + []), env.failures);
      RunPlanCons(snapshot, [daily] + [], env.failures);
      RunPlanCons(daily, [], env.failures);
      o := env.Put(latest);
      if o.Rejected? {
        return;
      }
      o := env.Put(snapshot);
      if o.Rejected? {
        return;
      }
      o := env.Put(daily);
      return;
    }
    if !anyLive {
      return Resolved;
    }
    RunPlanCons(Latest(league, scores.value), [], env.failures);
    o := env.Put(Latest(league, scores.value));
  }

  /** No games at all counts as every game Final: all three writes. */
  lemma EmptyGameListWritesEverything(league: string, today: string, scores: Scores)
    ensures GatePlan(league, today, scores, [])
              == [Latest(league, scores), Snapshot(league, today, scores), Daily(league, today, scores)]
  {
  }
}
