/** The once-daily handler of `src/handler.daily.ts`: fetch the scores
    (passing yesterday's date), then write latest, the dated snapshot and the
    daily row for yesterday, stopping at the first write that fails. There is
    no gating on game state. */
module DailyHandler {
  import opened Wrappers
  import opened MlbTypes
  import opened Runtime

  /** The writes of a daily run: all three with the same scores, the
      snapshot and the row under the same date. */
  function DailyPlan(league: string, yesterday: string, scores: Scores): (plan: seq<Write>)
    ensures |plan| == 3
    ensures plan[0].Target() == LatestObject && plan[1].Target() == SnapshotObject
            && plan[2].Target() == DailyRow
    ensures forall i :: 0 <= i < 3 ==> plan[i].league == league && plan[i].scores == scores
    ensures plan[1].date == yesterday && plan[2].date == yesterday
  {
    [Latest(league, scores), Snapshot(league, yesterday, scores), Daily(league, yesterday, scores)]
  }

  /** `handler(event, context)` with `yesterday` the Eastern calendar date
      one day (86,400,000 ms) before the invocation. */
  method Handler(env: Environment, league: string, yesterday: string) returns (o: Outcome)
    modifies env
    ensures env.scores.Err? ==>
              env.calls == old(env.calls) + [FetchScores(Some(yesterday))]
              && o == Rejected(env.scores.error)
    ensures env.scores.Ok? ==>
              var run := RunPlan(DailyPlan(league, yesterday, env.scores.value), env.failures);
              env.calls == old(env.calls) + [FetchScores(Some(yesterday))] + Puts(run.attempted)
              && o == run.outcome
  {
    var scores := env.FetchScores(Some(yesterday));
    if scores.Err? {
      return Rejected(scores.error);
    }
    var latest, snapshot, daily :=
      Latest(league, scores.value), Snapshot(league, yesterday, scores.value), Daily(league, yesterday, scores.value);
    assert [latest, snapshot, daily] == [latest] + ([snapshot] + ([daily] + []));
    RunPlanCons(latest, [snapshot] + ([daily] + []), env.failures);
    RunPlanCons(snapshot, [daily] + [], env.failures);
    RunPlanCons(daily, [], env.failures);
    o := env.Put(latest);
    if o.Rejected? {
      return;
    }
    o := env.Put(snapshot);
    if o.Rejected? {
      return;
    }
    o := env.Put(daily);
  }

  /** With every store accepting, a daily run writes all three records,
      whatever the scores are. */
  lemma DailyWritesAll(league: string, yesterday: string, scores: Scores, failures: map<Store, string>)
    requires LatestObject !in failures && SnapshotObject !in failures && DailyRow !in failures
    ensures RunPlan(DailyPlan(league, yesterday, scores), failures)
              == Run(DailyPlan(league, yesterday, scores), Resolved)
  {
    var plan := DailyPlan(league, yesterday, scores);
    assert plan == [plan[0]] + ([plan[1]] + ([plan[2]] + []));
    RunPlanCons(plan[0], [plan[1]] + ([plan[2]] + []), failures);
    RunPlanCons(plan[1], [plan[2]] + [], failures);
    RunPlanCons(plan[2], [], failures);
  }
}
