/** The frequent handler of `src/handler.live.ts`: fetch the scores, then
    always overwrite latest with them. */
module LiveHandler {
  import opened Wrappers
  import opened MlbTypes
  import opened Runtime

  /** `handler(event, context)`. */
  method Handler(env: Environment, league: string) returns (o: Outcome)
    modifies env
    ensures env.scores.Err? ==>
              env.calls == old(env.calls) + [FetchScores(None)] && o == Rejected(env.scores.error)
    ensures env.scores.Ok? ==>
              env.calls == old(env.calls) + [FetchScores(None), Put(Latest(league, env.scores.value))]
              && o == (if LatestObject in env.failures then Rejected(env.failures[LatestObject]) else Resolved)
  {
    var scores := env.FetchScores(None);
    if scores.Err? {
      return Rejected(scores.error);
    }
    o := env.Put(Latest(league, scores.value));
  }
}
