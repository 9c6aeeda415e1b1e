/** The world a handler invocation talks to: the two score fetchers and the
    three stores (the S3 `latest.json` object, the dated S3 snapshot and the
    DynamoDB daily row). What the fetchers answer and which stores reject are
    fixed when the invocation starts; the invocation's observable behaviour is
    the ordered log of calls it makes. */
module Runtime {
  import opened Wrappers
  import opened MlbTypes

  datatype Store = LatestObject | SnapshotObject | DailyRow

  /** One persistence action and its arguments. */
  datatype Write =
    | Latest(league: string, scores: Scores)                  // storeLatest(leagueId, scores)
    | Snapshot(league: string, date: string, scores: Scores)  // storeSnapshot(leagueId, date, scores)
    | Daily(league: string, date: string, scores: Scores)     // putDailySnapshot(leagueId, date, scores)
  {
    function Target(): Store {
      match this
      case Latest(_, _) => LatestObject
      case Snapshot(_, _, _) => SnapshotObject
      case Daily(_, _, _) => DailyRow
    }
  }

  /** One external call: `fetchMLBGames()`, `fetchMLBScores(date?)` or a write. */
  datatype Call = FetchGames | FetchScores(date: Option<string>) | Put(write: Write)

  /** How a handler's promise settles. */
  datatype Outcome = Resolved | Rejected(error: string)

  /** The writes a plan attempts and how it ends. */
  datatype Run = Run(attempted: seq<Write>, outcome: Outcome)

  /** Awaits the writes of `plan` one after another; the first write whose
      store rejects ends the run with that store's error. */
  function RunPlan(plan: seq<Write>, failures: map<Store, string>): (r: Run)
    ensures |r.attempted| <= |plan|
    ensures r.outcome == Resolved ==> r.attempted == plan
  {
    if plan == [] then Run([], Resolved)
    else if plan[0].Target() in failures then Run([plan[0]], Rejected(failures[plan[0].Target()]))
    else
      var rest := RunPlan(plan[1..], failures);
      Run([plan[0]] + rest.attempted, rest.outcome)
  }

  /** The writes attempted are a prefix of the plan, and every write before
      the last one attempted was accepted. */
  lemma {:induction false} RunPlanPrefix(plan: seq<Write>, failures: map<Store, string>)
    ensures var r := RunPlan(plan, failures);
            && |r.attempted| <= |plan| && r.attempted == plan[..|r.attempted|]
            && forall i :: 0 <= i < |r.attempted| - 1 ==> r.attempted[i].Target() !in failures
  {
    if plan != [] && plan[0].Target() !in failures {
      var rest := RunPlan(plan[1..], failures);
      RunPlanPrefix(plan[1..], failures);
      var r := RunPlan(plan, failures);
      assert r.attempted == [plan[0]] + rest.attempted;
      assert plan[..|r.attempted|] == [plan[0]] + plan[1..][..|rest.attempted|];
      forall i | 0 <= i < |r.attempted| - 1 ensures r.attempted[i].Target() !in failures {
        if i > 0 {
          assert r.attempted[i] == rest.attempted[i - 1];
        }
      }
    }
  }

  /** A run resolves exactly when it attempted the whole plan and no store of
      the plan rejects. */
  lemma {:induction false} RunPlanResolved(plan: seq<Write>, failures: map<Store, string>)
    ensures RunPlan(plan, failures).outcome == Resolved <==>
              RunPlan(plan, failures).attempted == plan
              && forall i :: 0 <= i < |plan| ==> plan[i].Target() !in failures
  {
    if plan != [] && plan[0].Target() !in failures {
      var rest := RunPlan(plan[1..], failures);
      RunPlanResolved(plan[1..], failures);
      assert plan == [plan[0]] + plan[1..];
      if rest.outcome == Resolved {
        forall i | 0 < i < |plan| ensures plan[i].Target() !in failures {
          assert plan[i] == plan[1..][i - 1];
        }
      } else if forall i :: 0 <= i < |plan| ==> plan[i].Target() !in failures {
        forall i | 0 <= i < |plan[1..]| ensures plan[1..][i].Target() !in failures {
          assert plan[1..][i] == plan[i + 1];
        }
      }
    }
  }

  /** A rejected run ends with the write whose store rejected, and carries
      that store's error. */
  lemma {:induction false} RunPlanRejected(plan: seq<Write>, failures: map<Store, string>)
    ensures var r := RunPlan(plan, failures);
            r.outcome.Rejected? ==>
              |r.attempted| > 0
              && r.attempted[|r.attempted| - 1].Target() in failures
              && r.outcome.error == failures[r.attempted[|r.attempted| - 1].Target()]
  {
    if plan != [] && plan[0].Target() !in failures {
      RunPlanRejected(plan[1..], failures);
      var rest := RunPlan(plan[1..], failures);
      var r := RunPlan(plan, failures);
      if rest.outcome.Rejected? {
        assert r.attempted[|r.attempted| - 1] == rest.attempted[|rest.attempted| - 1];
      }
    }
  }

  /** Fail-stop: the writes attempted are a prefix of the plan that ends at
      the first write whose store rejects, every earlier write succeeded, and
      the run is rejected with that store's error; a run resolves only when
      it attempted the whole plan and no store rejected. */
  lemma RunPlanFailStop(plan: seq<Write>, failures: map<Store, string>)
    ensures var r := RunPlan(plan, failures);
            && |r.attempted| <= |plan| && r.attempted == plan[..|r.attempted|]
            && (forall i :: 0 <= i < |r.attempted| - 1 ==> r.attempted[i].Target() !in failures)
            && (r.outcome == Resolved <==>
                  r.attempted == plan && forall i :: 0 <= i < |plan| ==> plan[i].Target() !in failures)
            && (r.outcome.Rejected? ==>
                  |r.attempted| > 0
                  && r.attempted[|r.attempted| - 1].Target() in failures
                  && r.outcome.error == failures[r.attempted[|r.attempted| - 1].Target()])
  {
    RunPlanPrefix(plan, failures);
    RunPlanResolved(plan, failures);
    RunPlanRejected(plan, failures);
  }

  /** The calls that perform `writes`, in order. */
  function Puts(writes: seq<Write>): seq<Call> {
    if writes == [] then [] else [Put(writes[0])] + Puts(writes[1..])
  }

  /** Running a plan that starts with `w`: `w` first, then the rest unless
      `w`'s store rejects. */
  lemma RunPlanCons(w: Write, rest: seq<Write>, failures: map<Store, string>)
    ensures RunPlan([w] + rest, failures)
              == if w.Target() in failures then Run([w], Rejected(failures[w.Target()]))
                 else Run([w] + RunPlan(rest, failures).attempted, RunPlan(rest, failures).outcome)
    ensures Puts([w] + rest) == [Put(w)] + Puts(rest)
  {
    assert ([w] + rest)[1..] == rest;
  }

  class Environment {
    /** Every external call made so far, in order. */
    var calls: seq<Call>
    /** What `fetchMLBGames()` resolves with, or rejects with. */
    const games: Result<seq<Game>>
    /** What `fetchMLBScores()` resolves with, or rejects with. */
    const scores: Result<Scores>
    /** The stores that reject a write, each with its error. */
    const failures: map<Store, string>

    constructor (games: Result<seq<Game>>, scores: Result<Scores>, failures: map<Store, string>)
      ensures calls == []
      ensures this.games == games && this.scores == scores && this.failures == failures
    {
      calls := [];
      this.games := games;
      this.scores := scores;
      this.failures := failures;
    }

    method FetchGames() returns (r: Result<seq<Game>>)
      modifies this
      ensures r == games
      ensures calls == old(calls) + [Call.FetchGames]
    {
      calls := calls + [Call.FetchGames];
      r := games;
    }

    method FetchScores(date: Option<string>) returns (r: Result<Scores>)
      modifies this
      ensures r == scores
      ensures calls == old(calls) + [Call.FetchScores(date)]
    {
      calls := calls + [Call.FetchScores(date)];
      r := scores;
    }

    method Put(w: Write) returns (o: Outcome)
      modifies this
      ensures o == if w.Target() in failures then Rejected(failures[w.Target()]) else Resolved
      ensures calls == old(calls) + [Call.Put(w)]
    {
      calls := calls + [Call.Put(w)];
      o := if w.Target() in failures then Rejected(failures[w.Target()]) else Resolved;
    }
  }
}
