/** The shapes the MLB Stats API returns for a schedule, and the outcome of
    one HTTP fetch. A fetch either answers with a status and a parsed JSON
    body, or rejects (a network error); `res.ok` holds for the statuses 200 to
    299. */
module MlbTypes {
  import opened Wrappers

  datatype FetchReply<T> = Reply(status: nat, body: T) | NetworkError(message: string)
  {
    predicate IsOk() {
      Reply? && 200 <= status <= 299
    }
  }

  datatype GameState = Preview | Live | Final

  /** One side of a game; `score` is `None` for a JSON `null` or a missing score. */
  datatype TeamSide = TeamSide(name: string, score: Option<int>)

  /** One game of the schedule (`MLBGame`). */
  datatype Game = Game(gamePk: int, state: GameState, detailedState: string,
                       away: TeamSide, home: TeamSide)

  /** One entry of `dates`; `games` may be missing. */
  datatype ScheduleDate = ScheduleDate(games: Option<seq<Game>>)

  /** The schedule response (`MLBScheduleResponse`); `dates` may be missing. */
  datatype ScheduleResponse = ScheduleResponse(dates: Option<seq<ScheduleDate>>)

  /** The empty object `{}`: a schedule response without `dates`. */
  const NoSchedule := ScheduleResponse(None)

  /** A team-name to runs mapping (`MLBScores`). */
  type Scores = map<string, int>
}
