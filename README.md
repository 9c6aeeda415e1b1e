# MLB scores pipeline — a verified Dafny model

The system is a small serverless pipeline. It polls the MLB Stats API for the
day's schedule and turns it into a `team name -> runs` table. It then writes
that table to S3 (`latest.json` and a dated snapshot) and to a DynamoDB daily
row. This model covers the logic between the HTTP fetches and the storage
writes:

- `fetchMLBScores`: the nested walk over `dates[].games[]`, the rule for
  which games are included, and the fall-back to `{}` when a fetch fails
  (`MlbFetcher`).
- The MLB API adapters (`MlbApi`):
  - `estNow` and `toISO`, the fixed UTC−5 clock and the date text;
  - `fetchSchedule`, with its override, its 5 AM cutoff and its fall-back to
    `{}`;
  - `fetchLineScore`, which fails on a non-OK status;
  - `fetchStandings`, which merges the two leagues into one `"W-L"` table and
    fails when either league fails.
- The three Lambda handlers: the state gate of `src/handler.ts`
  (`StateGate`), the daily handler (`DailyHandler`) and the live handler
  (`LiveHandler`).

Each fetch is an input value. It either answers with a status and a parsed
body or rejects with a network error; `res.ok` holds for the statuses 200 to
299. The outside world of a handler is the class `Runtime.Environment`. It
holds what the games fetcher and the scores fetcher return, and which stores
reject a write. It
keeps the ordered log of every call the handler makes (`calls`), and each
handler states its whole log and outcome. The intended plan of writes is a
function (`GatePlan`, `DailyPlan`). `Runtime.RunPlan` gives the fail-stop
meaning of awaiting those writes one after another.

Dates are day numbers counted from 1970-01-01. `CivilDate` converts them to
Gregorian dates and back, and proves the conversion is a bijection with
correct month, year and leap-year rollover. `DateText` renders the date part
of `toISOString()`, including its expanded `±YYYYYY` years. For the years 0 to
9999 that text is the `full-date` of section 5.6 of RFC 3339, and it reads
back to the same date. `Decimal` holds the digit strings these are built from.

Behaviour of the code worth noting:

- A day with no games writes all three records. `games.every(...)` is true
  for an empty array (src/handler.ts:41), so the gate takes the all-Final
  branch and awaits latest, snapshot and daily (src/handler.ts:44-50)
  (`StateGate.EmptyGameListWritesEverything`).
- `src/handler.ts:6` imports `fetchMLBGames` and `MLBGame` from
  `src/fetchers/mlbFetcher.ts`, which exports neither. The gate therefore
  takes the game list as what the environment's games fetcher returns.
- `src/handler.ts:7` and `src/handler.daily.ts:3` import `storeSnapshot` from
  `src/storage/s3Client.ts`, which defines and exports only `s3Client` and
  `storeLatest`. The model treats the snapshot write as a store of its own
  that accepts or rejects like the others.
- `src/handler.daily.ts:16` passes yesterday's date to `fetchMLBScores`.
  That function takes no parameter and always fetches the current UTC date.
  The model logs the argument in the call (`FetchScores(Some(yesterday))`).
  The scores are whatever the fetcher returns.
- The handler tests use object-valued scores. `MLBScores` is number-valued,
  and the model follows the type.

## Model

| member | source | states |
|---|---|---|
| MlbFetcher.FetchMLBScores | src/fetchers/mlbFetcher.ts:24-67 | The URL is the schedule URL for the UTC date of `now`. A rejected fetch or a non-OK status gives the empty table. Otherwise the table is the one built by visiting every game of every `dates` entry in order, which the two nested loops are proved to compute. |
| MlbFetcher.ScoresUrl | src/fetchers/mlbFetcher.ts:26-27 | For the years 0 to 9999, the date in the URL is the same `YYYY-MM-DD` text `toISO` produces for that instant. |
| MlbFetcher.Visit | src/fetchers/mlbFetcher.ts:55-58 | A game without both scores leaves the table as it is. An included game puts both team names in the table, sets the home team to the home score, sets the away team to the away score when the two names differ, and leaves every other name unchanged. |
| MlbFetcher.ScoresOf | src/fetchers/mlbFetcher.ts:48-60 | Visiting the games in order gives a table with at most two names per game. |
| MlbFetcher.FlattenContents | src/fetchers/mlbFetcher.ts:50-51 | A game is visited exactly when some `dates` entry lists it. A missing `games` list contributes nothing and is not an error. |
| MlbFetcher.ScoresContents | src/fetchers/mlbFetcher.ts:48-60 | A name is a key exactly when it is a team of some game with both scores present, so no other key appears. Its value is that team's score in the last such game in `dates`/`games` order. |
| MlbFetcher.UncountedGameIgnored | src/fetchers/mlbFetcher.ts:55 | A game with a null away or home score changes nothing, wherever it appears in the list. |
| MlbFetcher.CountedGameScores | src/fetchers/mlbFetcher.ts:56-57 | After an included game, the home team maps to the home score unchanged. The away team is present, and maps to the away score when the two names differ. |
| MlbApi.Hours | src/fetchers/mlbApi.ts:76 | The hour field of a time value (`getHours()` on a UTC host) lies in 0..23. |
| MlbApi.EstNow | src/fetchers/mlbApi.ts:50-57 | The Eastern clock's hour is the UTC hour minus 5, modulo 24. Its calendar day is the UTC day or the day before. |
| MlbApi.ToISO | src/fetchers/mlbApi.ts:60-62 | The date text is always exactly 10 characters long. |
| MlbApi.ToISOIsFullDate | src/fetchers/mlbApi.ts:60-62 | For the years 0 to 9999, the 10 characters are an RFC 3339 full-date that reads back as the instant's UTC calendar day. |
| MlbApi.ToISOPreviousDay | src/fetchers/mlbApi.ts:78 | Going back 86,400,000 ms gives the previous calendar day's text, across month ends, year ends and February 29th. |
| MlbApi.ScheduleUrl | src/fetchers/mlbApi.ts:85 | The URL is the fixed schedule prefix followed by the date text verbatim. |
| MlbApi.DefaultScheduleDay | src/fetchers/mlbApi.ts:73-83 | With no override, the schedule day is a valid calendar date. Before 5 AM on the Eastern clock it is the day before the Eastern day; from 5 AM on it is the Eastern day itself. |
| MlbApi.FetchSchedule | src/fetchers/mlbApi.ts:69-107 | A non-empty override is used verbatim. With no override or an empty one, the date is the Eastern day, or the day before it when the Eastern hour is below 5. The result is the parsed body on an OK status and `{}` on a non-OK status or a rejected fetch, so it never fails. |
| MlbApi.FetchLineScore | src/fetchers/mlbApi.ts:110-117 | The result succeeds exactly when the status is OK, and then it is the parsed body. A non-OK status gives the failure `Linescore fetch failed: <status>`, whose status digits carry no leading zero, so the status reads back exactly. A rejected fetch propagates its error. |
| MlbApi.LeagueFailureNamesLeague | src/fetchers/mlbApi.ts:128 | A league's failure message is `Standings fetch failed for league <id>: <status>`, whose status digits carry no leading zero, so the status reads back exactly. |
| MlbApi.RecordTextRoundTrip | src/fetchers/mlbApi.ts:134 | The `"<wins>-<losses>"` text of a team record reads back as the same wins and losses. |
| MlbApi.TeamsOf | src/fetchers/mlbApi.ts:132-133 | The records visited are exactly the team records of the groups: each record of each group is among them, and each of them belongs to some group. |
| MlbApi.Fold | src/fetchers/mlbApi.ts:132-136 | Writing the records into a table keeps every name already there and adds the name of every record. |
| MlbApi.FetchLeague | src/fetchers/mlbApi.ts:124-137 | On an OK status, every team record of every group is written into the table in order (proved for the two nested loops). Otherwise the fetch fails and names the league and the status. |
| MlbApi.FetchStandings | src/fetchers/mlbApi.ts:120-143 | Only leagues 103 and 104 are consulted. If either fails, the whole call fails with that league's message and returns no table. Otherwise the table is both leagues' records folded into `{}`. |
| MlbApi.FoldContents | src/fetchers/mlbApi.ts:132-136 | A name is in the folded table exactly when some record has it. The value is the `"W-L"` text of the last such record. |
| MlbApi.StandingsCoverBothLeagues | src/fetchers/mlbApi.ts:132-140 | Every team of either league appears in the merged standings with the `"W-L"` text of one of its records, and no other name appears. |
| MlbApi.FoldAppend | src/fetchers/mlbApi.ts:140 | Writing the second league's records into the first league's table gives the fold of the two record lists joined. |
| MlbApi.LeagueOrderIrrelevant | src/fetchers/mlbApi.ts:140 | When no team name is in both leagues, the merged table does not depend on which league's fetch completes first. |
| StateGate.AllFinal | src/handler.ts:41 | True exactly when every game's state is Final, so it is true for an empty list. |
| StateGate.AnyLive | src/handler.ts:40 | True exactly when some game's state is Live. |
| StateGate.GatePlan | src/handler.ts:44-68 | When every game is Final, the writes are latest, snapshot(today) and daily(today), in that order. When some game is not Final and none is Live, nothing is written. When some game is Live, the only write is latest. All writes carry the fetched scores. |
| StateGate.Handler | src/handler.ts:11-69 | The games are fetched first. A games failure propagates with no further call. The scores are fetched next, and a scores failure propagates with no write. After that, the writes are the gate's plan, attempted in order and stopping at the first failure, whose error the handler rejects with. |
| StateGate.EmptyGameListWritesEverything | src/handler.ts:41-50 | With no games, all three writes happen. |
| DailyHandler.DailyPlan | src/handler.daily.ts:22-38 | The plan is latest, snapshot and daily, in that order. All three get the same scores and league, and the snapshot and the daily row both get yesterday's date. |
| DailyHandler.Handler | src/handler.daily.ts:6-44 | The scores are fetched once, with yesterday's date. A fetch failure propagates with no write. Otherwise the three writes are attempted in order, the first failure ends the run, and its error is the handler's. |
| DailyHandler.DailyWritesAll | src/handler.daily.ts:22-38 | With every store accepting, all three writes happen, whatever the scores; there is no gating on game state. |
| Runtime.RunPlan | src/handler.daily.ts:22-38 | The writes attempted never exceed the plan, and a run that resolves attempted the whole plan. |
| LiveHandler.Handler | src/handler.live.ts:5-24 | The scores are fetched once, with no date. A fetch failure propagates with no write. Otherwise exactly one write happens, latest with the fetched table unchanged, even when it is empty. The handler fails exactly when that store rejects, with the store's error. No snapshot or daily row is ever written. |
| Runtime.RunPlanFailStop | src/handler.daily.ts:22-38 | The writes attempted are a prefix of the plan, and each write before the last attempted one succeeded. The run resolves exactly when the whole plan was attempted and no store rejected. Otherwise the last attempted write is the one that was rejected, and the run fails with that store's error. |
| Runtime.Environment.Put | src/handler.live.ts:18-21 | A write is logged. It rejects with the store's error exactly when that store fails. |
| Runtime.Environment.FetchScores | src/handler.live.ts:10-13 | The scores fetch is logged with its date argument, and it returns what the fetcher answers. |
| Runtime.Environment.FetchGames | src/handler.ts:30 | The games fetch is logged, and it returns what the fetcher answers. |
| CivilDate.FromDayNumber | src/fetchers/mlbApi.ts:60-62 | Every day number maps to a valid calendar date whose day number is that number. |
| CivilDate.DayNumberInverse | src/fetchers/mlbApi.ts:60-62 | Every valid calendar date maps to a day number that maps back to the same date. |
| CivilDate.FromDayNumberPred | src/fetchers/mlbApi.ts:78 | The day number before `n` is the calendar day before `n`'s date, including month and year rollover and leap days. |
| DateText.FullDateRoundTrip | src/fetchers/mlbApi.ts:60-62 | Every date in the years 0 to 9999 renders as a `YYYY-MM-DD` full-date that reads back as the same date. |
| DateText.FullDateCanonical | src/fetchers/mlbApi.ts:60-62 | A string that reads as a date is that date's rendering, so each date has exactly one spelling. |
| DateText.IsoDatePart | src/fetchers/mlbApi.ts:61 | The text has at least 10 characters. It has exactly 10 for the years 0 to 9999, and more for expanded years, so taking the first 10 is exact only in that range. |

## Left out

- HTTP transport, `res.json()` parsing and JSON shapes are not modelled. A reply is a status with an already-parsed body, or a network error. A body that fails to parse, which `fetchSchedule` and `fetchMLBScores` would turn into `{}`, is not modelled separately.
- Metrics (`aws-embedded-metrics`, including the `GamesParsed` count divided by 2) and `console` logging are not modelled. They are observability only.
- The host timezone offset in `estNow` (src/fetchers/mlbApi.ts:53) is not modelled. The host is taken to run in UTC, so `getHours()` and `toISOString()` read UTC fields. The fixed −5 h offset is kept, with no daylight saving time.
- The `America/New_York` formatting of `today` and `yesterday` (src/handler.ts:20-23, src/handler.daily.ts:11-13) needs a timezone database. Those dates are inputs of the handlers.
- `toISOString` throws a RangeError outside ±8.64e15 ms. The model renders any day number.
- `MlbApi.FetchStandings`: the two league fetches run concurrently under `Promise.all` (src/fetchers/mlbApi.ts:140). The model runs 103, then 104. It does not capture which league's value wins for a name in both leagues, nor which error is reported when both fail. `MlbApi.LeagueOrderIrrelevant` shows the order does not matter when no name is shared.
- `MlbApi.FetchLineScore`: the URL built from `gamePk` is not modelled; the reply for that URL is the input.
- Object keys: the JavaScript objects used as maps are modelled as `map<string, ...>`. Special keys such as `__proto__` are not modelled.
- Scores and win-loss counts are integers rather than IEEE doubles.
- The storage wrappers (`src/storage/s3Client.ts`, `src/storage/dynamoClient.ts`) are not modelled beyond the three write actions and whether each store rejects. Their object keys, request shapes and the environment-variable checks at module load are left out. `storeSnapshot`, which the handlers import, is not defined in `src/storage/s3Client.ts`; the snapshot write is modelled only as a store that accepts or rejects it.
- `fetchMLBGames` is not part of this model. The list of games is what the environment's games fetcher returns.
- Lambda `context` handling (`callbackWaitsForEmptyEventLoop`) and `process.env.LEAGUE_ID` are not modelled. The league id is a handler parameter.
