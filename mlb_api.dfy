/** The MLB Stats API adapters of `src/fetchers/mlbApi.ts`: choosing the
    schedule date on a fixed UTC-5 "Eastern" clock, fetching the schedule
    (which degrades to `{}`), fetching one game's line score (which fails
    hard) and folding the standings of leagues 103 and 104 into one
    team-to-record table (which fails if either league fails).

    Time values are milliseconds since 1970-01-01T00:00:00Z, as in a `Date`.
    The host runs on UTC, so `getHours()` and `toISOString()` both read the
    UTC fields of a time value. */
module MlbApi {
  import opened Wrappers
  import opened Decimal
  import opened CivilDate
  import opened DateText
  import opened MlbTypes

  const HourMs := 3_600_000
  const DayMs := 86_400_000
  /** The fixed offset of the "Eastern" clock: five hours behind UTC. */
  const EasternOffsetMs := 5 * HourMs
  /** Before this Eastern hour the previous day's schedule is fetched. */
  const CutoffHour := 5
  const ApiBase := "https://statsapi.mlb.com/api/v1"
  const SchedulePrefix := ApiBase + "/schedule?sportId=1&date="

  // ---------------------------------------------------------------------
  // Clock and date text

  /** The hour field of a time value (`getHours()` on a UTC host). */
  function Hours(t: int): (h: int)
    ensures 0 <= h < 24
  {
    (t % DayMs) / HourMs
  }

  /** `estNow()`: the current time value moved onto the fixed UTC-5 clock,
      so that its UTC fields read as Eastern wall-clock time. */
  function EstNow(now: int): (t: int)
    ensures Hours(t) == (Hours(now) + 19) % 24
    ensures t / DayMs == now / DayMs || t / DayMs == now / DayMs - 1
  {
    var t := now - EasternOffsetMs;
    assert t % DayMs == (now % DayMs + 19 * HourMs) % DayMs;
    t
  }

  /** `toISO(date)`: the first ten characters of `toISOString()`. For the
      years 0 to 9999 this is the RFC 3339 full-date of the time value's
      calendar day. */
  function ToISO(t: int): (s: string)
    ensures |s| == 10
  {
    IsoDatePart(FromDayNumber(t / DayMs))[..10]
  }

  lemma ToISOIsFullDate(t: int)
    requires 0 <= FromDayNumber(t / DayMs).year <= 9999
    ensures ParseFullDate(ToISO(t)) == Some(FromDayNumber(t / DayMs))
  {
    var d := FromDayNumber(t / DayMs);
    assert IsoDatePart(d)[..10] == IsoDatePart(d);
    FullDateRoundTrip(d);
  }

  /** The calendar day of a time value on the Eastern clock. */
  function EasternDay(now: int): Date {
    FromDayNumber(EstNow(now) / DayMs)
  }

  /** One day earlier as a time value is one calendar day earlier as text,
      across month ends, year ends and February 29th. */
  lemma ToISOPreviousDay(t: int)
    ensures ToISO(t - DayMs) == IsoDatePart(PrevDay(FromDayNumber(t / DayMs)))[..10]
  {
    assert (t - DayMs) / DayMs == t / DayMs - 1;
    FromDayNumberPred(t / DayMs);
  }

  // ---------------------------------------------------------------------
  // Schedule

  /** An override date counts only when it is a non-empty string. */
  predicate Overrides(overrideDate: Option<string>) {
    overrideDate.Some? && overrideDate.value != ""
  }

  /** The day whose schedule is fetched when no override is given: the
      Eastern calendar day, or the day before it until 5 AM Eastern. */
  function DefaultScheduleDay(now: int): (d: Date)
    ensures Valid(d)
    ensures Hours(EstNow(now)) < CutoffHour ==> DayNumber(d) == EstNow(now) / DayMs - 1
    ensures Hours(EstNow(now)) >= CutoffHour ==> DayNumber(d) == EstNow(now) / DayMs
  {
    if Hours(EstNow(now)) < CutoffHour then
      PrevDayNumber(EasternDay(now));
      PrevDay(EasternDay(now))
    else EasternDay(now)
  }

  function ScheduleUrl(date: string): (url: string)
    ensures |url| == |SchedulePrefix| + |date|
    ensures url[..|SchedulePrefix|] == SchedulePrefix && url[|SchedulePrefix|..] == date
  {
    SchedulePrefix + date
  }

  /** `fetchSchedule(overrideDate)` at time `now`, the schedule endpoint
      answering `reply`. Returns the URL requested and the schedule; it never
      fails: a rejected fetch or a non-OK status yields `{}`. */
  method FetchSchedule(overrideDate: Option<string>, now: int, reply: FetchReply<ScheduleResponse>)
    returns (url: string, schedule: ScheduleResponse)
    ensures Overrides(overrideDate) ==> url == ScheduleUrl(overrideDate.value)
    ensures !Overrides(overrideDate) ==>
              url == ScheduleUrl(IsoDatePart(DefaultScheduleDay(now))[..10])
    ensures schedule == if reply.IsOk() then reply.body else NoSchedule
  {
    var dateStr := overrideDate;
    if !(dateStr.Some? && dateStr.value != "") {
      var nowEst := EstNow(now);
      if Hours(nowEst) < CutoffHour {
        ToISOPreviousDay(nowEst);
        dateStr := Some(ToISO(nowEst - DayMs));
      } else {
        dateStr := Some(ToISO(nowEst));
      }
    }
    url := ScheduleUrl(dateStr.value);
    if reply.IsOk() {
      schedule := reply.body;
    } else {
      schedule := NoSchedule;
    }
  }

  // ---------------------------------------------------------------------
  // Line score

  datatype LineTotals = LineTotals(runs: int, hits: int, errors: int)

  /** The line-score body (`Linescore`). */
  datatype Linescore = Linescore(away: LineTotals, home: LineTotals,
                                 state: GameState, detailedState: string)

  const LineScoreFailure := "Linescore fetch failed: "

  /** The digits after `prefix` in `message` carry no leading zero, as
      `String(n)` writes them. */
  predicate NoLeadingZero(prefix: string, message: string) {
    |prefix| + 1 < |message| ==> message[|prefix|] != '0'
  }

  /** The number at the end of an error message that starts with `prefix`. */
  function StatusInMessage(prefix: string, message: string): Option<nat> {
    if |prefix| < |message| && message[..|prefix|] == prefix && AllDigits(message[|prefix|..])
    then Some(Value(message[|prefix|..]))
    else None
  }

  /** `fetchLineScore(gamePk)`, the line-score endpoint answering `reply`:
      the parsed body on an OK status; otherwise a failure that names the
      status. A rejected fetch propagates its own error. */
  function FetchLineScore(reply: FetchReply<Linescore>): (r: Result<Linescore>)
    ensures r.Ok? <==> reply.IsOk()
    ensures r.Ok? ==> r.value == reply.body
    ensures reply.Reply? && !reply.IsOk() ==>
              r.Err? && StatusInMessage(LineScoreFailure, r.error) == Some(reply.status)
              && NoLeadingZero(LineScoreFailure, r.error)
    ensures reply.NetworkError? ==> r == Err(reply.message)
  {
    match reply
    case NetworkError(message) => Err(message)
    case Reply(status, body) =>
      if reply.IsOk() then Ok(body)
      else
        var message := LineScoreFailure + Show(status);
        assert message[..|LineScoreFailure|] == LineScoreFailure;
        assert message[|LineScoreFailure|..] == Show(status);
        ShowValue(status);
        Err(message)
  }

  // ---------------------------------------------------------------------
  // Standings

  datatype TeamRecord = TeamRecord(name: string, wins: nat, losses: nat)

  datatype StandingsGroup = StandingsGroup(teamRecords: seq<TeamRecord>)

  /** The standings body (`StandingsResponse`). */
  datatype StandingsResponse = StandingsResponse(records: seq<StandingsGroup>)

  /** The two leagues whose standings are fetched. */
  const AmericanLeague: nat := 103
  const NationalLeague: nat := 104

  /** `${wins}-${losses}` */
  function RecordText(wins: nat, losses: nat): string {
    Show(wins) + "-" + Show(losses)
  }

  /** Length of the run of digits that `s` starts with. */
  function LeadingDigits(s: string): (k: nat)
    ensures k <= |s| && AllDigits(s[..k])
    ensures k < |s| ==> !IsDigit(s[k])
  {
    if s == [] || !IsDigit(s[0]) then 0
    else
      var k := 1 + LeadingDigits(s[1..]);
      assert s[..k] == [s[0]] + s[1..][..k - 1];
      k
  }

  /** Reads a `"W-L"` record back into wins and losses. */
  function ParseRecord(s: string): Option<(nat, nat)> {
    var k := LeadingDigits(s);
    if 0 < k && k + 1 < |s| && s[k] == '-' && AllDigits(s[k + 1..])
    then Some((Value(s[..k]), Value(s[k + 1..])))
    else None
  }

  lemma {:induction false} LeadingDigitsOf(t: string, u: string)
    requires AllDigits(t)
    requires u != [] && !IsDigit(u[0])
    ensures LeadingDigits(t + u) == |t|
  {
    if t != [] {
      assert (t + u)[1..] == t[1..] + u;
      LeadingDigitsOf(t[1..], u);
    }
  }

  /** A record text reads back as the wins and losses it was made from. */
  lemma RecordTextRoundTrip(wins: nat, losses: nat)
    ensures ParseRecord(RecordText(wins, losses)) == Some((wins, losses))
  {
    var s := RecordText(wins, losses);
    var w, l := Show(wins), Show(losses);
    assert s == w + ("-" + l);
    LeadingDigitsOf(w, "-" + l);
    assert s[|w|] == '-';
    assert s[..|w|] == w;
    assert s[|w| + 1..] == l;
    ShowValue(wins);
    ShowValue(losses);
  }

  /** Every team record of every group, in order. */
  function TeamsOf(groups: seq<StandingsGroup>): (recs: seq<TeamRecord>)
    ensures forall i, j :: 0 <= i < |groups| && 0 <= j < |groups[i].teamRecords| ==>
              groups[i].teamRecords[j] in recs
    ensures forall rec :: rec in recs ==> exists i :: 0 <= i < |groups| && rec in groups[i].teamRecords
  {
    if groups == [] then []
    else TeamsOf(groups[..|groups| - 1]) + groups[|groups| - 1].teamRecords
  }

  /** Writes the record of each team in `recs`, in order, into `table`. */
  function Fold(table: map<string, string>, recs: seq<TeamRecord>): (r: map<string, string>)
    ensures table.Keys <= r.Keys
    ensures forall i :: 0 <= i < |recs| ==> recs[i].name in r
  {
    if recs == [] then table
    else
      var last := recs[|recs| - 1];
      Fold(table, recs[..|recs| - 1])[last.name := RecordText(last.wins, last.losses)]
  }

  function LeagueFailure(leagueId: nat, reply: FetchReply<StandingsResponse>): string {
    match reply
    case NetworkError(message) => message
    case Reply(status, _) =>
      "Standings fetch failed for league " + Show(leagueId) + ": " + Show(status)
  }

  /** The failure of a league fetch with a non-OK status names the league
      and the status. */
  lemma LeagueFailureNamesLeague(leagueId: nat, reply: FetchReply<StandingsResponse>)
    requires reply.Reply?
    ensures StatusInMessage("Standings fetch failed for league " + Show(leagueId) + ": ",
                            LeagueFailure(leagueId, reply)) == Some(reply.status)
    ensures NoLeadingZero("Standings fetch failed for league " + Show(leagueId) + ": ",
                          LeagueFailure(leagueId, reply))
  {
    var prefix := "Standings fetch failed for league " + Show(leagueId) + ": ";
    var message := LeagueFailure(leagueId, reply);
    assert message == prefix + Show(reply.status);
    assert message[..|prefix|] == prefix;
    assert message[|prefix|..] == Show(reply.status);
    ShowValue(reply.status);
  }

  /** `fetchLeague(leagueId)`: on an OK status, writes every team record of
      every group into `table`; otherwise fails naming the league. */
  method FetchLeague(leagueId: nat, reply: FetchReply<StandingsResponse>, table: map<string, string>)
    returns (r: Result<map<string, string>>)
    ensures r == if reply.IsOk() then Ok(Fold(table, TeamsOf(reply.body.records)))
                 else Err(LeagueFailure(leagueId, reply))
  {
    if !reply.IsOk() {
      return Err(LeagueFailure(leagueId, reply));
    }
    var groups := reply.body.records;
    var standings := table;
    for i := 0 to |groups|
      invariant standings == Fold(table, TeamsOf(groups[..i]))
    {
      var recs := groups[i].teamRecords;
      ghost var done := TeamsOf(groups[..i]);
      FoldPrefix(table, done, recs, 0);
      for j := 0 to |recs|
        invariant standings == Fold(table, done + recs[..j])
      {
        var rec := recs[j];
        standings := standings[rec.name := RecordText(rec.wins, rec.losses)];
        FoldPrefix(table, done, recs, j + 1);
      }
      TeamsOfStep(groups, i);
      assert recs[..|recs|] == recs;
    }
    assert groups[..|groups|] == groups;
    return Ok(standings);
  }

  /** `fetchStandings()`, the standings endpoint answering `reply(leagueId)`:
      the records of both leagues in one table, or the failure of the first
      league that fails. Nothing but leagues 103 and 104 is consulted. */
  method FetchStandings(reply: nat -> FetchReply<StandingsResponse>)
    returns (r: Result<map<string, string>>)
    ensures !reply(AmericanLeague).IsOk() ==>
              r == Err(LeagueFailure(AmericanLeague, reply(AmericanLeague)))
    ensures reply(AmericanLeague).IsOk() && !reply(NationalLeague).IsOk() ==>
              r == Err(LeagueFailure(NationalLeague, reply(NationalLeague)))
    ensures reply(AmericanLeague).IsOk() && reply(NationalLeague).IsOk() ==>
              r == Ok(Fold(map[], TeamsOf(reply(AmericanLeague).body.records)
                                  + TeamsOf(reply(NationalLeague).body.records)))
  {
    var american := FetchLeague(AmericanLeague, reply(AmericanLeague), map[]);
    if american.Err? {
      return american;
    }
    r := FetchLeague(NationalLeague, reply(NationalLeague), american.value);
    if r.Ok? {
      FoldAppend(map[], TeamsOf(reply(AmericanLeague).body.records),
                 TeamsOf(reply(NationalLeague).body.records));
    }
  }

  /** Writing one more record of `recs` after `done`. */
  lemma FoldPrefix(table: map<string, string>, done: seq<TeamRecord>, recs: seq<TeamRecord>, j: nat)
    requires j <= |recs|
    ensures j == 0 ==> Fold(table, done + recs[..j]) == Fold(table, done)
    ensures j > 0 ==> Fold(table, done + recs[..j])
                        == Fold(table, done + recs[..j - 1])[recs[j - 1].name := RecordText(recs[j - 1].wins, recs[j - 1].losses)]
  {
    if j == 0 {
      assert done + recs[..j] == done;
    } else {
      assert (done + recs[..j])[..|done + recs[..j]| - 1] == done + recs[..j - 1];
    }
  }

  lemma TeamsOfStep(groups: seq<StandingsGroup>, i: nat)
    requires i < |groups|
    ensures TeamsOf(groups[..i + 1]) == TeamsOf(groups[..i]) + groups[i].teamRecords
  {
    assert groups[..i + 1][..i] == groups[..i];
  }

  lemma {:induction false} FoldAppend(table: map<string, string>, a: seq<TeamRecord>, b: seq<TeamRecord>)
    ensures Fold(Fold(table, a), b) == Fold(table, a + b)
  {
    if b != [] {
      FoldAppend(table, a, b[..|b| - 1]);
      assert (a + b)[..|a + b| - 1] == a + b[..|b| - 1];
      assert (a + b)[|a + b| - 1] == b[|b| - 1];
    } else {
      assert a + b == a;
    }
  }

  /** The last record in `recs` for team `name` is at index `i`. */
  ghost predicate LastRecordOf(recs: seq<TeamRecord>, name: string, i: int) {
    0 <= i < |recs| && recs[i].name == name
    && forall j :: i < j < |recs| ==> recs[j].name != name
  }

  /** The value a folded table holds for a name is the text of that name's
      last record. */
  lemma {:induction false} FoldLastRecord(recs: seq<TeamRecord>, name: string)
    requires name in Fold(map[], recs)
    ensures exists i :: LastRecordOf(recs, name, i)
                        && Fold(map[], recs)[name] == RecordText(recs[i].wins, recs[i].losses)
  {
    var n := |recs| - 1;
    var init := recs[..n];
    var before := Fold(map[], init);
    if recs[n].name == name {
      assert LastRecordOf(recs, name, n);
    } else {
      FoldLastRecord(init, name);
      var i :| LastRecordOf(init, name, i) && before[name] == RecordText(init[i].wins, init[i].losses);
      assert recs[i] == init[i];
      assert LastRecordOf(recs, name, i);
    }
  }

  /** Folding records into an empty table yields exactly the teams that have
      a record, each with the text of its last record. */
  lemma FoldContents(recs: seq<TeamRecord>, name: string)
    ensures name in Fold(map[], recs) <==> exists i :: 0 <= i < |recs| && recs[i].name == name
    ensures name in Fold(map[], recs) ==>
              exists i :: LastRecordOf(recs, name, i)
                          && Fold(map[], recs)[name] == RecordText(recs[i].wins, recs[i].losses)
  {
    FoldKeys(recs);
    assert name in Names(recs) <==> exists i :: 0 <= i < |recs| && recs[i].name == name;
    if name in Fold(map[], recs) {
      FoldLastRecord(recs, name);
    }
  }

  /** Every team of either league appears in the merged standings with the
      `"W-L"` text of one of its records, and no other name appears. */
  lemma StandingsCoverBothLeagues(american: StandingsResponse, national: StandingsResponse, name: string)
    ensures var recs := TeamsOf(american.records) + TeamsOf(national.records);
            && (name in Fold(map[], recs) <==> exists i :: 0 <= i < |recs| && recs[i].name == name)
            && (name in Fold(map[], recs) ==>
                  exists i :: 0 <= i < |recs| && recs[i].name == name
                              && Fold(map[], recs)[name] == RecordText(recs[i].wins, recs[i].losses))
  {
    FoldContents(TeamsOf(american.records) + TeamsOf(national.records), name);
  }

  /** Folding into a table overrides exactly the names that have a record. */
  lemma {:induction false} FoldIsUnion(table: map<string, string>, recs: seq<TeamRecord>)
    ensures Fold(table, recs) == table + Fold(map[], recs)
  {
    if recs != [] {
      FoldIsUnion(table, recs[..|recs| - 1]);
    }
  }

  /** The team names that have a record in `recs`. */
  function Names(recs: seq<TeamRecord>): set<string> {
    set i | 0 <= i < |recs| :: recs[i].name
  }

  lemma {:induction false} FoldKeys(recs: seq<TeamRecord>)
    ensures Fold(map[], recs).Keys == Names(recs)
  {
    if recs != [] {
      var init := recs[..|recs| - 1];
      FoldKeys(init);
      assert Names(recs) == Names(init) + {recs[|recs| - 1].name} by {
        forall name | name in Names(recs) ensures name in Names(init) + {recs[|recs| - 1].name} {
          var i :| 0 <= i < |recs| && recs[i].name == name;
          if i < |recs| - 1 { assert init[i] == recs[i]; }
        }
        forall name | name in Names(init) ensures name in Names(recs) {
          var i :| 0 <= i < |init| && init[i].name == name;
          assert recs[i] == init[i];
        }
      }
    }
  }

  /** When no team is in both leagues, the merged table does not depend on
      which league's records are written first; so the completion order of
      the two concurrent fetches does not matter. */
  lemma LeagueOrderIrrelevant(a: seq<TeamRecord>, b: seq<TeamRecord>)
    requires Names(a) !! Names(b)
    ensures Fold(map[], a + b) == Fold(map[], b + a)
  {
    var ma, mb := Fold(map[], a), Fold(map[], b);
    FoldAppend(map[], a, b);
    FoldAppend(map[], b, a);
    FoldIsUnion(ma, b);
    FoldIsUnion(mb, a);
    FoldKeys(a);
    FoldKeys(b);
    UnionCommutes(ma, mb);
  }

  lemma UnionCommutes(m: map<string, string>, n: map<string, string>)
    requires m.Keys !! n.Keys
    ensures m + n == n + m
  {
    assert (m + n).Keys == (n + m).Keys;
  }
}
