/** `fetchMLBScores()` of `src/fetchers/mlbFetcher.ts`: fetch the schedule of
    the current UTC date and build a team-name to runs table from every game
    in which both teams have a score. A failed fetch yields the empty table. */
module MlbFetcher {
  import opened Wrappers
  import opened CivilDate
  import opened DateText
  import opened MlbTypes
  import opened MlbApi

  /** The schedule URL for the UTC date of `now` (`toISOString()` up to the
      `T`); unlike `fetchSchedule`, no Eastern clock and no cutoff hour. */
  function ScoresUrl(now: int): (url: string)
    ensures 0 <= FromDayNumber(now / DayMs).year <= 9999 ==> url == ScheduleUrl(ToISO(now))
  {
    var date := IsoDatePart(FromDayNumber(now / DayMs));
    assert |date| == 10 ==> date[..10] == date;
    ScheduleUrl(date)
  }

  /** A game counts when both its scores are present (not `null`). */
  predicate Counted(g: Game) {
    g.away.score.Some? && g.home.score.Some?
  }

  /** Team `name` plays in game `g`. */
  predicate Plays(g: Game, name: string) {
    g.away.name == name || g.home.name == name
  }

  /** The score a counted game gives team `name`; the home side is written
      last, so it wins when both sides carry the same name. */
  function ScoreIn(g: Game, name: string): int
    requires Counted(g) && Plays(g, name)
  {
    if g.home.name == name then g.home.score.value else g.away.score.value
  }

  /** The games of one `dates` entry; a missing `games` list is empty. */
  function GamesOf(entry: ScheduleDate): seq<Game> {
    match entry.games
    case None => []
    case Some(games) => games
  }

  /** The games of all `dates` entries, in order. */
  function Flatten(dates: seq<ScheduleDate>): seq<Game> {
    if dates == [] then [] else Flatten(dates[..|dates| - 1]) + GamesOf(dates[|dates| - 1])
  }

  /** The `dates` of a schedule response; a missing list is empty. */
  function DatesOf(response: ScheduleResponse): seq<ScheduleDate> {
    match response.dates
    case None => []
    case Some(dates) => dates
  }

  /** The games of a schedule response, in `dates` order. */
  function ScheduleGames(response: ScheduleResponse): seq<Game> {
    Flatten(DatesOf(response))
  }

  /** The table after visiting game `g`: a counted game sets its away team,
      then its home team. */
  function Visit(table: Scores, g: Game): (t: Scores)
    ensures !Counted(g) ==> t == table
    ensures Counted(g) ==> g.away.name in t && g.home.name in t && t[g.home.name] == g.home.score.value
    ensures Counted(g) && g.away.name != g.home.name ==> t[g.away.name] == g.away.score.value
    ensures forall name :: name != g.away.name && name != g.home.name ==>
              (name in t <==> name in table) && (name in table ==> t[name] == table[name])
  {
    if Counted(g) then table[g.away.name := g.away.score.value][g.home.name := g.home.score.value]
    else table
  }

  /** The table after visiting `games` in order, starting from `{}`. */
  function ScoresOf(games: seq<Game>): (r: Scores)
    ensures |r.Keys| <= 2 * |games|
  {
    if games == [] then map[]
    else
      var g := games[|games| - 1];
      var before := ScoresOf(games[..|games| - 1]);
      VisitKeys(before, g);
      Visit(before, g)
  }

  /** Visiting a game adds at most its two team names. */
  lemma VisitKeys(table: Scores, g: Game)
    ensures |Visit(table, g).Keys| <= |table.Keys| + 2
  {
    var t := Visit(table, g);
    assert t.Keys <= table.Keys + {g.away.name, g.home.name};
    assert |{g.away.name, g.home.name}| <= 2;
  }

  /** `fetchMLBScores()` at time `now`, the schedule endpoint answering
      `reply`. Returns the URL requested and the table. */
  method FetchMLBScores(now: int, reply: FetchReply<ScheduleResponse>)
    returns (url: string, scores: Scores)
    ensures url == ScoresUrl(now)
    ensures !reply.IsOk() ==> scores == map[]
    ensures reply.IsOk() ==> scores == ScoresOf(ScheduleGames(reply.body))
  {
    url := ScoresUrl(now);
    scores := map[];
    if !reply.IsOk() {
      return;
    }
    var dates := DatesOf(reply.body);
    for i := 0 to |dates|
      invariant scores == ScoresOf(Flatten(dates[..i]))
    {
      var games := GamesOf(dates[i]);
      ghost var done := Flatten(dates[..i]);
      ScoresPrefix(done, games, 0);
      for j := 0 to |games|
        invariant scores == ScoresOf(done + games[..j])
      {
        var away := games[j].away;
        var home := games[j].home;
        if away.score.Some? && home.score.Some? {
          scores := scores[away.name := away.score.value];
          scores := scores[home.name := home.score.value];
        }
        ScoresPrefix(done, games, j + 1);
      }
      FlattenStep(dates, i);
      assert games[..|games|] == games;
    }
    assert dates[..|dates|] == dates;
  }

  /** Visiting one more game of `games` after `done`. */
  lemma ScoresPrefix(done: seq<Game>, games: seq<Game>, j: nat)
    requires j <= |games|
    ensures j == 0 ==> ScoresOf(done + games[..j]) == ScoresOf(done)
    ensures j > 0 ==> ScoresOf(done + games[..j]) == Visit(ScoresOf(done + games[..j - 1]), games[j - 1])
  {
    if j == 0 {
      assert done + games[..j] == done;
    } else {
      assert (done + games[..j])[..|done + games[..j]| - 1] == done + games[..j - 1];
    }
  }

  lemma ScoresStep(games: seq<Game>, g: Game)
    ensures ScoresOf(games + [g]) == Visit(ScoresOf(games), g)
  {
    assert (games + [g])[..|games|] == games;
  }

  lemma FlattenStep(dates: seq<ScheduleDate>, i: nat)
    requires i < |dates|
    ensures Flatten(dates[..i + 1]) == Flatten(dates[..i]) + GamesOf(dates[i])
  {
    assert dates[..i + 1][..i] == dates[..i];
  }

  /** A game is among the games of a schedule exactly when some `dates`
      entry lists it; entries without `games`, and a response without
      `dates`, contribute no games and no error. */
  lemma {:induction false} FlattenContents(dates: seq<ScheduleDate>, g: Game)
    ensures g in Flatten(dates) <==>
              exists i :: 0 <= i < |dates| && dates[i].games.Some? && g in dates[i].games.value
  {
    if dates != [] {
      var n := |dates| - 1;
      FlattenContents(dates[..n], g);
      if g in Flatten(dates[..n]) {
        var i :| 0 <= i < n && dates[..n][i].games.Some? && g in dates[..n][i].games.value;
        assert dates[i] == dates[..n][i];
      }
      if exists i :: 0 <= i < |dates| && dates[i].games.Some? && g in dates[i].games.value {
        var i :| 0 <= i < |dates| && dates[i].games.Some? && g in dates[i].games.value;
        if i < n {
          assert dates[..n][i] == dates[i];
        }
      }
    }
  }

  /** Game `i` is the last counted game in which team `name` plays. */
  ghost predicate LastCountedGame(games: seq<Game>, name: string, i: int) {
    0 <= i < |games| && Counted(games[i]) && Plays(games[i], name)
    && forall j :: i < j < |games| && Counted(games[j]) ==> !Plays(games[j], name)
  }

  /** The table holds exactly the teams of the counted games, each with its
      score in the last counted game it plays in. */
  lemma {:induction false} ScoresContents(games: seq<Game>, name: string)
    ensures name in ScoresOf(games) <==>
              exists i :: 0 <= i < |games| && Counted(games[i]) && Plays(games[i], name)
    ensures name in ScoresOf(games) ==>
              exists i :: LastCountedGame(games, name, i) && ScoresOf(games)[name] == ScoreIn(games[i], name)
  {
    if games != [] {
      var n := |games| - 1;
      var init := games[..n];
      var g := games[n];
      ScoresContents(init, name);
      assert games == init + [g];
      ScoresStep(init, g);
      if Counted(g) && Plays(g, name) {
        assert LastCountedGame(games, name, n);
      } else if name in ScoresOf(init) {
        var i :| LastCountedGame(init, name, i) && ScoresOf(init)[name] == ScoreIn(init[i], name);
        assert games[i] == init[i];
        assert LastCountedGame(games, name, i);
      } else {
        forall i | 0 <= i < |games| && Counted(games[i]) ensures !Plays(games[i], name) {
          if i < n { assert init[i] == games[i]; }
        }
      }
    }
  }

  /** A game without both scores changes nothing, wherever it appears. */
  lemma {:induction false} UncountedGameIgnored(before: seq<Game>, g: Game, after: seq<Game>)
    requires !Counted(g)
    ensures ScoresOf(before + [g] + after) == ScoresOf(before + after)
  {
    if after == [] {
      assert before + [g] + after == before + [g];
      assert before + after == before;
      ScoresStep(before, g);
    } else {
      var n := |after| - 1;
      UncountedGameIgnored(before, g, after[..n]);
      assert before + [g] + after == (before + [g] + after[..n]) + [after[n]];
      assert before + after == (before + after[..n]) + [after[n]];
      ScoresStep(before + [g] + after[..n], after[n]);
      ScoresStep(before + after[..n], after[n]);
    }
  }

  /** The last game, when counted, sets its home team to the home score and
      its away team to the away score (unless both sides share a name). */
  lemma CountedGameScores(games: seq<Game>, g: Game)
    requires Counted(g)
    ensures g.home.name in ScoresOf(games + [g]) && ScoresOf(games + [g])[g.home.name] == g.home.score.value
    ensures g.away.name in ScoresOf(games + [g])
    ensures g.away.name != g.home.name ==> ScoresOf(games + [g])[g.away.name] == g.away.score.value
  {
    ScoresStep(games, g);
  }
}
