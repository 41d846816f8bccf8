/** A team's season aggregate (TeamSeasonStats): running averages only, updated with the
    incremental-mean formula. */
module TeamSeasons {
  import opened Outcomes
  import opened GameRecords

  datatype Team = Team(id: string, name: string)

  datatype TeamSeasonStats = TeamSeasonStats(
    team: Team, season: string, totalGamesPlayed: int, averages: BoxAverages)

  /** The averages of a single game: each raw count. */
  function FromFirstGame(g: PlayerGameStats, team: Team): (s: TeamSeasonStats)
    ensures s.team == team && s.season == g.season && s.totalGamesPlayed == 1
    ensures s.averages == MeanOf(g.box, 1)
  {
    var b := g.box;
    TeamSeasonStats(team, g.season, 1,
      BoxAverages(b.points as real, b.rebounds as real, b.assists as real, b.steals as real,
                  b.blocks as real, b.fouls as real, b.turnovers as real))
  }

  /** The mean of n values, given the mean of the first n - 1 and the n-th value. */
  function UpdateAverage(currentAverage: real, newValue: int, newTotalGames: int): (r: real)
    requires newTotalGames != 0
    ensures newTotalGames >= 1 && currentAverage <= newValue as real ==> currentAverage <= r <= newValue as real
    ensures newTotalGames >= 1 && newValue as real <= currentAverage ==> newValue as real <= r <= currentAverage
  {
    var r := (currentAverage * (newTotalGames - 1) as real + newValue as real) / newTotalGames as real;
    MeanStepBetween(currentAverage, newValue as real, newTotalGames as real);
    r
  }

  /** One step of a running mean moves the mean towards the new value without passing it. */
  lemma MeanStepBetween(c: real, v: real, n: real)
    requires n != 0.0
    ensures var r := (c * (n - 1.0) + v) / n;
      && (n >= 1.0 && c <= v ==> c <= r <= v)
      && (n >= 1.0 && v <= c ==> v <= r <= c)
  {
    var d := (v - c) / n;
    assert d * n == v - c;
    var x := c * (n - 1.0) + v;
    assert x == (c + d) * n;
    assert ((c + d) * n) / n == c + d;
    assert x / n == c + d;
    if n >= 1.0 {
      if c <= v {
        assert d >= 0.0;
        assert d <= d * n;
      } else {
        assert d < 0.0;
        assert d * n <= d;
      }
    }
  }

  function UpdateAverages(a: BoxAverages, b: BoxScore, n: int): BoxAverages
    requires n != 0
  {
    BoxAverages(UpdateAverage(a.points, b.points, n), UpdateAverage(a.rebounds, b.rebounds, n),
                UpdateAverage(a.assists, b.assists, n), UpdateAverage(a.steals, b.steals, n),
                UpdateAverage(a.blocks, b.blocks, n), UpdateAverage(a.fouls, b.fouls, n),
                UpdateAverage(a.turnovers, b.turnovers, n))
  }

  /** Folds one more game of the same team and season into the averages. */
  function WithNewGame(s: TeamSeasonStats, g: PlayerGameStats): (r: Result<TeamSeasonStats>)
    requires s.team.id == g.teamId && s.season == g.season ==> s.totalGamesPlayed + 1 != 0
    ensures s.team.id != g.teamId ==> r == Err(IllegalArgument(TeamIdMismatch))
    ensures s.team.id == g.teamId && s.season != g.season ==> r == Err(IllegalArgument(SeasonMismatch))
    ensures r.Ok? <==> s.team.id == g.teamId && s.season == g.season
    ensures r.Ok? ==> r.value.team == s.team && r.value.season == s.season
                      && r.value.totalGamesPlayed == s.totalGamesPlayed + 1
  {
    if s.team.id != g.teamId then Err(IllegalArgument(TeamIdMismatch))
    else if s.season != g.season then Err(IllegalArgument(SeasonMismatch))
    else
      var n := s.totalGamesPlayed + 1;
      Ok(TeamSeasonStats(s.team, s.season, n, UpdateAverages(s.averages, g.box, n)))
  }

  /** Running-mean invariant: an average of n - 1 values that sum to total becomes, after the
      update, the average of n values that sum to total + v. */
  lemma RunningMean(total: int, v: int, n: int)
    requires n >= 2
    ensures UpdateAverage(total as real / (n - 1) as real, v, n) == (total + v) as real / n as real
  {
    var m := (n - 1) as real;
    assert (total as real / m) * m == total as real;
  }

  lemma RunningMeans(total: BoxScore, b: BoxScore, n: int)
    requires n >= 2
    ensures UpdateAverages(MeanOf(total, n - 1), b, n) == MeanOf(Plus(total, b), n)
  {
    RunningMean(total.points, b.points, n);
    RunningMean(total.rebounds, b.rebounds, n);
    RunningMean(total.assists, b.assists, n);
    RunningMean(total.steals, b.steals, n);
    RunningMean(total.blocks, b.blocks, n);
    RunningMean(total.fouls, b.fouls, n);
    RunningMean(total.turnovers, b.turnovers, n);
  }

  /** Non-negative averages and values keep the new average non-negative. */
  lemma UpdateAverageNonNegative(currentAverage: real, newValue: int, newTotalGames: int)
    requires currentAverage >= 0.0 && newValue >= 0 && newTotalGames >= 1
    ensures UpdateAverage(currentAverage, newValue, newTotalGames) >= 0.0
  {
  }

  /** The aggregate of a team's season games in order. */
  function TeamSeasonOf(team: Team, games: seq<PlayerGameStats>): (r: Result<TeamSeasonStats>)
    requires |games| >= 1
    requires forall i :: 0 <= i < |games| ==> games[i].teamId == team.id && games[i].season == games[0].season
    ensures r.Ok? ==> r.value.totalGamesPlayed == |games|
  {
    if |games| == 1 then Ok(FromFirstGame(games[0], team))
    else
      match TeamSeasonOf(team, games[..|games| - 1])
      case Err(e) => Err(e)
      case Ok(s) => WithNewGame(s, games[|games| - 1])
  }

  /** Folding N games of one team and season gives N games and, in exact arithmetic, each
      average equal to the per-field sum over N. */
  lemma {:induction false} TeamSeasonOfMeans(team: Team, games: seq<PlayerGameStats>)
    requires |games| >= 1
    requires forall i :: 0 <= i < |games| ==> games[i].teamId == team.id && games[i].season == games[0].season
    ensures TeamSeasonOf(team, games).Ok?
    ensures var s := TeamSeasonOf(team, games).value;
      && s.team == team && s.season == games[0].season && s.totalGamesPlayed == |games|
      && s.averages == MeanOf(SumBox(games), |games|)
  {
    var n := |games|;
    if n == 1 {
      assert games[..0] == [];
      assert MeanOf(Plus(Zero, games[0].box), 1) == MeanOf(games[0].box, 1);
    } else {
      var prefix := games[..n - 1];
      assert prefix[0] == games[0];
      TeamSeasonOfMeans(team, prefix);
      RunningMeans(SumBox(prefix), games[n - 1].box, n);
    }
  }

  /** A one-game aggregate of 100 points folded with a 110-point game averages 105. */
  lemma SecondGameExample(g: PlayerGameStats)
    requires g.teamId == "team1" && g.season == "2023" && g.box == BoxScore(110, 55, 30, 12, 6, 16, 7)
    ensures var s := TeamSeasonStats(Team("team1", "Team One"), "2023", 1,
                                     BoxAverages(100.0, 50.0, 25.0, 10.0, 5.0, 15.0, 8.0));
      WithNewGame(s, g) == Ok(TeamSeasonStats(Team("team1", "Team One"), "2023", 2,
                                              BoxAverages(105.0, 52.5, 27.5, 11.0, 5.5, 15.5, 7.5)))
  {
  }
}
