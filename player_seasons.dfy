/** A player's season aggregate (PlayerSeasonStats): integer totals, and averages recomputed from
    the totals after every game. */
module PlayerSeasons {
  import opened Outcomes
  import opened GameRecords
  import Decimals

  datatype PlayerSeasonStats = PlayerSeasonStats(
    playerId: string, season: string, gamesPlayed: int, totals: BoxScore, totalMinutesTenths: int,
    averages: BoxAverages, avgMinutesTenths: int)

  /** Every average is its total over the games played; the average minutes are that quotient
      rounded HALF_UP to one decimal. */
  predicate AveragesMatchTotals(s: PlayerSeasonStats)
  {
    && s.gamesPlayed != 0
    && s.averages == MeanOf(s.totals, s.gamesPlayed)
    && s.avgMinutesTenths == Decimals.RoundHalfUpDiv(s.totalMinutesTenths, s.gamesPlayed)
  }

  /** The aggregate of a single game: one game played, every total and average that game's value. */
  function FromFirstGame(g: PlayerGameStats): (s: PlayerSeasonStats)
    ensures s.playerId == g.playerId && s.season == g.season && s.gamesPlayed == 1
    ensures s.totals == g.box && s.totalMinutesTenths == g.minutesTenths
    ensures AveragesMatchTotals(s)
  {
    var b := g.box;
    PlayerSeasonStats(
      g.playerId, g.season, 1, b, g.minutesTenths,
      BoxAverages(b.points as real, b.rebounds as real, b.assists as real, b.steals as real,
                  b.blocks as real, b.fouls as real, b.turnovers as real),
      g.minutesTenths)
  }

  /** Folds one more game of the same player and season into the aggregate. */
  function WithNewGame(s: PlayerSeasonStats, g: PlayerGameStats): (r: Result<PlayerSeasonStats>)
    ensures g.playerId != s.playerId ==> r == Err(IllegalArgument(PlayerIdMismatch))
    ensures g.playerId == s.playerId && g.season != s.season ==> r == Err(IllegalArgument(SeasonMismatch))
    ensures g.playerId == s.playerId && g.season == s.season && s.gamesPlayed + 1 == 0 ==> r == Err(ArithmeticError)
    ensures r.Ok? <==> g.playerId == s.playerId && g.season == s.season && s.gamesPlayed + 1 != 0
    ensures r.Ok? ==> var n := r.value;
      && n.playerId == s.playerId && n.season == s.season && n.gamesPlayed == s.gamesPlayed + 1
      && n.totals == Plus(s.totals, g.box) && n.totalMinutesTenths == s.totalMinutesTenths + g.minutesTenths
      && AveragesMatchTotals(n)
  {
    if g.playerId != s.playerId then Err(IllegalArgument(PlayerIdMismatch))
    else if g.season != s.season then Err(IllegalArgument(SeasonMismatch))
    else
      var games := s.gamesPlayed + 1;
      var totals := Plus(s.totals, g.box);
      var minutes := s.totalMinutesTenths + g.minutesTenths;
      if games == 0 then Err(ArithmeticError)
      else Ok(PlayerSeasonStats(s.playerId, s.season, games, totals, minutes, MeanOf(totals, games),
                                Decimals.RoundHalfUpDiv(minutes, games)))
  }

  /** The new averages depend on the totals alone, not on the averages held before. */
  lemma WithNewGameIgnoresOldAverages(s: PlayerSeasonStats, g: PlayerGameStats, a: BoxAverages, m: int)
    ensures WithNewGame(s, g) == WithNewGame(s.(averages := a, avgMinutesTenths := m), g)
  {
  }

  /** The aggregate of a season's games in order: the first game, then each later one folded in. */
  function SeasonOf(games: seq<PlayerGameStats>): Result<PlayerSeasonStats>
    requires |games| >= 1
  {
    if |games| == 1 then Ok(FromFirstGame(games[0]))
    else
      match SeasonOf(games[..|games| - 1])
      case Err(e) => Err(e)
      case Ok(s) => WithNewGame(s, games[|games| - 1])
  }

  function SumMinutes(games: seq<PlayerGameStats>): int
  {
    if |games| == 0 then 0 else SumMinutes(games[..|games| - 1]) + games[|games| - 1].minutesTenths
  }

  predicate AllOf(games: seq<PlayerGameStats>, playerId: string, season: string)
  {
    forall i :: 0 <= i < |games| ==> games[i].playerId == playerId && games[i].season == season
  }

  /** N games of one player and season give N games played, per-field sums as totals and
      sum / N as averages. */
  lemma {:induction false} SeasonOfSums(games: seq<PlayerGameStats>)
    requires |games| >= 1 && AllOf(games, games[0].playerId, games[0].season)
    ensures SeasonOf(games).Ok?
    ensures var s := SeasonOf(games).value;
      && s.playerId == games[0].playerId && s.season == games[0].season
      && s.gamesPlayed == |games| && s.totals == SumBox(games) && s.totalMinutesTenths == SumMinutes(games)
      && s.averages == MeanOf(SumBox(games), |games|)
      && s.avgMinutesTenths == Decimals.RoundHalfUpDiv(SumMinutes(games), |games|)
  {
    var n := |games|;
    if n == 1 {
      assert games[..0] == [];
    } else {
      var prefix := games[..n - 1];
      assert prefix[0] == games[0];
      assert AllOf(prefix, games[0].playerId, games[0].season);
      SeasonOfSums(prefix);
    }
  }

  /** Two games averaging 25 points and 30.0 minutes, then a third with 20 points and 30.0 minutes. */
  lemma ThirdGameExample(g: PlayerGameStats)
    requires g.playerId == "player123" && g.season == "2023-24"
    requires g.box == BoxScore(20, 10, 5, 2, 1, 4, 3) && g.minutesTenths == 300
    ensures var s := PlayerSeasonStats("player123", "2023-24", 2, BoxScore(50, 30, 10, 5, 2, 8, 6), 600,
                                       BoxAverages(25.0, 15.0, 5.0, 2.5, 1.0, 4.0, 3.0), 300);
      var r := WithNewGame(s, g);
      && r.Ok? && r.value.gamesPlayed == 3
      && r.value.totals == BoxScore(70, 40, 15, 7, 3, 12, 9) && r.value.totalMinutesTenths == 900
      && r.value.averages.points == 70.0 / 3.0 && r.value.averages.assists == 5.0
      && r.value.avgMinutesTenths == 300
  {
  }
}
