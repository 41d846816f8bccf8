/** The record-game pipelines: the player step (game write, season lookup, season write) and the
    team step (roster lookup, team aggregate write) that runs after it. Each pipeline is first a
    function over the stores' maps, then a method over the store objects proved equal to it. */
module Services {
  import opened Outcomes
  import opened GameRecords
  import PlayerSeasons
  import TeamSeasons
  import Keys
  import opened Stores

  /** Repository writes that report an error, as the tests inject through mocks. The in-memory
      stores themselves never fail. */
  datatype Faults = Faults(gameWriteFails: bool, seasonWriteFails: bool)

  const NoFaults := Faults(false, false)

  datatype PlayerStores = PlayerStores(
    games: map<string, PlayerGameStats>, seasons: map<string, PlayerSeasons.PlayerSeasonStats>)

  datatype AllStores = AllStores(
    games: map<string, PlayerGameStats>, seasons: map<string, PlayerSeasons.PlayerSeasonStats>,
    teams: map<string, TeamSeasons.TeamSeasonStats>)

  /** The aggregate the player step would write: the stored one with the game folded in, or a
      new one from this first game. */
  function SeasonStep(seasons: map<string, PlayerSeasons.PlayerSeasonStats>, g: PlayerGameStats)
    : (r: Result<PlayerSeasons.PlayerSeasonStats>)
    ensures r.Ok? ==> r.value.playerId == g.playerId && r.value.season == g.season
                      && PlayerSeasons.AveragesMatchTotals(r.value)
    ensures SeasonKey(g.playerId, g.season) !in seasons ==> r.Ok? && r.value.gamesPlayed == 1
    ensures r.Err? ==> r.error.IllegalArgument? || r.error == ArithmeticError
  {
    var key := SeasonKey(g.playerId, g.season);
    if key in seasons then PlayerSeasons.WithNewGame(seasons[key], g)
    else Ok(PlayerSeasons.FromFirstGame(g))
  }

  /** savePlayerStatistics: write the game, then create or update the season aggregate, and emit
      the game itself. */
  function RecordPlayerGame(st: PlayerStores, game: Option<PlayerGameStats>, faults: Faults)
    : (out: (Mono<PlayerGameStats>, PlayerStores))
    ensures st.games.Keys <= out.1.games.Keys && st.seasons.Keys <= out.1.seasons.Keys
    ensures forall k :: k in out.1.games && k !in st.games ==> game.Some? && k == GameKey(game.value)
    ensures forall k :: k in out.1.seasons && k !in st.seasons ==>
              game.Some? && k == SeasonKey(game.value.playerId, game.value.season)
    ensures GamesKeyed(st.games) ==> GamesKeyed(out.1.games)
    ensures SeasonsKeyed(st.seasons) ==> SeasonsKeyed(out.1.seasons)
  {
    match game
    case None => (Empty, st)
    case Some(g) =>
      if faults.gameWriteFails then (Error(StoreFailure), st)
      else
        var games := st.games[GameKey(g) := g];
        match SeasonStep(st.seasons, g)
        case Err(e) => (Error(e), PlayerStores(games, st.seasons))
        case Ok(s) =>
          if faults.seasonWriteFails then (Error(StoreFailure), PlayerStores(games, st.seasons))
          else (Just(g), PlayerStores(games, st.seasons[SeasonKey(s.playerId, s.season) := s]))
  }

  /** Every stored team aggregate has a non-negative game count. Aggregates built by
      fromFirstGame and withNewGame always do. */
  predicate CountsNonNegative(teams: map<string, TeamSeasons.TeamSeasonStats>)
  {
    forall k :: k in teams ==> teams[k].totalGamesPlayed >= 0
  }

  /** The roster maps each team id to the team of that id. */
  predicate RosterKeyedById(roster: map<string, TeamSeasons.Team>)
  {
    forall id :: id in roster ==> roster[id].id == id
  }

  /** updateTeamStatistics: resolve the team, then create or update its season aggregate. */
  function TeamStep(teams: map<string, TeamSeasons.TeamSeasonStats>, roster: map<string, TeamSeasons.Team>,
                    g: PlayerGameStats): (out: (Result<TeamSeasons.TeamSeasonStats>, map<string, TeamSeasons.TeamSeasonStats>))
    requires CountsNonNegative(teams)
    ensures CountsNonNegative(out.1)
    ensures TeamsKeyed(teams) ==> TeamsKeyed(out.1)
    ensures out.0.Err? ==> out.1 == teams
    ensures out.0.Ok? ==> out.0.value.totalGamesPlayed >= 1
                          && out.1 == teams[TeamKey(out.0.value.team.id, out.0.value.season) := out.0.value]
  {
    if g.teamId !in roster then (Err(IllegalState("Team not found for ID: " + g.teamId)), teams)
    else
      var key := TeamKey(g.teamId, g.season);
      var next := if key in teams then TeamSeasons.WithNewGame(teams[key], g)
                  else Ok(TeamSeasons.FromFirstGame(g, roster[g.teamId]));
      match next
      case Err(e) => (Err(e), teams)
      case Ok(t) => (Ok(t), teams[TeamKey(t.team.id, t.season) := t])
  }

  /** saveGameStatistics: the player step, then, only if it emitted the game, the team step. */
  function RecordGame(st: AllStores, roster: map<string, TeamSeasons.Team>, game: Option<PlayerGameStats>,
                      faults: Faults): (out: (Mono<PlayerGameStats>, AllStores))
    requires CountsNonNegative(st.teams)
    ensures CountsNonNegative(out.1.teams)
  {
    var (reply, ps) := RecordPlayerGame(PlayerStores(st.games, st.seasons), game, faults);
    if !reply.Just? then (reply, AllStores(ps.games, ps.seasons, st.teams))
    else
      var (team, teams) := TeamStep(st.teams, roster, reply.value);
      (if team.Ok? then reply else Error(team.error), AllStores(ps.games, ps.seasons, teams))
  }

  // ---------------------------------------------------------------------------------------------
  // Properties of the player step

  /** The player step emits the game it was given, and does so exactly when both writes went
      through and the fold did not throw. */
  lemma RecordPlayerGameEmitsTheGame(st: PlayerStores, game: Option<PlayerGameStats>, faults: Faults)
    ensures var (reply, _) := RecordPlayerGame(st, game, faults);
      && (reply.Just? ==> game == Some(reply.value))
      && (reply.Just? <==> game.Some? && !faults.gameWriteFails && !faults.seasonWriteFails
                           && SeasonStep(st.seasons, game.value).Ok?)
      && (reply.Empty? <==> game.None?)
  {
  }

  /** The game is written first: when that write fails nothing changes, and once it succeeds the
      game stays written whatever the season step does. */
  lemma GameWrittenFirst(st: PlayerStores, g: PlayerGameStats, faults: Faults)
    ensures var (reply, after) := RecordPlayerGame(st, Some(g), faults);
      && (faults.gameWriteFails ==> reply == Error(StoreFailure) && after == st)
      && (!faults.gameWriteFails ==> after.games == st.games[GameKey(g) := g])
      && (reply.Error? ==> after.seasons == st.seasons)
  {
  }

  /** A successful player step leaves the game counted once more at its (player, season) key,
      or once when there was no aggregate, and changes no other aggregate. */
  lemma RecordPlayerGameCounts(st: PlayerStores, g: PlayerGameStats, faults: Faults)
    requires RecordPlayerGame(st, Some(g), faults).0.Just?
    ensures var after := RecordPlayerGame(st, Some(g), faults).1;
      var key := SeasonKey(g.playerId, g.season);
      && key in after.seasons
      && after.seasons[key].gamesPlayed == (if key in st.seasons then st.seasons[key].gamesPlayed + 1 else 1)
      && after.seasons[key].totals == Plus(if key in st.seasons then st.seasons[key].totals else Zero, g.box)
      && PlayerSeasons.AveragesMatchTotals(after.seasons[key])
      && (forall k :: k != key ==> (k in after.seasons <==> k in st.seasons))
      && (forall k :: k != key && k in st.seasons ==> after.seasons[k] == st.seasons[k])
  {
    var key := SeasonKey(g.playerId, g.season);
    assert Plus(Zero, g.box) == g.box;
    if key in st.seasons {
      var e := st.seasons[key];
      assert e.playerId == g.playerId && e.season == g.season;
    }
  }

  /** With separator-free identifiers in the game and non-negative stored counts, the fold never
      throws. */
  lemma SeasonStepSucceeds(seasons: map<string, PlayerSeasons.PlayerSeasonStats>, g: PlayerGameStats)
    requires SeasonsKeyed(seasons)
    requires forall k :: k in seasons ==> seasons[k].gamesPlayed >= 0
    requires Keys.SeparatorFree([g.playerId, g.season])
    ensures SeasonStep(seasons, g).Ok?
  {
    SeasonKeyNamesAggregate(seasons, g.playerId, g.season);
  }

  /** Without escaping, an aggregate of player "a" in season "b:c" sits where a game of player
      "a:b" in season "c" looks: recording that game writes it and then throws. */
  lemma SeasonCollisionThrows(g: PlayerGameStats, e: PlayerSeasons.PlayerSeasonStats)
    requires g.playerId == "a:b" && g.season == "c" && e.playerId == "a" && e.season == "b:c"
    ensures var st := PlayerStores(map[], map[SeasonKey(e.playerId, e.season) := e]);
      var (reply, after) := RecordPlayerGame(st, Some(g), NoFaults);
      && reply == Error(IllegalArgument(PlayerIdMismatch))
      && after.games == map[GameKey(g) := g] && after.seasons == st.seasons
  {
    Keys.KeyCollisions();
  }

  // ---------------------------------------------------------------------------------------------
  // Properties of the composite flow

  /** The team step runs only after the player step emitted the game; otherwise the team store is
      untouched and the player step's outcome is the result. */
  lemma PlayerStepFirst(st: AllStores, roster: map<string, TeamSeasons.Team>, game: Option<PlayerGameStats>,
                        faults: Faults)
    requires CountsNonNegative(st.teams)
    ensures var (player, ps) := RecordPlayerGame(PlayerStores(st.games, st.seasons), game, faults);
      var (reply, after) := RecordGame(st, roster, game, faults);
      && after.games == ps.games && after.seasons == ps.seasons
      && (!player.Just? ==> reply == player && after.teams == st.teams)
      && (player.Just? ==> reply == player || reply.Error?)
  {
  }

  /** An unknown team fails the flow with "Team not found for ID: <teamId>" and writes no team
      aggregate, while the player-side writes remain. */
  lemma UnknownTeamFails(st: AllStores, roster: map<string, TeamSeasons.Team>, g: PlayerGameStats)
    requires CountsNonNegative(st.teams) && g.teamId !in roster
    requires RecordPlayerGame(PlayerStores(st.games, st.seasons), Some(g), NoFaults).0.Just?
    ensures var (reply, after) := RecordGame(st, roster, Some(g), NoFaults);
      && reply == Error(IllegalState("Team not found for ID: " + g.teamId))
      && after.teams == st.teams
      && after.games == st.games[GameKey(g) := g]
      && SeasonKey(g.playerId, g.season) in after.seasons
  {
    RecordPlayerGameCounts(PlayerStores(st.games, st.seasons), g, NoFaults);
  }

  /** With a known team, the flow emits the game and stores fromFirstGame(game, team) when the
      team has no aggregate for the season, or existing.withNewGame(game) when it has. */
  lemma TeamAggregateWritten(st: AllStores, roster: map<string, TeamSeasons.Team>, g: PlayerGameStats)
    requires CountsNonNegative(st.teams) && RosterKeyedById(roster) && g.teamId in roster
    requires RecordPlayerGame(PlayerStores(st.games, st.seasons), Some(g), NoFaults).0.Just?
    ensures var key := TeamKey(g.teamId, g.season);
      var (reply, after) := RecordGame(st, roster, Some(g), NoFaults);
      && (key !in st.teams ==>
            reply == Just(g) && after.teams == st.teams[key := TeamSeasons.FromFirstGame(g, roster[g.teamId])])
      && (key in st.teams && TeamSeasons.WithNewGame(st.teams[key], g).Ok? ==>
            reply == Just(g) && after.teams == st.teams[key := TeamSeasons.WithNewGame(st.teams[key], g).value])
  {
  }

  /** Every recorded player-game adds one to its team's game count, whatever its gameId: two
      player-games recorded for one team and season raise the count by two. */
  lemma TeamCountsEveryPlayerGame(st: AllStores, roster: map<string, TeamSeasons.Team>,
                                  g1: PlayerGameStats, g2: PlayerGameStats)
    requires CountsNonNegative(st.teams) && RosterKeyedById(roster)
    requires g1.teamId == g2.teamId && g1.season == g2.season
    requires RecordGame(st, roster, Some(g1), NoFaults).0.Just?
    requires RecordGame(RecordGame(st, roster, Some(g1), NoFaults).1, roster, Some(g2), NoFaults).0.Just?
    ensures var key := TeamKey(g1.teamId, g1.season);
      var after := RecordGame(RecordGame(st, roster, Some(g1), NoFaults).1, roster, Some(g2), NoFaults).1;
      && key in after.teams
      && after.teams[key].totalGamesPlayed == (if key in st.teams then st.teams[key].totalGamesPlayed + 2 else 2)
  {
    var key := TeamKey(g1.teamId, g1.season);
    var mid := RecordGame(st, roster, Some(g1), NoFaults).1;
    TeamStepCounts(st.teams, roster, g1);
    TeamStepCounts(mid.teams, roster, g2);
  }

  /** A successful team step counts the game once more at the game's (team, season) key. */
  lemma TeamStepCounts(teams: map<string, TeamSeasons.TeamSeasonStats>, roster: map<string, TeamSeasons.Team>,
                       g: PlayerGameStats)
    requires CountsNonNegative(teams) && RosterKeyedById(roster)
    requires TeamStep(teams, roster, g).0.Ok?
    ensures var key := TeamKey(g.teamId, g.season);
      var after := TeamStep(teams, roster, g).1;
      && key in after
      && after[key].totalGamesPlayed == (if key in teams then teams[key].totalGamesPlayed + 1 else 1)
  {
  }

  // ---------------------------------------------------------------------------------------------
  // The services over the store objects

  /** PlayerStatisticsServiceImpl. */
  class PlayerStatisticsService {
    const gameStore: GameStore
    const seasonStore: PlayerSeasonStore

    constructor (gameStore: GameStore, seasonStore: PlayerSeasonStore)
      ensures this.gameStore == gameStore && this.seasonStore == seasonStore
    {
      this.gameStore := gameStore;
      this.seasonStore := seasonStore;
    }

    method SavePlayerStatistics(game: Option<PlayerGameStats>, faults: Faults) returns (r: Mono<PlayerGameStats>)
      requires gameStore.Valid() && seasonStore.Valid()
      modifies gameStore, seasonStore
      ensures gameStore.Valid() && seasonStore.Valid()
      ensures (r, PlayerStores(gameStore.storage, seasonStore.storage))
              == RecordPlayerGame(PlayerStores(old(gameStore.storage), old(seasonStore.storage)), game, faults)
    {
      if game.None? {
        return Empty;
      }
      if faults.gameWriteFails {
        return Error(StoreFailure);
      }
      var saved := gameStore.Save(game);
      var g := saved.value;
      var existing := seasonStore.FindByPlayerIdAndSeason(g.playerId, g.season);
      var next := match existing
        case Some(e) => PlayerSeasons.WithNewGame(e, g)
        case None => Ok(PlayerSeasons.FromFirstGame(g));
      if next.Err? {
        return Error(next.error);
      }
      if faults.seasonWriteFails {
        return Error(StoreFailure);
      }
      var _ := seasonStore.Save(Some(next.value));
      r := Just(g);
    }

    /** A read of the season store, with no effect. */
    function GetPlayerSeasonStatistics(playerId: string, season: string): (r: Option<PlayerSeasons.PlayerSeasonStats>)
      reads seasonStore
      ensures r.Some? <==> SeasonKey(playerId, season) in seasonStore.storage
      ensures r.Some? ==> r.value == seasonStore.storage[SeasonKey(playerId, season)]
    {
      seasonStore.FindByPlayerIdAndSeason(playerId, season)
    }

    /** Every stored aggregate, one element per stored key. */
    method GetAllPlayerSeasonStatistics() returns (r: seq<PlayerSeasons.PlayerSeasonStats>, ghost keys: seq<string>)
      ensures |r| == |seasonStore.storage|
      ensures forall s :: s in r <==> s in seasonStore.storage.Values
      ensures |keys| == |r| && forall i, j :: 0 <= i < j < |keys| ==> keys[i] != keys[j]
      ensures forall i :: 0 <= i < |r| ==> keys[i] in seasonStore.storage && r[i] == seasonStore.storage[keys[i]]
    {
      r, keys := seasonStore.FindAll();
    }
  }

  /** GameStatisticsServiceImpl; the roster is the team map fixed at start-up. */
  class GameStatisticsService {
    const players: PlayerStatisticsService
    const teamStore: TeamSeasonStore
    const roster: map<string, TeamSeasons.Team>

    constructor (players: PlayerStatisticsService, teamStore: TeamSeasonStore, roster: map<string, TeamSeasons.Team>)
      ensures this.players == players && this.teamStore == teamStore && this.roster == roster
    {
      this.players := players;
      this.teamStore := teamStore;
      this.roster := roster;
    }

    method SaveGameStatistics(game: Option<PlayerGameStats>, faults: Faults) returns (r: Mono<PlayerGameStats>)
      requires players.gameStore.Valid() && players.seasonStore.Valid() && teamStore.Valid()
      requires CountsNonNegative(teamStore.storage)
      modifies players.gameStore, players.seasonStore, teamStore
      ensures players.gameStore.Valid() && players.seasonStore.Valid() && teamStore.Valid()
      ensures CountsNonNegative(teamStore.storage)
      ensures (r, AllStores(players.gameStore.storage, players.seasonStore.storage, teamStore.storage))
              == RecordGame(AllStores(old(players.gameStore.storage), old(players.seasonStore.storage),
                                      old(teamStore.storage)), roster, game, faults)
    {
      r := players.SavePlayerStatistics(game, faults);
      if !r.Just? {
        return;
      }
      var g := r.value;
      if g.teamId !in roster {
        return Error(IllegalState("Team not found for ID: " + g.teamId));
      }
      var existing := teamStore.FindByTeamId(g.teamId, g.season);
      var next := match existing
        case Some(e) => TeamSeasons.WithNewGame(e, g)
        case None => Ok(TeamSeasons.FromFirstGame(g, roster[g.teamId]));
      if next.Err? {
        return Error(next.error);
      }
      var _ := teamStore.Save(Some(next.value));
    }

    /** A read of the team store, with no effect. */
    function GetTeamSeasonStats(teamId: string, season: string): (r: Option<TeamSeasons.TeamSeasonStats>)
      reads teamStore
      ensures r.Some? <==> TeamKey(teamId, season) in teamStore.storage
      ensures r.Some? ==> r.value == teamStore.storage[TeamKey(teamId, season)]
    {
      teamStore.FindByTeamId(teamId, season)
    }
  }
}
