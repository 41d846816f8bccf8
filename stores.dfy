/** The in-memory repositories: each holds a map from a generated key to a record and upserts on
    save. */
module Stores {
  import opened Outcomes
  import opened GameRecords
  import PlayerSeasons
  import TeamSeasons
  import Keys

  /** A key of two components is never a key of one: it is longer than its first component. */
  lemma PairKeyLonger(a: string, b: string)
    ensures |Keys.GenerateKey([a, b])| == |a| + |b| + 1
  {
    assert Keys.TotalLength([a, b]) == |a| + Keys.TotalLength([b]);
  }

  /** The key of a game record: its player and its game. */
  function GameKey(g: PlayerGameStats): string
  {
    Keys.GenerateKey([g.playerId, g.gameId])
  }

  /** The key of a season aggregate: its player and its season. */
  function SeasonKey(playerId: string, season: string): string
  {
    Keys.GenerateKey([playerId, season])
  }

  /** The key of a team aggregate: its team and its season. */
  function TeamKey(teamId: string, season: string): string
  {
    Keys.GenerateKey([teamId, season])
  }

  /** Every game record sits under the key of its own player and game. */
  predicate GamesKeyed(games: map<string, PlayerGameStats>)
  {
    forall k :: k in games ==> k == GameKey(games[k])
  }

  /** Every season aggregate sits under the key of its own player and season. */
  predicate SeasonsKeyed(seasons: map<string, PlayerSeasons.PlayerSeasonStats>)
  {
    forall k :: k in seasons ==> k == SeasonKey(seasons[k].playerId, seasons[k].season)
  }

  /** Every team aggregate sits under the key of its own team and season. */
  predicate TeamsKeyed(teams: map<string, TeamSeasons.TeamSeasonStats>)
  {
    forall k :: k in teams ==> k == TeamKey(teams[k].team.id, teams[k].season)
  }

  /** In a keyed season map, the aggregate under the key of separator-free identifiers has those
      identifiers, whatever the identifiers of the other aggregates. */
  lemma SeasonKeyNamesAggregate(seasons: map<string, PlayerSeasons.PlayerSeasonStats>, playerId: string,
                                season: string)
    ensures SeasonsKeyed(seasons) && Keys.SeparatorFree([playerId, season]) && SeasonKey(playerId, season) in seasons
            ==> seasons[SeasonKey(playerId, season)].playerId == playerId
                && seasons[SeasonKey(playerId, season)].season == season
  {
    var key := SeasonKey(playerId, season);
    if SeasonsKeyed(seasons) && Keys.SeparatorFree([playerId, season]) && key in seasons {
      Keys.PairKeyUnique(playerId, season, seasons[key].playerId, seasons[key].season);
    }
  }

  /** The same for a keyed team map. */
  lemma TeamKeyNamesAggregate(teams: map<string, TeamSeasons.TeamSeasonStats>, teamId: string, season: string)
    ensures TeamsKeyed(teams) && Keys.SeparatorFree([teamId, season]) && TeamKey(teamId, season) in teams
            ==> teams[TeamKey(teamId, season)].team.id == teamId && teams[TeamKey(teamId, season)].season == season
  {
    var key := TeamKey(teamId, season);
    if TeamsKeyed(teams) && Keys.SeparatorFree([teamId, season]) && key in teams {
      Keys.PairKeyUnique(teamId, season, teams[key].team.id, teams[key].season);
    }
  }

  /** The per-game store (InMemoryPlayerStatisticsRepository). */
  class GameStore {
    var storage: map<string, PlayerGameStats>

    ghost predicate Valid()
      reads this
    {
      GamesKeyed(storage)
    }

    constructor ()
      ensures Valid() && storage == map[]
    {
      storage := map[];
    }

    /** Upserts a record under its (player, game) key; an absent record writes nothing and yields
        nothing. */
    method Save(stats: Option<PlayerGameStats>) returns (r: Option<PlayerGameStats>)
      requires Valid()
      modifies this
      ensures Valid() && r == stats
      ensures stats.None? ==> storage == old(storage)
      ensures stats.Some? ==>
        storage == old(storage)[GameKey(stats.value) := stats.value]
    {
      r := stats;
      if stats.Some? {
        var s := stats.value;
        storage := storage[GameKey(s) := s];
      }
    }

    /** Looks up the single-component key of a player. Every saved record sits under a
        two-component key, so no record of that player is ever found. */
    function FindByPlayerId(playerId: string): (r: Option<PlayerGameStats>)
      reads this
      ensures r.Some? <==> playerId in storage
      ensures r.Some? ==> r.value == storage[playerId]
      ensures Valid() && r.Some? ==> r.value.playerId != playerId
    {
      var key := Keys.GenerateKey([playerId]);
      if key in storage then
        var s := storage[key];
        PairKeyLonger(s.playerId, s.gameId);
        Some(s)
      else None
    }

    /** What a lookup by player evidently means: some stored game of that player, if there is one. */
    method FindAnyByPlayerId(playerId: string) returns (r: Option<PlayerGameStats>)
      ensures r.Some? ==> r.value in storage.Values && r.value.playerId == playerId
      ensures r.None? <==> forall k :: k in storage ==> storage[k].playerId != playerId
    {
      if k :| k in storage && storage[k].playerId == playerId {
        r := Some(storage[k]);
      } else {
        r := None;
      }
    }
  }

  /** In a keyed store, a lookup by any player id without the separator finds nothing: every key
      holds a separator. */
  lemma FindByPlayerIdFindsNothing(store: GameStore, playerId: string)
    requires store.Valid() && Keys.Separator !in playerId
    ensures store.FindByPlayerId(playerId) == None
  {
    if playerId in store.storage {
      assert false;
    }
  }

  /** A store holding only one game of a player answers a lookup by that player with nothing. */
  lemma FindByPlayerIdMissesSavedGame(store: GameStore, g: PlayerGameStats)
    requires store.storage == map[GameKey(g) := g]
    ensures store.FindByPlayerId(g.playerId) == None
    ensures exists k :: k in store.storage && store.storage[k].playerId == g.playerId
  {
    PairKeyLonger(g.playerId, g.gameId);
    assert GameKey(g) in store.storage;
  }

  /** The player season store (InMemoryPlayerSeasonStatisticsRepository). */
  class PlayerSeasonStore {
    var storage: map<string, PlayerSeasons.PlayerSeasonStats>

    ghost predicate Valid()
      reads this
    {
      SeasonsKeyed(storage)
    }

    constructor ()
      ensures Valid() && storage == map[]
    {
      storage := map[];
    }

    /** Upserts an aggregate under its (player, season) key; an absent one writes nothing. */
    method Save(stats: Option<PlayerSeasons.PlayerSeasonStats>) returns (r: Option<PlayerSeasons.PlayerSeasonStats>)
      requires Valid()
      modifies this
      ensures Valid() && r == stats
      ensures stats.None? ==> storage == old(storage)
      ensures stats.Some? ==>
        storage == old(storage)[SeasonKey(stats.value.playerId, stats.value.season) := stats.value]
      ensures stats.Some? ==> FindByPlayerIdAndSeason(stats.value.playerId, stats.value.season) == stats
    {
      r := stats;
      if stats.Some? {
        var s := stats.value;
        storage := storage[SeasonKey(s.playerId, s.season) := s];
      }
    }

    /** Looks up the (player, season) key; a missing key is an empty result, not an error. With
        separator-free identifiers the aggregate found is the one asked for. */
    function FindByPlayerIdAndSeason(playerId: string, season: string): (r: Option<PlayerSeasons.PlayerSeasonStats>)
      reads this
      ensures r.Some? <==> SeasonKey(playerId, season) in storage
      ensures r.Some? ==> r.value == storage[SeasonKey(playerId, season)]
      ensures Valid() && r.Some? && Keys.SeparatorFree([playerId, season]) ==>
                r.value.playerId == playerId && r.value.season == season
    {
      var key := SeasonKey(playerId, season);
      if key in storage then
        var s := storage[key];
        SeasonKeyNamesAggregate(storage, playerId, season);
        Some(s)
      else None
    }

    /** All stored aggregates, one per key. */
    method FindAll() returns (r: seq<PlayerSeasons.PlayerSeasonStats>, ghost keys: seq<string>)
      ensures |r| == |storage|
      ensures forall s :: s in r <==> s in storage.Values
      ensures |keys| == |r|
      ensures forall i, j :: 0 <= i < j < |keys| ==> keys[i] != keys[j]
      ensures forall k :: k in storage <==> k in keys
      ensures forall i :: 0 <= i < |r| ==> keys[i] in storage && r[i] == storage[keys[i]]
    {
      var rest := storage.Keys;
      r, keys := [], [];
      while rest != {}
        invariant rest <= storage.Keys
        invariant |keys| == |r| && |r| + |rest| == |storage|
        invariant forall i, j :: 0 <= i < j < |keys| ==> keys[i] != keys[j]
        invariant forall i :: 0 <= i < |r| ==> keys[i] in storage && keys[i] !in rest && r[i] == storage[keys[i]]
        invariant forall k :: k in storage ==> k in rest || k in keys
        decreases rest
      {
        var k :| k in rest;
        r, keys := r + [storage[k]], keys + [k];
        rest := rest - {k};
      }
      forall s | s in storage.Values ensures s in r {
        var k :| k in storage && storage[k] == s;
        var i :| 0 <= i < |keys| && keys[i] == k;
        assert r[i] == s;
      }
    }
  }

  /** Identifiers holding the separator collide: a lookup for player "a" in season "b:c" finds
      the aggregate of player "a:b" in season "c". */
  lemma SeasonLookupCrossesIds(store: PlayerSeasonStore, s: PlayerSeasons.PlayerSeasonStats)
    requires s.playerId == "a:b" && s.season == "c"
    requires store.storage == map[SeasonKey(s.playerId, s.season) := s]
    ensures store.Valid()
    ensures store.FindByPlayerIdAndSeason("a", "b:c") == Some(s) && s.playerId != "a"
  {
    Keys.KeyCollisions();
  }

  /** The team season store. Its implementation is not part of this model; it is modelled by
      analogy with the player season store, as far as its tests fix it. */
  class TeamSeasonStore {
    var storage: map<string, TeamSeasons.TeamSeasonStats>

    ghost predicate Valid()
      reads this
    {
      TeamsKeyed(storage)
    }

    constructor ()
      ensures Valid() && storage == map[]
    {
      storage := map[];
    }

    /** Upserts an aggregate under its (team, season) key; an absent one writes nothing. */
    method Save(stats: Option<TeamSeasons.TeamSeasonStats>) returns (r: Option<TeamSeasons.TeamSeasonStats>)
      requires Valid()
      modifies this
      ensures Valid() && r == stats
      ensures stats.None? ==> storage == old(storage)
      ensures stats.Some? ==>
        storage == old(storage)[TeamKey(stats.value.team.id, stats.value.season) := stats.value]
      ensures stats.Some? ==> FindByTeamId(stats.value.team.id, stats.value.season) == stats
    {
      r := stats;
      if stats.Some? {
        var s := stats.value;
        storage := storage[TeamKey(s.team.id, s.season) := s];
      }
    }

    /** Looks up the (team, season) key; a missing key is an empty result. With separator-free
        identifiers the aggregate found is the one asked for. */
    function FindByTeamId(teamId: string, season: string): (r: Option<TeamSeasons.TeamSeasonStats>)
      reads this
      ensures r.Some? <==> TeamKey(teamId, season) in storage
      ensures r.Some? ==> r.value == storage[TeamKey(teamId, season)]
      ensures Valid() && r.Some? && Keys.SeparatorFree([teamId, season]) ==>
                r.value.team.id == teamId && r.value.season == season
    {
      var key := TeamKey(teamId, season);
      if key in storage then
        var s := storage[key];
        TeamKeyNamesAggregate(storage, teamId, season);
        Some(s)
      else None
    }
  }
}
