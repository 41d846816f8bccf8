# Season statistics aggregation of a basketball league backend

This project models the core of a small statistics backend for a basketball league: the composite
key builder, the per-game box-score record and its validation rules, the player and team season
aggregates that fold in one game at a time, the in-memory repositories keyed by composite keys, and
the two record-game pipelines that write a game, update the player's season aggregate and then the
team's.

Modules, one per component:

- `Outcomes` — `Option`, `Result` and the three ways a Reactor `Mono` completes (`Just`, `Empty`,
  `Error`), plus the exceptions the core raises.
- `Keys` — `generateKey`: components joined with `:` with no escaping, and `Split`, its inverse on
  non-empty lists of separator-free components.
- `Decimals` — the `BigDecimal` arithmetic the core uses: the remainder by 0.1 and
  `divide(n, 1, HALF_UP)`.
- `GameRecords` — `PlayerGameStats`: the constructor's 0.1-step check and the field annotations as a
  validity predicate. Once constructed, minutes are an integer number of tenths.
- `PlayerSeasons` — `PlayerSeasonStats.fromFirstGame` / `withNewGame`: integer totals, averages
  recomputed from the totals, average minutes rounded half-up to one decimal.
- `TeamSeasons` — `TeamSeasonStats.fromFirstGame` / `withNewGame`: running averages only, updated
  with the incremental-mean formula. Averages are exact `real`s.
- `Stores` — the game store, the player season store and the team season store as classes holding a
  `map<string, …>` field that `Save` reassigns.
- `Services` — `savePlayerStatistics` and `saveGameStatistics` as pure functions over the stores'
  maps (`RecordPlayerGame`, `TeamStep`, `RecordGame`), the properties of those functions as lemmas,
  and the two service classes whose methods are proved to change the store objects exactly as the
  functions say.

Repository writes that fail (the tests inject such failures through mocks) are a `Faults` parameter.
The team roster is a `map<string, Team>` given to the service. Nothing here is tied to I/O, clocks
or the HTTP layer.

## Model

| member | source | states |
|---|---|---|
| `Keys.GenerateKey` | src/main/java/com/example/nba/repository/key/DefaultKeyGenerator.java:17-24 | no components give "", one component gives itself, and n ≥ 1 components give a key as long as their lengths summed plus n − 1 separators |
| `Keys.GenerateKeyAppend` | src/main/java/com/example/nba/repository/key/DefaultKeyGenerator.java:21 | components appear in input order: appending a component appends ":" and that component to the key |
| `Keys.SplitGenerateKey` | src/main/java/com/example/nba/repository/key/DefaultKeyGenerator.java:17-21 | cutting a key at every ":" recovers the components, for a non-empty list whose components contain no ":" |
| `Keys.GenerateKeySplit` | src/main/java/com/example/nba/repository/key/DefaultKeyGenerator.java:21 | every string is the key of its ":"-separated parts, so with no escaping any ":" in a component reads as a separator |
| `Keys.GenerateKeyInjective` | src/main/java/com/example/nba/repository/key/DefaultKeyGenerator.java:17-21 | two equally long lists of ":"-free components have the same key if and only if they are equal |
| `Keys.PairKeyUnique` | src/main/java/com/example/nba/repository/key/DefaultKeyGenerator.java:17-21 | a two-component key of ":"-free components is produced by that pair only, whatever the other pair contains |
| `Keys.KeyCollisions` | src/main/java/com/example/nba/repository/key/DefaultKeyGenerator.java:17-21 | ["a:b","c"] and ["a","b:c"] both give "a:b:c"; [] and [""] both give "" |
| `Keys.EmptyComponentsKept` | src/test/java/com/example/nba/repository/key/DefaultKeyGeneratorTest.java:31-66 | ["player","","stats"] gives "player::stats"; three components are joined in order |
| `Decimals.RemainderZeroIffTenths` | src/main/java/com/example/nba/model/PlayerGameStats.java:64-68 | the remainder of minutes by 0.1 is zero exactly when the value times ten is a whole number, whatever the decimal scale |
| `Decimals.RemainderByTenth` | src/main/java/com/example/nba/model/PlayerGameStats.java:65 | the remainder by 0.1 is zero at a scale of at most 1 and otherwise smaller than 0.1 in magnitude; it takes the sign of the minutes, and the minutes less the remainder are a whole number of tenths |
| `Decimals.RoundHalfUpDiv` | src/main/java/com/example/nba/model/PlayerSeasonStats.java:144 | the result is the quotient rounded to the nearest integer with ties away from zero: its magnitude lies within half a unit of the exact quotient and its sign is the quotient's |
| `Decimals.RoundHalfUpUnique` | src/main/java/com/example/nba/model/PlayerSeasonStats.java:144 | for every sign of dividend and divisor, the bounds and the sign of RoundHalfUpDiv determine the rounded value uniquely |
| `Decimals.Scale32Point5` | src/test/java/com/example/nba/service/PlayerStatisticsServiceImplTest.java:139 | 32.5 and 32.50 are on the 0.1 grid (325 tenths), 32.55 is not; 12.5 tenths per game rounds to 13 and −12.5 to −13 |
| `GameRecords.NewPlayerGameStats` | src/main/java/com/example/nba/model/PlayerGameStats.java:64-68 | null minutes throw NullPointerException; otherwise construction fails with IllegalArgument exactly when minutes are not a whole number of tenths, and a constructed record holds the given identifiers, timestamp, season and box score, and minutes equal to the given value |
| `GameRecords.IsValid` | src/main/java/com/example/nba/model/PlayerGameStats.java:15-58 | valid exactly when the season is not blank after trimming, every count is at least 0, fouls are at most 6 and minutes lie within 0.0 and 48.0 |
| `GameRecords.Violations` | src/main/java/com/example/nba/model/PlayerGameStats.java:15-58 | no field is reported exactly when the record is valid (season not blank, counts ≥ 0, fouls in 0..6, minutes in 0.0..48.0); fouls and minutes are reported exactly when out of range |
| `GameRecords.ConstructorChecksOnlyTheStep` | src/main/java/com/example/nba/model/PlayerGameStats.java:48-68 | the constructor accepts 32.5 at either scale, rejects 32.55, throws on null minutes, and accepts a record with seven fouls and 50.0 minutes that validation then reports on both fields |
| `PlayerSeasons.FromFirstGame` | src/main/java/com/example/nba/model/PlayerSeasonStats.java:79-101 | one game played, ids copied from the game, totals equal to the game's values, and averages consistent with the totals |
| `PlayerSeasons.WithNewGame` | src/main/java/com/example/nba/model/PlayerSeasonStats.java:104-146 | a different playerId throws first, then a different season; a count reaching zero fails as a division by zero; otherwise one more game, ids kept, each total grown by the game's value and every average equal to its total over the new count, minutes rounded half-up |
| `PlayerSeasons.WithNewGameIgnoresOldAverages` | src/main/java/com/example/nba/model/PlayerSeasonStats.java:137-144 | the new averages do not depend on the averages held before |
| `PlayerSeasons.SeasonOfSums` | src/main/java/com/example/nba/model/PlayerSeasonStats.java:79-122 | folding N games of one player and season from the first game gives N games played, per-field sums as totals, sum / N as averages and the half-up rounded minutes average |
| `PlayerSeasons.ThirdGameExample` | src/test/java/com/example/nba/model/PlayerSeasonStatsTest.java:169-227 | the test's third game gives 3 games, totals 70/40/15/7/3/12/9, 90.0 minutes, 70/3 points and 30.0 average minutes |
| `TeamSeasons.FromFirstGame` | src/main/java/com/example/nba/model/TeamSeasonStats.java:54-67 | one game, team from the argument, season from the game, each average the game's raw value |
| `TeamSeasons.WithNewGame` | src/main/java/com/example/nba/model/TeamSeasonStats.java:72-94 | a different team id throws first, then a different season; otherwise one more game with team and season kept |
| `TeamSeasons.UpdateAverage` | src/main/java/com/example/nba/model/TeamSeasonStats.java:96-98 | for a positive count the new average lies between the old average and the new value |
| `TeamSeasons.RunningMean` | src/main/java/com/example/nba/model/TeamSeasonStats.java:96-98 | if the average is sum / (n − 1) before the update it is (sum + v) / n after it |
| `TeamSeasons.RunningMeans` | src/main/java/com/example/nba/model/TeamSeasonStats.java:86-98 | the same for all seven averages at once |
| `TeamSeasons.UpdateAverageNonNegative` | src/main/java/com/example/nba/model/TeamSeasonStats.java:27-49 | a non-negative average and value give a non-negative new average |
| `TeamSeasons.TeamSeasonOfMeans` | src/main/java/com/example/nba/model/TeamSeasonStats.java:54-98 | folding N games of one team and season gives N games and each average equal to the per-field sum over N |
| `TeamSeasons.SecondGameExample` | src/test/java/com/example/nba/model/TeamSeasonStatsTest.java:17-58 | a one-game aggregate of 100 points folded with 110 points averages 105, and likewise for the other six fields |
| `Stores.GameStore.Save` | src/main/java/com/example/nba/repository/InMemoryPlayerStatisticsRepository.java:41-48 | an absent record changes nothing and yields nothing; a record is returned and stored under its (playerId, gameId) key, replacing that key only |
| `Stores.GameStore.FindByPlayerId` | src/main/java/com/example/nba/repository/InMemoryPlayerStatisticsRepository.java:36-38 | reads the one-component key, empty when absent, and never yields a record of the player asked for |
| `Stores.FindByPlayerIdFindsNothing` | src/main/java/com/example/nba/repository/InMemoryPlayerStatisticsRepository.java:36-45 | in any store whose records sit under their (player, game) keys, a lookup by a player id without ":" finds nothing |
| `Stores.FindByPlayerIdMissesSavedGame` | src/main/java/com/example/nba/repository/InMemoryPlayerStatisticsRepository.java:36-45 | a store holding only one game, of player p, answers a lookup of p with nothing, though it holds a game of p |
| `Stores.GameStore.FindAnyByPlayerId` | src/main/java/com/example/nba/repository/PlayerStatisticsRepository.java:12-18 | yields a stored game of the player when there is one, and nothing exactly when there is none |
| `Stores.PlayerSeasonStore.Save` | src/main/java/com/example/nba/repository/InMemoryPlayerSeasonStatisticsRepository.java:36-44 | an absent aggregate changes nothing; an aggregate is returned, stored under its (playerId, season) key replacing that key only, and found again by that pair |
| `Stores.PlayerSeasonStore.FindByPlayerIdAndSeason` | src/main/java/com/example/nba/repository/InMemoryPlayerSeasonStatisticsRepository.java:46-49 | empty exactly when the key is absent, otherwise the stored aggregate; in a keyed store, ":"-free query identifiers find an aggregate with exactly those identifiers |
| `Stores.PlayerSeasonStore.FindAll` | src/main/java/com/example/nba/repository/InMemoryPlayerSeasonStatisticsRepository.java:51-54 | yields exactly the stored aggregates, one element per stored key (as many elements as keys) |
| `Stores.SeasonKeyNamesAggregate` | src/main/java/com/example/nba/repository/InMemoryPlayerSeasonStatisticsRepository.java:40-48 | in a keyed season map, the aggregate under the key of a ":"-free player id and season has that player id and season |
| `Stores.SeasonLookupCrossesIds` | src/main/java/com/example/nba/repository/InMemoryPlayerSeasonStatisticsRepository.java:40-48 | a lookup for player "a" in season "b:c" finds the aggregate of player "a:b" in season "c" |
| `Stores.TeamSeasonStore.Save` | src/test/java/com/example/nba/repository/InMemoryTeamStatisticsRepositoryTest.java:17-97 | an absent aggregate changes nothing; an aggregate is returned and overwrites the one under its (team id, season) key, and is found again by that pair |
| `Stores.TeamSeasonStore.FindByTeamId` | src/main/java/com/example/nba/repository/TeamStatisticsStatisticsRepository.java:29-38 | empty exactly when the key is absent, otherwise the stored aggregate; in a keyed store, ":"-free query identifiers find an aggregate with exactly that team and season |
| `Stores.TeamKeyNamesAggregate` | src/main/java/com/example/nba/repository/TeamStatisticsStatisticsRepository.java:18-38 | in a keyed team map, the aggregate under the key of a ":"-free team id and season has that team id and season |
| `Services.SeasonStep` | src/main/java/com/example/nba/service/PlayerStatisticsServiceImpl.java:43-56 | a folded aggregate carries the game's player and season with averages matching its totals; with no stored aggregate the result is a one-game aggregate and never an error; errors are only the id/season mismatches and the division by zero |
| `Services.RecordPlayerGame` | src/main/java/com/example/nba/service/PlayerStatisticsServiceImpl.java:27-32 | the player step never removes a key; a new game key can only be the given game's, a new season key only its (player, season) key; both stores stay keyed by their records' own identifiers |
| `Services.RecordPlayerGameEmitsTheGame` | src/main/java/com/example/nba/service/PlayerStatisticsServiceImpl.java:27-32 | the player step emits the game it was given, not the aggregate, exactly when both writes succeed and the fold does not throw; an absent game completes empty |
| `Services.GameWrittenFirst` | src/main/java/com/example/nba/service/PlayerStatisticsServiceImpl.java:28-31 | a failed game write changes nothing; after a successful one the game stays written even when the season step fails, and a failure leaves the season store unchanged |
| `Services.RecordPlayerGameCounts` | src/main/java/com/example/nba/service/PlayerStatisticsServiceImpl.java:43-60 | after success the aggregate at (playerId, season) has one more game (or 1), totals grown by the game, consistent averages, and no other aggregate changed |
| `Services.SeasonStepSucceeds` | src/main/java/com/example/nba/service/PlayerStatisticsServiceImpl.java:43-56 | with a ":"-free player id and season in the game and non-negative stored counts, the fold into an existing aggregate never throws, whatever the identifiers of other stored aggregates |
| `Services.SeasonCollisionThrows` | src/main/java/com/example/nba/service/PlayerStatisticsServiceImpl.java:43-56 | a stored aggregate of ("a","b:c") makes recording a game of ("a:b","c") write the game and then fail with a player id mismatch |
| `Services.TeamStep` | src/main/java/com/example/nba/service/GameStatisticsServiceImpl.java:37-49 | on failure the team store is unchanged; on success one aggregate with at least one game is written under its own key; non-negative counts are preserved |
| `Services.RecordGame` | src/main/java/com/example/nba/service/GameStatisticsServiceImpl.java:25-30 | the composite flow keeps every stored team count non-negative |
| `Services.PlayerStepFirst` | src/main/java/com/example/nba/service/GameStatisticsServiceImpl.java:26-29 | the player-side stores end as the player step leaves them; if it does not emit the game its outcome is the result and the team store is untouched |
| `Services.UnknownTeamFails` | src/main/java/com/example/nba/service/GameStatisticsServiceImpl.java:37-41 | an unknown team id fails with IllegalState "Team not found for ID: <teamId>", no team write, the game and season aggregate remain written |
| `Services.TeamAggregateWritten` | src/main/java/com/example/nba/service/GameStatisticsServiceImpl.java:43-48 | with a known team the flow emits the game and stores fromFirstGame(game, team) when no aggregate exists, existing.withNewGame(game) when one does |
| `Services.TeamStepCounts` | src/main/java/com/example/nba/service/GameStatisticsServiceImpl.java:43-48 | a successful team step leaves the team's count one higher, or 1 |
| `Services.TeamCountsEveryPlayerGame` | src/main/java/com/example/nba/service/GameStatisticsServiceImpl.java:43-45 | two player-games of one team and season raise its count by two, whether or not they share a gameId |
| `Services.PlayerStatisticsService.SavePlayerStatistics` | src/main/java/com/example/nba/service/PlayerStatisticsServiceImpl.java:27-60 | returns and leaves the two stores exactly as RecordPlayerGame says, keeping both store invariants |
| `Services.PlayerStatisticsService.GetPlayerSeasonStatistics` | src/main/java/com/example/nba/service/PlayerStatisticsServiceImpl.java:34-37 | a read of the season store with no effect: the aggregate under the (playerId, season) key, or nothing |
| `Services.PlayerStatisticsService.GetAllPlayerSeasonStatistics` | src/main/java/com/example/nba/service/PlayerStatisticsServiceImpl.java:62-65 | yields exactly the stored aggregates, one element per stored key (ghost keys give the bijection) |
| `Services.GameStatisticsService.SaveGameStatistics` | src/main/java/com/example/nba/service/GameStatisticsServiceImpl.java:25-49 | returns and leaves the three stores exactly as RecordGame says, keeping the store invariants and non-negative team counts |
| `Services.GameStatisticsService.GetTeamSeasonStats` | src/main/java/com/example/nba/service/GameStatisticsServiceImpl.java:32-35 | a read of the team store with no effect: the aggregate under the (teamId, season) key, or nothing |

## Left out

- The HTTP layer (controllers, status mapping, the exception handler) and application bootstrap.
- Reactor scheduling: each pipeline is a sequential method. The `switchIfEmpty` argument is built
  eagerly in the source, but with the in-memory store its write happens only when it is subscribed
  to, so the model performs a single write.
- Concurrency: the stores are single-threaded maps; lost updates under concurrent requests are not
  modelled.
- Floating point: `double` averages are exact `real`s; `BigDecimal` minutes are exact tenths.
- Java `int` overflow of totals and counts: integers are unbounded.
- `TeamSeasons.WithNewGame`: requires that the new count is not zero. For a record holding −1
  games, which the annotation forbids but the constructor admits, the source divides by zero in
  floating point and yields NaN or an infinity, which a `real` cannot hold.
- `Services.GameStatisticsService.SaveGameStatistics`: requires every stored team aggregate to have a
  non-negative count, for the same reason; every aggregate the flow itself stores has one.
- Null identifiers and a null timestamp: Dafny strings cannot be null, so the `@NotNull` rules hold
  by construction. Null minutes (a NullPointerException in the game record's constructor) and a
  null game record (for the stores and the services) are modelled with `Option`.
- The four `requireNonNull` checks of the player season record's constructor
  (PlayerSeasonStats.java:71-76): its player id and season come from non-null strings, and its
  minutes from a constructed game, whose minutes the game constructor has already dereferenced, so in
  the model they can never fail and no NullPointerException path of that record is modelled.
- The `BigDecimal` scale of minutes after construction: the record keeps the value in tenths, so
  record equality ignores the scale where Java's does not.
- `@NotBlank` on the season is read as Hibernate Validator checks it: the season is blank when
  trimming every character at or below U+0020 leaves nothing. Another validation provider could test
  Unicode whitespace instead; the validator itself is not part of this model.
- The team season store implementation is not part of this model: its `save` and `findByTeamId`
  follow the player season store, as far as its tests fix them; its `findAll` is left out.
- Failing repository writes other than the game write and the season write (the only ones the tests
  inject) are not modelled; the team store write always succeeds.
- Seed data (players and teams), the thin delegating services (player, team and team-statistics
  services), logging and timestamps.

## Findings

| source | as written | input that shows it | evidently intended | confidence | as-written member | corrected member |
|---|---|---|---|---|---|---|
| src/main/java/com/example/nba/repository/InMemoryPlayerStatisticsRepository.java:36-45 | `findByPlayerId(p)` reads the key `generateKey(p)`, which is `p`, while `save` writes every record under `p:gameId` | save a game of player "p" in game "g", then look up "p": the key "p" is absent, so the result is empty | a lookup by player id finds a stored game of that player, as the interface documents | medium; not executed | `Stores.GameStore.FindByPlayerId` | `Stores.GameStore.FindAnyByPlayerId` |
