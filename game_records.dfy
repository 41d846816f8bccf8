/** One player's box score for one game (the PlayerGameStats record) and the rules it must meet. */
module GameRecords {
  import opened Outcomes
  import Decimals

  /** The seven counting statistics of a box score. */
  datatype BoxScore = BoxScore(
    points: int, rebounds: int, assists: int, steals: int, blocks: int, fouls: int, turnovers: int)

  /** The seven counting statistics as exact per-game averages. */
  datatype BoxAverages = BoxAverages(
    points: real, rebounds: real, assists: real, steals: real, blocks: real, fouls: real, turnovers: real)

  const Zero := BoxScore(0, 0, 0, 0, 0, 0, 0)

  function Plus(a: BoxScore, b: BoxScore): BoxScore
  {
    BoxScore(a.points + b.points, a.rebounds + b.rebounds, a.assists + b.assists, a.steals + b.steals,
             a.blocks + b.blocks, a.fouls + b.fouls, a.turnovers + b.turnovers)
  }

  /** The per-field sums of the games' box scores. */
  function SumBox(games: seq<PlayerGameStats>): BoxScore
  {
    if |games| == 0 then Zero else Plus(SumBox(games[..|games| - 1]), games[|games| - 1].box)
  }

  /** Each count divided by n. */
  function MeanOf(total: BoxScore, n: int): BoxAverages
    requires n != 0
  {
    var d := n as real;
    BoxAverages(total.points as real / d, total.rebounds as real / d, total.assists as real / d,
                total.steals as real / d, total.blocks as real / d, total.fouls as real / d,
                total.turnovers as real / d)
  }

  /** The timestamp is carried through and never inspected. */
  type Timestamp = int

  /** A constructed PlayerGameStats; minutes are held as a whole number of tenths. */
  datatype PlayerGameStats = PlayerGameStats(
    id: string, playerId: string, gameId: string, teamId: string, timestamp: Timestamp,
    season: string, box: BoxScore, minutesTenths: int)

  /** The compact constructor: it dereferences the minutes (None is a null reference), refuses
      minutes that are not a whole multiple of 0.1 and checks nothing else. */
  function NewPlayerGameStats(id: string, playerId: string, gameId: string, teamId: string,
                              timestamp: Timestamp, season: string, box: BoxScore,
                              minutesPlayed: Option<Decimals.Decimal>): (r: Result<PlayerGameStats>)
    ensures minutesPlayed.None? ==> r == Err(NullPointer)
    ensures r.Ok? <==> minutesPlayed.Some? && Decimals.IsWhole(Decimals.Value(minutesPlayed.value) * 10.0)
    ensures minutesPlayed.Some? && r.Err? ==> r.error == IllegalArgument(MinutesNotTenth)
    ensures r.Ok? ==> r.value.minutesTenths as real / 10.0 == Decimals.Value(minutesPlayed.value)
    ensures r.Ok? ==> r.value.box == box && r.value.playerId == playerId && r.value.gameId == gameId
                      && r.value.teamId == teamId && r.value.season == season && r.value.id == id
                      && r.value.timestamp == timestamp
  {
    match minutesPlayed
    case None => Err(NullPointer)
    case Some(m) =>
      Decimals.RemainderZeroIffTenths(m);
      if Decimals.RemainderByTenth(m) != 0 then Err(IllegalArgument(MinutesNotTenth))
      else Ok(PlayerGameStats(id, playerId, gameId, teamId, timestamp, season, box, Decimals.Tenths(m)))
  }

  /** What @NotBlank rejects under Hibernate Validator, which trims the string: nothing is left
      once every character at or below U+0020 is removed from both ends. */
  predicate IsBlank(s: string)
  {
    forall i :: 0 <= i < |s| ==> s[i] <= ' '
  }

  /** The field annotations: a non-blank season, non-negative counts, fouls within 0..6 and minutes
      within 0.0..48.0. (Identifiers and the timestamp cannot be null here.) */
  function IsValid(g: PlayerGameStats): (valid: bool)
    ensures valid <==>
      && !IsBlank(g.season)
      && g.box.points >= 0 && g.box.rebounds >= 0 && g.box.assists >= 0 && g.box.steals >= 0
      && g.box.blocks >= 0 && g.box.turnovers >= 0
      && 0 <= g.box.fouls <= 6
      && 0.0 <= g.minutesTenths as real / 10.0 <= 48.0
  {
    && !IsBlank(g.season)
    && g.box.points >= 0 && g.box.rebounds >= 0 && g.box.assists >= 0 && g.box.steals >= 0
    && g.box.blocks >= 0 && g.box.turnovers >= 0
    && 0 <= g.box.fouls <= 6
    && 0 <= g.minutesTenths <= 480
  }

  /** The fields a request validation reports. */
  datatype Field = Season | Points | Rebounds | Assists | Steals | Blocks | Fouls | Turnovers | MinutesPlayed

  function Violations(g: PlayerGameStats): (v: set<Field>)
    ensures v == {} <==> IsValid(g)
    ensures Fouls in v <==> g.box.fouls < 0 || g.box.fouls > 6
    ensures MinutesPlayed in v <==> g.minutesTenths < 0 || g.minutesTenths > 480
  {
    (if IsBlank(g.season) then {Season} else {})
    + (if g.box.points < 0 then {Points} else {})
    + (if g.box.rebounds < 0 then {Rebounds} else {})
    + (if g.box.assists < 0 then {Assists} else {})
    + (if g.box.steals < 0 then {Steals} else {})
    + (if g.box.blocks < 0 then {Blocks} else {})
    + (if g.box.fouls < 0 || g.box.fouls > 6 then {Fouls} else {})
    + (if g.box.turnovers < 0 then {Turnovers} else {})
    + (if g.minutesTenths < 0 || g.minutesTenths > 480 then {MinutesPlayed} else {})
  }

  /** The constructor accepts 32.5 whatever its scale, refuses 32.55, throws on null minutes, and
      builds records the annotations would reject (seven fouls, fifty minutes). */
  lemma ConstructorChecksOnlyTheStep()
    ensures NewPlayerGameStats("s", "p", "g", "t", 0, "2023", BoxScore(30, 10, 5, 2, 1, 3, 4),
                               Some(Decimals.Decimal(325, 1))).Ok?
    ensures NewPlayerGameStats("s", "p", "g", "t", 0, "2023", BoxScore(30, 10, 5, 2, 1, 3, 4),
                               Some(Decimals.Decimal(3250, 2))).Ok?
    ensures NewPlayerGameStats("s", "p", "g", "t", 0, "2023", BoxScore(30, 10, 5, 2, 1, 3, 4),
                               Some(Decimals.Decimal(3255, 2))) == Err(IllegalArgument(MinutesNotTenth))
    ensures var r := NewPlayerGameStats("s", "p", "g", "t", 0, "2023", BoxScore(0, 0, 0, 0, 0, 7, 0),
                                        Some(Decimals.Decimal(500, 1)));
            r.Ok? && !IsValid(r.value) && Violations(r.value) == {Fouls, MinutesPlayed}
    ensures NewPlayerGameStats("s", "p", "g", "t", 0, "2023", BoxScore(30, 10, 5, 2, 1, 3, 4), None)
            == Err(NullPointer)
  {
    Decimals.Scale32Point5();
    assert Decimals.Tenths(Decimals.Decimal(500, 1)) == 500;
    assert "2023"[0] > ' ';
  }
}
