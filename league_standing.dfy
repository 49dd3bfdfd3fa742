/** A team's row in a league table for one season. Goal difference and
    points are derived from the other counts whenever those are set; the
    arithmetic is unchecked 32-bit `int`. */
module Standings {
  import opened Common

  datatype StandingRecord = StandingRecord(
    id: Guid,
    leagueId: Guid,
    seasonId: Guid,
    teamId: Guid,
    position: Int32,
    played: Int32,
    won: Int32,
    drawn: Int32,
    lost: Int32,
    goalsFor: Int32,
    goalsAgainst: Int32,
    goalDifference: Int32,
    points: Int32)

  /** goalsFor - goalsAgainst, wrapped. */
  function GoalDifferenceOf(goalsFor: Int32, goalsAgainst: Int32): Int32 {
    Wrap32(goalsFor - goalsAgainst)
  }

  /** (won * 3) + drawn, wrapped. */
  function PointsOf(won: Int32, drawn: Int32): Int32 {
    Wrap32(Wrap32(won * 3) + drawn)
  }

  /** Three points a win, one a draw, and the difference of the goals, as
      long as the counts stay within what an int holds. */
  lemma DerivedValuesExact(won: Int32, drawn: Int32, goalsFor: Int32, goalsAgainst: Int32)
    requires 0 <= won < 0x1000_0000 && 0 <= drawn < 0x1000_0000
    requires 0 <= goalsFor && 0 <= goalsAgainst
    ensures PointsOf(won, drawn) == 3 * won + drawn
    ensures GoalDifferenceOf(goalsFor, goalsAgainst) == goalsFor - goalsAgainst
  {
  }

  /** Without that bound the points wrap round: 715827883 wins are
      -2147483647 points. */
  lemma PointsWrap()
    ensures PointsOf(715827883, 0) == -2147483647
  {
  }

  /** Wrapping the product before adding the draws gives the same value as
      wrapping once at the end. */
  lemma PointsWrapOnce(won: Int32, drawn: Int32)
    ensures PointsOf(won, drawn) == Wrap32(3 * won + drawn)
  {
    Wrap32Add(won * 3, drawn);
  }

  /** The derived columns agree with the counts. */
  predicate Derived(s: StandingRecord) {
    s.goalDifference == GoalDifferenceOf(s.goalsFor, s.goalsAgainst) && s.points == PointsOf(s.won, s.drawn)
  }

  function Constructed(id: Guid, leagueId: Guid, seasonId: Guid, teamId: Guid, position: Int32, played: Int32,
                       won: Int32, drawn: Int32, lost: Int32, goalsFor: Int32, goalsAgainst: Int32): StandingRecord
  {
    StandingRecord(id, leagueId, seasonId, teamId, position, played, won, drawn, lost, goalsFor, goalsAgainst,
                   GoalDifferenceOf(goalsFor, goalsAgainst), PointsOf(won, drawn))
  }

  function StatsUpdated(s: StandingRecord, played: Int32, won: Int32, drawn: Int32, lost: Int32, goalsFor: Int32,
                        goalsAgainst: Int32): StandingRecord
  {
    s.(played := played, won := won, drawn := drawn, lost := lost, goalsFor := goalsFor, goalsAgainst := goalsAgainst,
       goalDifference := GoalDifferenceOf(goalsFor, goalsAgainst), points := PointsOf(won, drawn))
  }

  function PositionUpdated(s: StandingRecord, position: Int32): StandingRecord {
    s.(position := position)
  }

  /** The derived columns hold after construction and after every update;
      UpdateStats keeps the row's league, season, team and position, and
      UpdatePosition keeps everything but the position. */
  lemma UpdatesKeepDerived(s: StandingRecord, position: Int32, played: Int32, won: Int32, drawn: Int32, lost: Int32,
                           goalsFor: Int32, goalsAgainst: Int32)
    ensures Derived(StatsUpdated(s, played, won, drawn, lost, goalsFor, goalsAgainst))
    ensures Derived(s) ==> Derived(PositionUpdated(s, position))
    ensures var u := StatsUpdated(s, played, won, drawn, lost, goalsFor, goalsAgainst);
      u.id == s.id && u.leagueId == s.leagueId && u.seasonId == s.seasonId && u.teamId == s.teamId
      && u.position == s.position
    ensures PositionUpdated(s, position).(position := s.position) == s
  {
  }

  /** Nothing ties Played to the results: a row may claim one game played and
      three won. */
  lemma PlayedNotChecked(id: Guid, leagueId: Guid, seasonId: Guid, teamId: Guid)
    ensures var s := Constructed(id, leagueId, seasonId, teamId, 1, 1, 3, 0, 0, 5, 1);
      Derived(s) && s.played != s.won + s.drawn + s.lost && s.points == 9
  {
  }

  class LeagueStanding {
    const id: Guid
    const leagueId: Guid
    const seasonId: Guid
    const teamId: Guid
    var position: Int32
    var played: Int32
    var won: Int32
    var drawn: Int32
    var lost: Int32
    var goalsFor: Int32
    var goalsAgainst: Int32
    var goalDifference: Int32
    var points: Int32

    function Snapshot(): StandingRecord
      reads this
    {
      StandingRecord(id, leagueId, seasonId, teamId, position, played, won, drawn, lost, goalsFor, goalsAgainst,
                     goalDifference, points)
    }

    predicate Valid()
      reads this
    {
      Derived(Snapshot())
    }

    constructor (id: Guid, leagueId: Guid, seasonId: Guid, teamId: Guid, position: Int32, played: Int32, won: Int32,
                 drawn: Int32, lost: Int32, goalsFor: Int32, goalsAgainst: Int32)
      ensures Snapshot() == Constructed(id, leagueId, seasonId, teamId, position, played, won, drawn, lost, goalsFor,
                                        goalsAgainst)
      ensures Valid()
    {
      this.id := id;
      this.leagueId := leagueId;
      this.seasonId := seasonId;
      this.teamId := teamId;
      this.position := position;
      this.played := played;
      this.won := won;
      this.drawn := drawn;
      this.lost := lost;
      this.goalsFor := goalsFor;
      this.goalsAgainst := goalsAgainst;
      this.goalDifference := Wrap32(goalsFor - goalsAgainst);
      this.points := Wrap32(Wrap32(won * 3) + drawn);
    }

    method UpdateStats(played: Int32, won: Int32, drawn: Int32, lost: Int32, goalsFor: Int32, goalsAgainst: Int32)
      modifies this
      ensures Snapshot() == StatsUpdated(old(Snapshot()), played, won, drawn, lost, goalsFor, goalsAgainst)
      ensures Valid()
    {
      this.played := played;
      this.won := won;
      this.drawn := drawn;
      this.lost := lost;
      this.goalsFor := goalsFor;
      this.goalsAgainst := goalsAgainst;
      this.goalDifference := Wrap32(goalsFor - goalsAgainst);
      this.points := Wrap32(Wrap32(won * 3) + drawn);
    }

    method UpdatePosition(position: Int32)
      modifies this
      ensures Snapshot() == PositionUpdated(old(Snapshot()), position)
      ensures old(Valid()) ==> Valid()
    {
      this.position := position;
    }
  }
}
