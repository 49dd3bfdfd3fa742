/** The Competitions module's per-team match statistics: one record for the
    home side and one for the away side of a match. Possession is a .NET
    `decimal`, which is exact, so it is a `real` here. */
module TeamMatchStats {
  import opened Common

  /** The seven values UpdateStats may change. */
  datatype TeamStats = TeamStats(
    possessionPercentage: real,
    shots: Int32,
    shotsOnTarget: Int32,
    corners: Int32,
    yellowCards: Int32,
    redCards: Int32,
    fouls: Int32)

  /** Possession within [0, 100], no negative count, and no more shots on
      target than shots. */
  predicate Plausible(s: TeamStats) {
    && 0.0 <= s.possessionPercentage <= 100.0
    && s.shots >= 0 && s.shotsOnTarget >= 0 && s.shotsOnTarget <= s.shots
    && s.corners >= 0 && s.yellowCards >= 0 && s.redCards >= 0 && s.fouls >= 0
  }

  const PossessionMessage := "Possession percentage must be between 0 and 100. (Parameter 'possessionPercentage')"

  /** Create's guards in order, each naming its parameter. */
  function CreateRejection(s: TeamStats): (e: Option<string>)
    ensures e.None? <==> Plausible(s)
    ensures !(0.0 <= s.possessionPercentage <= 100.0) ==> e == Some(PossessionMessage)
  {
    if s.possessionPercentage < 0.0 || s.possessionPercentage > 100.0 then Some(PossessionMessage)
    else if s.shots < 0 then Some("Shots cannot be negative. (Parameter 'shots')")
    else if s.shotsOnTarget < 0 then Some("Shots on target cannot be negative. (Parameter 'shotsOnTarget')")
    else if s.shotsOnTarget > s.shots then Some("Shots on target cannot exceed total shots. (Parameter 'shotsOnTarget')")
    else if s.corners < 0 then Some("Corners cannot be negative. (Parameter 'corners')")
    else if s.yellowCards < 0 then Some("Yellow cards cannot be negative. (Parameter 'yellowCards')")
    else if s.redCards < 0 then Some("Red cards cannot be negative. (Parameter 'redCards')")
    else if s.fouls < 0 then Some("Fouls cannot be negative. (Parameter 'fouls')")
    else None
  }

  /** UpdateStats: the possession guard, then one guard for all counts. */
  function UpdateRejection(s: TeamStats): (e: Option<string>)
    ensures e.None? <==> Plausible(s)
    ensures !(0.0 <= s.possessionPercentage <= 100.0) ==> e == Some(PossessionMessage)
  {
    if s.possessionPercentage < 0.0 || s.possessionPercentage > 100.0 then Some(PossessionMessage)
    else if || s.shots < 0 || s.shotsOnTarget < 0 || s.shotsOnTarget > s.shots
            || s.corners < 0 || s.yellowCards < 0 || s.redCards < 0 || s.fouls < 0
    then Some("Invalid statistics values.")
    else None
  }

  /** Create and UpdateStats accept the same values; both bounds of the
      possession range are allowed. */
  lemma CreateAndUpdateAgree(s: TeamStats)
    ensures CreateRejection(s).None? <==> UpdateRejection(s).None?
    ensures Plausible(s) ==> Plausible(s.(possessionPercentage := 0.0)) && Plausible(s.(possessionPercentage := 100.0))
  {
  }

  /** One row of the MatchStats table: the match, the team, its side and
      the seven values. */
  datatype StatsRecord = StatsRecord(id: Guid, matchId: Guid, teamId: Guid, isHome: bool, stats: TeamStats)

  class MatchStats {
    const id: Guid
    const matchId: Guid
    const teamId: Guid
    const isHome: bool
    var possessionPercentage: real
    var shots: Int32
    var shotsOnTarget: Int32
    var corners: Int32
    var yellowCards: Int32
    var redCards: Int32
    var fouls: Int32

    function Values(): TeamStats
      reads this
    {
      TeamStats(possessionPercentage, shots, shotsOnTarget, corners, yellowCards, redCards, fouls)
    }

    function Snapshot(): StatsRecord
      reads this
    {
      StatsRecord(id, matchId, teamId, isHome, Values())
    }

    predicate Valid()
      reads this
    {
      Plausible(Values())
    }

    constructor (id: Guid, matchId: Guid, teamId: Guid, isHome: bool, s: TeamStats)
      ensures this.id == id && this.matchId == matchId && this.teamId == teamId && this.isHome == isHome
      ensures Values() == s
    {
      this.id := id;
      this.matchId := matchId;
      this.teamId := teamId;
      this.isHome := isHome;
      possessionPercentage := s.possessionPercentage;
      shots := s.shots;
      shotsOnTarget := s.shotsOnTarget;
      corners := s.corners;
      yellowCards := s.yellowCards;
      redCards := s.redCards;
      fouls := s.fouls;
    }

    /** MatchStats.Create. */
    static method Create(id: Guid, matchId: Guid, teamId: Guid, isHome: bool, s: TeamStats)
      returns (r: Fallible<MatchStats>)
      ensures CreateRejection(s).Some? ==> r == Throws(CreateRejection(s).value)
      ensures CreateRejection(s).None? ==>
        && r.Ok? && fresh(r.value) && r.value.Valid() && r.value.Values() == s
        && r.value.matchId == matchId && r.value.teamId == teamId && r.value.isHome == isHome
    {
      var rejection := CreateRejection(s);
      if rejection.Some? {
        return Throws(rejection.value);
      }
      var stats := new MatchStats(id, matchId, teamId, isHome, s);
      return Ok(stats);
    }

    /** UpdateStats: the match, team and side stay as they are. */
    method UpdateStats(s: TeamStats) returns (r: Fallible<()>)
      modifies this
      ensures UpdateRejection(s).Some? ==> r == Throws(UpdateRejection(s).value) && Values() == old(Values())
      ensures UpdateRejection(s).None? ==> r == Ok(()) && Values() == s && Valid()
      ensures old(Valid()) ==> Valid()
    {
      var rejection := UpdateRejection(s);
      if rejection.Some? {
        return Throws(rejection.value);
      }
      possessionPercentage := s.possessionPercentage;
      shots := s.shots;
      shotsOnTarget := s.shotsOnTarget;
      corners := s.corners;
      yellowCards := s.yellowCards;
      redCards := s.redCards;
      fouls := s.fouls;
      return Ok(());
    }
  }
}
