/** The Competitions module's match: a fixture between two teams of a season
    whose status decides whether a score is recorded. Teams, season and venue
    are fixed at creation; the date, the status and the two scores change in
    place. */
module CompetitionMatch {
  import opened Common

  datatype MatchStatus = Scheduled | Live | Finished | Postponed | Cancelled

  /** The values of a Match's properties at one moment. */
  datatype MatchRecord = MatchRecord(
    id: Guid,
    seasonId: Guid,
    homeTeamId: Guid,
    awayTeamId: Guid,
    matchDate: DateTime,
    status: MatchStatus,
    homeScore: Option<int>,
    awayScore: Option<int>,
    venue: string)

  /** A score is recorded exactly while the match is live or finished, and a
      recorded score is never negative. */
  predicate ScoresFollowStatus(m: MatchRecord) {
    && (m.homeScore.Some? <==> m.status == Live || m.status == Finished)
    && (m.awayScore.Some? <==> m.status == Live || m.status == Finished)
    && (m.homeScore.Some? ==> m.homeScore.value >= 0)
    && (m.awayScore.Some? ==> m.awayScore.value >= 0)
  }

  const SameTeams := "Home team and away team cannot be the same."
  const VenueRequired := "Venue is required. (Parameter 'venue')"
  const NegativeScore := "Scores cannot be negative."

  /** The first guard of Create that fails, as the exception's Message. */
  function CreateRejection(homeTeamId: Guid, awayTeamId: Guid, venue: string): (e: Option<string>)
    ensures e.None? <==> homeTeamId != awayTeamId && !Blank(venue)
    ensures homeTeamId == awayTeamId ==> e == Some(SameTeams)
    ensures homeTeamId != awayTeamId && Blank(venue) ==> e == Some(VenueRequired)
  {
    if homeTeamId == awayTeamId then Some(SameTeams)
    else if Blank(venue) then Some(VenueRequired)
    else None
  }

  /** The record the private constructor builds. */
  function Created(id: Guid, seasonId: Guid, homeTeamId: Guid, awayTeamId: Guid, matchDate: DateTime,
                   venue: string): MatchRecord
  {
    MatchRecord(id, seasonId, homeTeamId, awayTeamId, matchDate, Scheduled, None, None, venue)
  }

  /** A new match is scheduled, has no score, and satisfies the invariant. */
  lemma CreatedIsScheduled(id: Guid, seasonId: Guid, homeTeamId: Guid, awayTeamId: Guid, matchDate: DateTime,
                           venue: string)
    ensures var m := Created(id, seasonId, homeTeamId, awayTeamId, matchDate, venue);
      m.status == Scheduled && m.homeScore.None? && m.awayScore.None? && ScoresFollowStatus(m)
  {
  }

  // The effect of each mutator on the record.

  /** SetFinalScore and UpdateLiveScore: refused for a negative score,
      otherwise both scores and the given status. */
  function Scored(m: MatchRecord, homeScore: int, awayScore: int, status: MatchStatus): Fallible<MatchRecord> {
    if homeScore < 0 || awayScore < 0 then Throws(NegativeScore)
    else Ok(m.(homeScore := Some(homeScore), awayScore := Some(awayScore), status := status))
  }

  function Unscored(m: MatchRecord, status: MatchStatus): MatchRecord {
    m.(status := status, homeScore := None, awayScore := None)
  }

  function Rescheduled(m: MatchRecord, newDate: DateTime): MatchRecord {
    Unscored(m, Scheduled).(matchDate := newDate)
  }

  /** The teams, the season, the venue and the id are the match's identity:
      nothing after Create changes them. */
  predicate SameFixture(a: MatchRecord, b: MatchRecord) {
    a.id == b.id && a.seasonId == b.seasonId && a.homeTeamId == b.homeTeamId && a.awayTeamId == b.awayTeamId
    && a.venue == b.venue
  }

  /** Recording a score is refused exactly for a negative score; an accepted
      one is stored as given, with the status Finished or Live. */
  lemma ScoringRules(m: MatchRecord, homeScore: int, awayScore: int, status: MatchStatus)
    requires status == Finished || status == Live
    ensures Scored(m, homeScore, awayScore, status).Throws? <==> homeScore < 0 || awayScore < 0
    ensures Scored(m, homeScore, awayScore, status).Throws? ==> Scored(m, homeScore, awayScore, status).message == NegativeScore
    ensures Scored(m, homeScore, awayScore, status).Ok? ==>
      var r := Scored(m, homeScore, awayScore, status).value;
      r.homeScore == Some(homeScore) && r.awayScore == Some(awayScore) && r.status == status
      && r.matchDate == m.matchDate && SameFixture(r, m)
  {
  }

  /** Every operation keeps "a score is recorded exactly while live or
      finished", from any status: there are no transition guards. */
  lemma OperationsKeepScoresFollowStatus(m: MatchRecord, homeScore: int, awayScore: int, newDate: DateTime)
    ensures Scored(m, homeScore, awayScore, Finished).Ok? ==> ScoresFollowStatus(Scored(m, homeScore, awayScore, Finished).value)
    ensures Scored(m, homeScore, awayScore, Live).Ok? ==> ScoresFollowStatus(Scored(m, homeScore, awayScore, Live).value)
    ensures ScoresFollowStatus(Unscored(m, Postponed)) && ScoresFollowStatus(Unscored(m, Cancelled))
    ensures ScoresFollowStatus(Rescheduled(m, newDate))
    ensures SameFixture(Unscored(m, Postponed), m) && SameFixture(Unscored(m, Cancelled), m)
    ensures SameFixture(Rescheduled(m, newDate), m) && Rescheduled(m, newDate).matchDate == newDate
  {
  }

  /** A finished match can be reopened: postponing or rescheduling it throws
      the final score away. */
  lemma FinalScoreCanBeDiscarded(m: MatchRecord, homeScore: nat, awayScore: nat, newDate: DateTime)
    ensures var f := Scored(m, homeScore, awayScore, Finished).value;
      && f.status == Finished && f.homeScore == Some(homeScore)
      && Unscored(f, Postponed).homeScore.None? && Rescheduled(f, newDate).status == Scheduled
  {
  }

  class Match {
    const id: Guid
    const seasonId: Guid
    const homeTeamId: Guid
    const awayTeamId: Guid
    const venue: string
    var matchDate: DateTime
    var status: MatchStatus
    var homeScore: Option<int>
    var awayScore: Option<int>

    function Snapshot(): (m: MatchRecord)
      reads this
      ensures m.status == status && m.homeScore == homeScore && m.awayScore == awayScore
    {
      MatchRecord(id, seasonId, homeTeamId, awayTeamId, matchDate, status, homeScore, awayScore, venue)
    }

    predicate Valid()
      reads this
    {
      ScoresFollowStatus(Snapshot())
    }

    /** The private constructor: Scheduled, no score. */
    constructor (id: Guid, seasonId: Guid, homeTeamId: Guid, awayTeamId: Guid, matchDate: DateTime, venue: string)
      ensures Snapshot() == Created(id, seasonId, homeTeamId, awayTeamId, matchDate, venue)
      ensures Valid()
    {
      this.id := id;
      this.seasonId := seasonId;
      this.homeTeamId := homeTeamId;
      this.awayTeamId := awayTeamId;
      this.matchDate := matchDate;
      this.venue := venue;
      this.status := Scheduled;
      this.homeScore := None;
      this.awayScore := None;
    }

    /** Match.Create: the two guards, then the private constructor. */
    static method Create(id: Guid, seasonId: Guid, homeTeamId: Guid, awayTeamId: Guid, matchDate: DateTime,
                         venue: string) returns (r: Fallible<Match>)
      ensures var rejection := CreateRejection(homeTeamId, awayTeamId, venue);
              (rejection.Some? ==> r == Throws(rejection.value)) && (rejection.None? ==> r.Ok?)
      ensures r.Ok? ==> fresh(r.value) && r.value.Valid()
                        && r.value.Snapshot() == Created(id, seasonId, homeTeamId, awayTeamId, matchDate, venue)
    {
      if homeTeamId == awayTeamId {
        return Throws(SameTeams);
      }
      if Blank(venue) {
        return Throws(VenueRequired);
      }
      var m := new Match(id, seasonId, homeTeamId, awayTeamId, matchDate, venue);
      return Ok(m);
    }

    method SetFinalScore(homeScore: int, awayScore: int) returns (r: Fallible<()>)
      modifies this
      ensures r.Ok? || old(Valid()) ==> Valid()
      ensures var s := Scored(old(Snapshot()), homeScore, awayScore, Finished);
        && (s.Throws? ==> r == Throws(s.message) && Snapshot() == old(Snapshot()))
        && (s.Ok? ==> r == Ok(()) && Snapshot() == s.value)
    {
      if homeScore < 0 || awayScore < 0 {
        return Throws(NegativeScore);
      }
      this.homeScore := Some(homeScore);
      this.awayScore := Some(awayScore);
      status := Finished;
      return Ok(());
    }

    method UpdateLiveScore(homeScore: int, awayScore: int) returns (r: Fallible<()>)
      modifies this
      ensures r.Ok? || old(Valid()) ==> Valid()
      ensures var s := Scored(old(Snapshot()), homeScore, awayScore, Live);
        && (s.Throws? ==> r == Throws(s.message) && Snapshot() == old(Snapshot()))
        && (s.Ok? ==> r == Ok(()) && Snapshot() == s.value)
    {
      if homeScore < 0 || awayScore < 0 {
        return Throws(NegativeScore);
      }
      this.homeScore := Some(homeScore);
      this.awayScore := Some(awayScore);
      status := Live;
      return Ok(());
    }

    method Postpone()
      modifies this
      ensures Valid()
      ensures Snapshot() == Unscored(old(Snapshot()), Postponed)
    {
      status := Postponed;
      homeScore := None;
      awayScore := None;
    }

    method Cancel()
      modifies this
      ensures Valid()
      ensures Snapshot() == Unscored(old(Snapshot()), Cancelled)
    {
      status := Cancelled;
      homeScore := None;
      awayScore := None;
    }

    method Reschedule(newMatchDate: DateTime)
      modifies this
      ensures Valid()
      ensures Snapshot() == Rescheduled(old(Snapshot()), newMatchDate)
    {
      matchDate := newMatchDate;
      status := Scheduled;
      homeScore := None;
      awayScore := None;
    }
  }
}
