/** The Matches module's match: the same fixture tracked for live play. Its
    three mutators have no guards at all; in particular a score can be
    recorded in any status, and a negative score is accepted. */
module MatchesMatch {
  import opened Common

  datatype MatchStatus = Scheduled | Live | Finished | Postponed

  datatype MatchRecord = MatchRecord(
    id: Guid,
    homeTeamId: Guid,
    awayTeamId: Guid,
    seasonId: Guid,
    startTime: DateTime,
    status: MatchStatus,
    homeScore: Option<int>,
    awayScore: Option<int>)

  function Constructed(id: Guid, homeTeamId: Guid, awayTeamId: Guid, seasonId: Guid, startTime: DateTime): MatchRecord {
    MatchRecord(id, homeTeamId, awayTeamId, seasonId, startTime, Scheduled, None, None)
  }

  function Started(m: MatchRecord): MatchRecord {
    m.(status := Live)
  }

  function ScoreUpdated(m: MatchRecord, home: int, away: int): MatchRecord {
    m.(homeScore := Some(home), awayScore := Some(away))
  }

  function Completed(m: MatchRecord): MatchRecord {
    m.(status := Finished)
  }

  /** The fixture itself: nothing after construction changes it. */
  predicate SameFixture(a: MatchRecord, b: MatchRecord) {
    a.id == b.id && a.homeTeamId == b.homeTeamId && a.awayTeamId == b.awayTeamId && a.seasonId == b.seasonId
    && a.startTime == b.startTime
  }

  /** Start and Finish change the status alone, UpdateScore the scores alone,
      so a score update and a status change can be made in either order. */
  lemma StatusAndScoreIndependent(m: MatchRecord, home: int, away: int)
    ensures Started(m).(status := m.status) == m && Completed(m).(status := m.status) == m
    ensures ScoreUpdated(m, home, away).(homeScore := m.homeScore, awayScore := m.awayScore) == m
    ensures ScoreUpdated(Started(m), home, away) == Started(ScoreUpdated(m, home, away))
    ensures ScoreUpdated(Completed(m), home, away) == Completed(ScoreUpdated(m, home, away))
    ensures SameFixture(Started(m), m) && SameFixture(Completed(m), m) && SameFixture(ScoreUpdated(m, home, away), m)
  {
  }

  /** Unlike the Competitions match, this one records a score while still
      scheduled, negative or not. */
  lemma ScoreWithoutKickOff(id: Guid, homeTeamId: Guid, awayTeamId: Guid, seasonId: Guid, startTime: DateTime)
    ensures var m := ScoreUpdated(Constructed(id, homeTeamId, awayTeamId, seasonId, startTime), -1, 0);
      m.status == Scheduled && m.homeScore == Some(-1)
  {
  }

  class Match {
    const id: Guid
    const homeTeamId: Guid
    const awayTeamId: Guid
    const seasonId: Guid
    const startTime: DateTime
    var status: MatchStatus
    var homeScore: Option<int>
    var awayScore: Option<int>

    function Snapshot(): (m: MatchRecord)
      reads this
      ensures m.status == status && m.homeScore == homeScore && m.awayScore == awayScore
    {
      MatchRecord(id, homeTeamId, awayTeamId, seasonId, startTime, status, homeScore, awayScore)
    }

    constructor (id: Guid, homeTeamId: Guid, awayTeamId: Guid, seasonId: Guid, startTime: DateTime)
      ensures Snapshot() == Constructed(id, homeTeamId, awayTeamId, seasonId, startTime)
    {
      this.id := id;
      this.homeTeamId := homeTeamId;
      this.awayTeamId := awayTeamId;
      this.seasonId := seasonId;
      this.startTime := startTime;
      this.status := Scheduled;
      this.homeScore := None;
      this.awayScore := None;
    }

    method Start()
      modifies this
      ensures Snapshot() == Started(old(Snapshot()))
    {
      status := Live;
    }

    method UpdateScore(home: int, away: int)
      modifies this
      ensures Snapshot() == ScoreUpdated(old(Snapshot()), home, away)
    {
      homeScore := Some(home);
      awayScore := Some(away);
    }

    method Finish()
      modifies this
      ensures Snapshot() == Completed(old(Snapshot()))
    {
      status := Finished;
    }
  }
}
