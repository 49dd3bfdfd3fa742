/** The Matches module's statistics of one match: possession, shots, corners,
    fouls and cards for both sides, validated on creation and on every
    update. The counts are .NET `int`s. */
module MatchStatisticsEntity {
  import opened Common

  /** The fourteen statistics, home and away. */
  datatype Statistics = Statistics(
    possessionHome: Int32,
    possessionAway: Int32,
    shotsHome: Int32,
    shotsAway: Int32,
    shotsOnTargetHome: Int32,
    shotsOnTargetAway: Int32,
    cornersHome: Int32,
    cornersAway: Int32,
    foulsHome: Int32,
    foulsAway: Int32,
    yellowCardsHome: Int32,
    yellowCardsAway: Int32,
    redCardsHome: Int32,
    redCardsAway: Int32)

  /** What both validations accept: the two possessions are percentages of
      one whole, every count is non-negative, and no side has more shots on
      target than shots. */
  predicate Plausible(s: Statistics) {
    && s.possessionHome >= 0 && s.possessionAway >= 0 && s.possessionHome + s.possessionAway == 100
    && s.shotsHome >= 0 && s.shotsAway >= 0 && s.shotsOnTargetHome >= 0 && s.shotsOnTargetAway >= 0
    && s.shotsOnTargetHome <= s.shotsHome && s.shotsOnTargetAway <= s.shotsAway
    && s.cornersHome >= 0 && s.cornersAway >= 0 && s.foulsHome >= 0 && s.foulsAway >= 0
    && s.yellowCardsHome >= 0 && s.yellowCardsAway >= 0 && s.redCardsHome >= 0 && s.redCardsAway >= 0
  }

  /** The possession sum is computed in unchecked 32-bit arithmetic, but for
      two non-negative ints it cannot wrap round to 100. */
  lemma WrappedSumIs100(a: Int32, b: Int32)
    requires a >= 0 && b >= 0
    ensures Wrap32(a + b) == 100 <==> a + b == 100
  {
    var r := Wrap32(a + b);
    if a + b >= 0x8000_0000 {
      assert r == a + b - 0x1_0000_0000 by {
        var q := (r - (a + b)) / 0x1_0000_0000;
        assert r - (a + b) == q * 0x1_0000_0000;
        assert -0x1_8000_0000 < r - (a + b) < 0;
      }
    }
  }

  /** Possession as Create and UpdateStatistics test it. */
  predicate PossessionRejected(s: Statistics) {
    s.possessionHome < 0 || s.possessionAway < 0 || Wrap32(s.possessionHome + s.possessionAway) != 100
  }

  lemma PossessionRejectedIff(s: Statistics)
    ensures PossessionRejected(s) <==>
      !(s.possessionHome >= 0 && s.possessionAway >= 0 && s.possessionHome + s.possessionAway == 100)
  {
    if s.possessionHome >= 0 && s.possessionAway >= 0 {
      WrappedSumIs100(s.possessionHome, s.possessionAway);
    }
  }

  const PossessionMessage := "Possession percentages must be non-negative and total 100."

  /** Create's guards in order, as the exception's Message. */
  function CreateRejection(s: Statistics): (e: Option<string>)
    ensures e.None? <==> Plausible(s)
    ensures PossessionRejected(s) ==> e == Some(PossessionMessage)
  {
    PossessionRejectedIff(s);
    if PossessionRejected(s) then Some(PossessionMessage)
    else if s.shotsHome < 0 || s.shotsAway < 0 then Some("Shots cannot be negative.")
    else if s.shotsOnTargetHome < 0 || s.shotsOnTargetAway < 0 then Some("Shots on target cannot be negative.")
    else if s.shotsOnTargetHome > s.shotsHome then Some("Home shots on target cannot exceed total home shots.")
    else if s.shotsOnTargetAway > s.shotsAway then Some("Away shots on target cannot exceed total away shots.")
    else if s.cornersHome < 0 || s.cornersAway < 0 then Some("Corners cannot be negative.")
    else if s.foulsHome < 0 || s.foulsAway < 0 then Some("Fouls cannot be negative.")
    else if s.yellowCardsHome < 0 || s.yellowCardsAway < 0 then Some("Yellow cards cannot be negative.")
    else if s.redCardsHome < 0 || s.redCardsAway < 0 then Some("Red cards cannot be negative.")
    else None
  }

  /** UpdateStatistics' guards: the same rules grouped into fewer checks,
      with other messages. */
  function UpdateRejection(s: Statistics): (e: Option<string>)
    ensures e.None? <==> Plausible(s)
    ensures PossessionRejected(s) ==> e == Some(PossessionMessage)
  {
    PossessionRejectedIff(s);
    if PossessionRejected(s) then Some(PossessionMessage)
    else if s.shotsHome < 0 || s.shotsAway < 0 || s.shotsOnTargetHome < 0 || s.shotsOnTargetAway < 0 then
      Some("Shot statistics cannot be negative.")
    else if s.shotsOnTargetHome > s.shotsHome || s.shotsOnTargetAway > s.shotsAway then
      Some("Shots on target cannot exceed total shots.")
    else if s.cornersHome < 0 || s.cornersAway < 0 || s.foulsHome < 0 || s.foulsAway < 0 then
      Some("Corners and fouls cannot be negative.")
    else if s.yellowCardsHome < 0 || s.yellowCardsAway < 0 || s.redCardsHome < 0 || s.redCardsAway < 0 then
      Some("Cards cannot be negative.")
    else None
  }

  /** Create and UpdateStatistics accept exactly the same statistics; only
      the message of a rejection can differ. */
  lemma CreateAndUpdateAgree(s: Statistics)
    ensures CreateRejection(s).None? <==> UpdateRejection(s).None?
  {
  }

  /** The messages do differ: twelve home shots with 13 on target. */
  lemma MessagesDiffer()
    ensures var s := Statistics(50, 50, 12, 0, 13, 0, 0, 0, 0, 0, 0, 0, 0, 0);
      CreateRejection(s) == Some("Home shots on target cannot exceed total home shots.")
      && UpdateRejection(s) == Some("Shots on target cannot exceed total shots.")
  {
    var s := Statistics(50, 50, 12, 0, 13, 0, 0, 0, 0, 0, 0, 0, 0, 0);
    assert !PossessionRejected(s) by {
      PossessionRejectedIff(s);
    }
  }

  class MatchStatistics {
    const id: Guid
    const matchId: Guid
    var possessionHome: Int32
    var possessionAway: Int32
    var shotsHome: Int32
    var shotsAway: Int32
    var shotsOnTargetHome: Int32
    var shotsOnTargetAway: Int32
    var cornersHome: Int32
    var cornersAway: Int32
    var foulsHome: Int32
    var foulsAway: Int32
    var yellowCardsHome: Int32
    var yellowCardsAway: Int32
    var redCardsHome: Int32
    var redCardsAway: Int32

    function Values(): Statistics
      reads this
    {
      Statistics(possessionHome, possessionAway, shotsHome, shotsAway, shotsOnTargetHome, shotsOnTargetAway,
                 cornersHome, cornersAway, foulsHome, foulsAway, yellowCardsHome, yellowCardsAway,
                 redCardsHome, redCardsAway)
    }

    predicate Valid()
      reads this
    {
      Plausible(Values())
    }

    /** The private constructor: every field as given. */
    constructor (id: Guid, matchId: Guid, s: Statistics)
      ensures this.id == id && this.matchId == matchId && Values() == s
    {
      this.id := id;
      this.matchId := matchId;
      possessionHome, possessionAway := s.possessionHome, s.possessionAway;
      shotsHome, shotsAway := s.shotsHome, s.shotsAway;
      shotsOnTargetHome, shotsOnTargetAway := s.shotsOnTargetHome, s.shotsOnTargetAway;
      cornersHome, cornersAway := s.cornersHome, s.cornersAway;
      foulsHome, foulsAway := s.foulsHome, s.foulsAway;
      yellowCardsHome, yellowCardsAway := s.yellowCardsHome, s.yellowCardsAway;
      redCardsHome, redCardsAway := s.redCardsHome, s.redCardsAway;
    }

    /** MatchStatistics.Create. */
    static method Create(id: Guid, matchId: Guid, s: Statistics) returns (r: Fallible<MatchStatistics>)
      ensures CreateRejection(s).Some? ==> r == Throws(CreateRejection(s).value)
      ensures CreateRejection(s).None? ==>
        r.Ok? && fresh(r.value) && r.value.Valid() && r.value.matchId == matchId && r.value.Values() == s
    {
      var rejection := CreateRejection(s);
      if rejection.Some? {
        return Throws(rejection.value);
      }
      var stats := new MatchStatistics(id, matchId, s);
      return Ok(stats);
    }

    /** UpdateStatistics: throws before assigning anything, or overwrites all
      fourteen values. */
    method UpdateStatistics(s: Statistics) returns (r: Fallible<()>)
      modifies this
      ensures UpdateRejection(s).Some? ==> r == Throws(UpdateRejection(s).value) && Values() == old(Values())
      ensures UpdateRejection(s).None? ==> r == Ok(()) && Values() == s && Valid()
      ensures old(Valid()) ==> Valid()
    {
      var rejection := UpdateRejection(s);
      if rejection.Some? {
        return Throws(rejection.value);
      }
      possessionHome, possessionAway := s.possessionHome, s.possessionAway;
      shotsHome, shotsAway := s.shotsHome, s.shotsAway;
      shotsOnTargetHome, shotsOnTargetAway := s.shotsOnTargetHome, s.shotsOnTargetAway;
      cornersHome, cornersAway := s.cornersHome, s.cornersAway;
      foulsHome, foulsAway := s.foulsHome, s.foulsAway;
      yellowCardsHome, yellowCardsAway := s.yellowCardsHome, s.yellowCardsAway;
      redCardsHome, redCardsAway := s.redCardsHome, s.redCardsAway;
      assert Values() == s;
      return Ok(());
    }
  }
}
