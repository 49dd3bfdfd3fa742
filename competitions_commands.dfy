/** The Competitions module's write side: the tables its command handlers
    read and append to, the handlers' validators, and the handlers that
    create seasons, teams and players, update players, and assign players
    and teams to seasons. The id a new row receives is an input; a league is
    known by its id alone, since no handler here creates one. */
module CompetitionsCommands {
  import opened Common
  import R = Results
  import Caching

  // ---------------------------------------------------------------------
  // Rows and the database

  /** A season of a league; IsCurrent is the only column a handler changes. */
  datatype SeasonRow = SeasonRow(id: Guid, leagueId: Guid, year: string, isCurrent: bool)

  /** A team as CreateTeamCommand describes it. */
  datatype TeamRow = TeamRow(id: Guid, name: string, shortName: string, code: string, logoUrl: string,
                             foundedYear: Option<Int32>, stadium: string)

  /** A player's six properties, which are also CreatePlayerCommand's fields. */
  datatype PlayerDetails = PlayerDetails(name: string, dateOfBirth: Option<DateTime>, nationality: string,
                                         position: string, height: Option<Int32>, weight: Option<Int32>)

  datatype PlayerRow = PlayerRow(id: Guid, details: PlayerDetails)

  /** TeamPlayerSeason: a player's spell at a team during a season. */
  datatype PlayerAssignment = PlayerAssignment(id: Guid, teamId: Guid, playerId: Guid, seasonId: Guid,
                                               shirtNumber: Option<Int32>, startDate: DateTime,
                                               endDate: Option<DateTime>)

  /** LeagueTeamSeason: a team's entry in a league for a season. */
  datatype TeamAssignment = TeamAssignment(id: Guid, leagueId: Guid, teamId: Guid, seasonId: Guid)

  /** The contents of the tables the handlers use. */
  datatype Database = Database(
    leagues: seq<Guid>,
    teams: seq<TeamRow>,
    seasons: seq<SeasonRow>,
    players: seq<PlayerRow>,
    teamPlayerSeasons: seq<PlayerAssignment>,
    leagueTeamSeasons: seq<TeamAssignment>)

  // ---------------------------------------------------------------------
  // Lookups: AnyAsync and FirstOrDefaultAsync / FindAsync

  predicate HasTeam(teams: seq<TeamRow>, id: Guid) {
    exists r | r in teams :: r.id == id
  }

  predicate HasSeason(seasons: seq<SeasonRow>, id: Guid) {
    exists r | r in seasons :: r.id == id
  }

  predicate HasPlayer(players: seq<PlayerRow>, id: Guid) {
    exists r | r in players :: r.id == id
  }

  /** The position of the first row carrying the id, if any. */
  function FirstWithId<T>(rows: seq<T>, idOf: T -> Guid, id: Guid): (r: Option<nat>)
    ensures r.None? <==> forall j | 0 <= j < |rows| :: idOf(rows[j]) != id
    ensures r.Some? ==> r.value < |rows| && idOf(rows[r.value]) == id
    ensures r.Some? ==> forall j | 0 <= j < r.value :: idOf(rows[j]) != id
  {
    if |rows| == 0 then None
    else if idOf(rows[0]) == id then Some(0)
    else
      match FirstWithId(rows[1..], idOf, id)
      case None => None
      case Some(k) => Some(k + 1)
  }

  const SeasonIdOf := (s: SeasonRow) => s.id
  const PlayerIdOf := (p: PlayerRow) => p.id
  const TeamIdOf := (t: TeamRow) => t.id

  /** The league of the season FirstOrDefault finds for the id. */
  function SeasonLeague(seasons: seq<SeasonRow>, id: Guid): Option<Guid> {
    match FirstWithId(seasons, SeasonIdOf, id)
    case None => None
    case Some(k) => Some(seasons[k].leagueId)
  }

  predicate YearTaken(seasons: seq<SeasonRow>, leagueId: Guid, year: string) {
    exists s | s in seasons :: s.leagueId == leagueId && s.year == year
  }

  predicate CodeTaken(teams: seq<TeamRow>, code: string) {
    exists t | t in teams :: t.code == code
  }

  predicate PlayerAssigned(rows: seq<PlayerAssignment>, playerId: Guid, teamId: Guid, seasonId: Guid) {
    exists a | a in rows :: a.playerId == playerId && a.teamId == teamId && a.seasonId == seasonId
  }

  predicate TeamAssigned(rows: seq<TeamAssignment>, leagueId: Guid, teamId: Guid, seasonId: Guid) {
    exists a | a in rows :: a.leagueId == leagueId && a.teamId == teamId && a.seasonId == seasonId
  }

  // ---------------------------------------------------------------------
  // What the handlers keep true of the database

  /** A league has at most one current season. */
  predicate OneCurrentPerLeague(seasons: seq<SeasonRow>) {
    forall i, j | 0 <= i < j < |seasons| && seasons[i].isCurrent && seasons[j].isCurrent ::
      seasons[i].leagueId != seasons[j].leagueId
  }

  /** A league has at most one season of a given year. */
  predicate YearsUnique(seasons: seq<SeasonRow>) {
    forall i, j | 0 <= i < j < |seasons| ::
      seasons[i].leagueId != seasons[j].leagueId || seasons[i].year != seasons[j].year
  }

  predicate CodesUnique(teams: seq<TeamRow>) {
    forall i, j | 0 <= i < j < |teams| :: teams[i].code != teams[j].code
  }

  predicate PlayerAssignmentsUnique(rows: seq<PlayerAssignment>) {
    forall i, j | 0 <= i < j < |rows| ::
      rows[i].playerId != rows[j].playerId || rows[i].teamId != rows[j].teamId || rows[i].seasonId != rows[j].seasonId
  }

  predicate TeamAssignmentsUnique(rows: seq<TeamAssignment>) {
    forall i, j | 0 <= i < j < |rows| ::
      rows[i].leagueId != rows[j].leagueId || rows[i].teamId != rows[j].teamId || rows[i].seasonId != rows[j].seasonId
  }

  /** Every season's league exists, and so does everything an assignment
      names; a team's entry lies in the league of its season. */
  predicate ReferencesResolve(d: Database) {
    && (forall s | s in d.seasons :: s.leagueId in d.leagues)
    && (forall a | a in d.teamPlayerSeasons ::
          HasPlayer(d.players, a.playerId) && HasTeam(d.teams, a.teamId) && HasSeason(d.seasons, a.seasonId))
    && (forall a | a in d.leagueTeamSeasons ::
          HasTeam(d.teams, a.teamId) && a.leagueId in d.leagues && SeasonLeague(d.seasons, a.seasonId) == Some(a.leagueId))
  }

  predicate Consistent(d: Database) {
    && OneCurrentPerLeague(d.seasons) && YearsUnique(d.seasons) && CodesUnique(d.teams)
    && PlayerAssignmentsUnique(d.teamPlayerSeasons) && TeamAssignmentsUnique(d.leagueTeamSeasons)
    && ReferencesResolve(d)
  }

  /** Seasons whose ids and leagues stay in place, with rows possibly added at
      the end, keep every season reference and every season's league. */
  lemma SeasonsKeepIds(s: seq<SeasonRow>, u: seq<SeasonRow>)
    requires |s| <= |u|
    requires forall j | 0 <= j < |s| :: u[j].id == s[j].id && u[j].leagueId == s[j].leagueId
    ensures forall id | HasSeason(s, id) :: HasSeason(u, id)
    ensures forall id | SeasonLeague(s, id).Some? :: SeasonLeague(u, id) == SeasonLeague(s, id)
  {
    forall id | HasSeason(s, id) ensures HasSeason(u, id) {
      var r :| r in s && r.id == id;
      var k :| 0 <= k < |s| && s[k] == r;
      assert u[k] in u;
    }
    forall id | SeasonLeague(s, id).Some? ensures SeasonLeague(u, id) == SeasonLeague(s, id) {
      var k := FirstWithId(s, SeasonIdOf, id).value;
      assert SeasonIdOf(u[k]) == id;
      var m := FirstWithId(u, SeasonIdOf, id);
      assert m.Some?;
      assert m.value == k;
    }
  }

  /** Players whose ids stay in place keep every player reference. */
  lemma PlayersKeepIds(p: seq<PlayerRow>, u: seq<PlayerRow>)
    requires |p| <= |u|
    requires forall j | 0 <= j < |p| :: u[j].id == p[j].id
    ensures forall id | HasPlayer(p, id) :: HasPlayer(u, id)
  {
    forall id | HasPlayer(p, id) ensures HasPlayer(u, id) {
      var r :| r in p && r.id == id;
      var k :| 0 <= k < |p| && p[k] == r;
      assert u[k] in u;
    }
  }

  // ---------------------------------------------------------------------
  // Handler outcomes

  const CreatedStatus := 201
  const NotFoundStatus := 404
  const ConflictStatus := 409

  /** The returned result, the database after SaveChangesAsync, and the cache
      keys removed. */
  datatype Outcome<T> = Outcome(result: R.Result<T>, database: Database, invalidated: set<string>)

  /** A failure returned before anything is written or invalidated. */
  function Refused<T>(d: Database, r: R.Result<T>): Outcome<T> {
    Outcome(r, d, {})
  }

  /** Error.NotFound("<Entity>.NotFound", "<Entity> with ID <id> was not found"). */
  function NotFound(entity: string, id: Guid): R.ErrorDetail {
    R.MakeError(R.NotFoundError, entity + ".NotFound", entity + " with ID " + GuidText(id) + " was not found")
  }

  function SeasonsCacheKey(leagueId: Guid): string { "seasons_" + GuidText(leagueId) }
  function PlayerCacheKey(playerId: Guid): string { "player_" + GuidText(playerId) }
  const PlayersCacheKey := "players_"
  const TeamsCacheKey := "teams_"

  // ---------------------------------------------------------------------
  // FluentValidation rule chains

  /** NotEmpty's default message; property names are shown split into words. */
  function NotEmptyMessage(display: string): string {
    "'" + display + "' must not be empty."
  }

  /** GreaterThan's default message. */
  function GreaterThanMessage(display: string, bound: string): string {
    "'" + display + "' must be greater than '" + bound + "'."
  }

  /** Not blank and at most max characters long. */
  predicate Present(s: string, max: nat) {
    !Blank(s) && |s| <= max
  }

  /** RuleFor(x).NotEmpty().MaximumLength(max).WithMessage(m): WithMessage
      replaces only MaximumLength's message, so a blank text is reported with
      NotEmpty's default message and an over-long one with m; a blank text
      that is also over-long gets both. */
  function TextRule(s: string, display: string, max: nat, m: string): (failed: seq<string>)
    ensures failed == [] <==> Present(s, max)
    ensures Blank(s) ==> failed[0] == NotEmptyMessage(display)
    ensures !Blank(s) && |s| > max ==> failed == [m]
    ensures |failed| <= 2
  {
    (if Blank(s) then [NotEmptyMessage(display)] else []) + (if |s| > max then [m] else [])
  }

  /** RuleFor(x).GreaterThan(lo).LessThanOrEqualTo(hi).When(x.HasValue).WithMessage(m):
      the condition guards both comparisons, and the message replaces only
      the second one's, so a value at or below lo gets GreaterThan's default
      message and a value above hi gets m. */
  function RangeRule(v: Option<int>, display: string, lo: int, loText: string, hi: int, m: string): (failed: seq<string>)
    ensures failed == [] <==> (v.Some? ==> lo < v.value <= hi)
    ensures v.Some? && v.value <= lo ==> failed[0] == GreaterThanMessage(display, loText)
    ensures v.Some? && lo < v.value && v.value > hi ==> failed == [m]
    ensures |failed| <= 2
  {
    if v.None? then []
    else (if v.value <= lo then [GreaterThanMessage(display, loText)] else []) + (if v.value > hi then [m] else [])
  }

  /** RuleFor(x).NotEmpty().WithMessage(m) on an identifier. */
  function IdRule(id: Guid, m: string): (failed: seq<string>)
    ensures failed == [] <==> id != EmptyGuid
    ensures id == EmptyGuid ==> failed == [m]
  {
    if id == EmptyGuid then [m] else []
  }

  // ---------------------------------------------------------------------
  // CreateSeasonCommand

  datatype CreateSeasonCommand = CreateSeasonCommand(leagueId: Guid, year: string, isCurrent: bool)

  predicate IsDigit(c: char) { '0' <= c <= '9' }

  /** Four digits starting at position i. */
  predicate FourDigitsAt(s: string, i: nat) {
    i + 4 <= |s| && forall k | i <= k < i + 4 :: IsDigit(s[k])
  }

  /** The regex anchor `$`: the end of the text, or a final line feed. */
  predicate EndsAt(s: string, i: nat) {
    i == |s| || (i + 1 == |s| && s[i] == '\n')
  }

  /** ^\d{4}\/\d{4}$|^\d{4}-\d{4}$|^\d{4}$ */
  predicate YearPattern(s: string) {
    FourDigitsAt(s, 0)
    && (EndsAt(s, 4) || (|s| > 4 && (s[4] == '/' || s[4] == '-') && FourDigitsAt(s, 5) && EndsAt(s, 9)))
  }

  /** The Year rule: NotEmpty, MaximumLength(20) and Matches. */
  predicate YearRule(s: string) {
    !Blank(s) && |s| <= 20 && YearPattern(s)
  }

  /** The pattern alone decides the Year rule: a matching text is at most ten
      characters long and starts with a digit. */
  lemma YearRuleIsPattern(s: string)
    ensures YearRule(s) <==> YearPattern(s)
    ensures YearPattern(s) ==> 4 <= |s| <= 10
  {
    if YearPattern(s) {
      assert IsDigit(s[0]) && !IsWhiteSpace(s[0]);
    }
  }

  /** The three accepted shapes, and the line feed `$` lets through. */
  lemma YearExamples()
    ensures YearPattern("2023/2024") && YearPattern("2023-2024") && YearPattern("2023")
    ensures YearPattern("2023\n")
    ensures !YearPattern("23/24") && !YearPattern("2023/24") && !YearPattern("2023 ")
  {
    assert FourDigitsAt("2023/2024", 5);
    assert FourDigitsAt("2023-2024", 5);
    assert !FourDigitsAt("23/24", 0) by { assert !IsDigit("23/24"[2]); }
    assert !FourDigitsAt("2023/24", 5);
  }

  const YearTooLong := "Year is required and must not exceed 20 characters"
  const YearBadFormat := "Year must be in format YYYY/YYYY, YYYY-YYYY, or YYYY"

  /** CreateSeasonCommandValidator: the messages of the failing validators, in
      rule order. The Year chain is NotEmpty (default message),
      MaximumLength(20) and Matches, each with its own message. */
  function CreateSeasonFailures(c: CreateSeasonCommand): (failed: seq<string>)
    ensures failed == [] <==> c.leagueId != EmptyGuid && YearPattern(c.year)
    ensures c.leagueId == EmptyGuid ==> failed[0] == "League ID is required"
    ensures c.leagueId != EmptyGuid && !Blank(c.year) && |c.year| <= 20 && !YearPattern(c.year) ==>
      failed == [YearBadFormat]
    ensures Blank(c.year) ==> NotEmptyMessage("Year") in failed && YearBadFormat in failed
  {
    YearRuleIsPattern(c.year);
    IdRule(c.leagueId, "League ID is required")
    + (if Blank(c.year) then [NotEmptyMessage("Year")] else [])
    + (if |c.year| > 20 then [YearTooLong] else [])
    + (if !YearPattern(c.year) then [YearBadFormat] else [])
  }

  /** The season with IsCurrent cleared when it is a current season of the league. */
  function Unmark(s: SeasonRow, leagueId: Guid): SeasonRow {
    if s.leagueId == leagueId && s.isCurrent then s.(isCurrent := false) else s
  }

  function Unmarked(seasons: seq<SeasonRow>, leagueId: Guid): (r: seq<SeasonRow>)
    ensures |r| == |seasons|
    ensures forall j | 0 <= j < |r| :: r[j] == Unmark(seasons[j], leagueId)
  {
    seq(|seasons|, j requires 0 <= j < |seasons| => Unmark(seasons[j], leagueId))
  }

  function YearExists(year: string): R.ErrorDetail {
    R.MakeError(R.ConflictError, "Season.YearExists", "A season with year '" + year + "' already exists for this league")
  }

  /** CreateSeasonCommandHandler.Handle. */
  function CreateSeason(d: Database, c: CreateSeasonCommand, newId: Guid): Outcome<Guid> {
    if c.leagueId !in d.leagues then Refused(d, R.FailureOf(NotFound("League", c.leagueId), NotFoundStatus))
    else if YearTaken(d.seasons, c.leagueId, c.year) then Refused(d, R.FailureOf(YearExists(c.year), ConflictStatus))
    else
      var kept := if c.isCurrent then Unmarked(d.seasons, c.leagueId) else d.seasons;
      Outcome(R.Success(newId, CreatedStatus),
              d.(seasons := kept + [SeasonRow(newId, c.leagueId, c.year, c.isCurrent)]),
              {SeasonsCacheKey(c.leagueId)})
  }

  /** An unknown league gives 404 and a taken year 409, both changing
      nothing; otherwise one season is added with the request's values, the
      seasons of other leagues stay as they were, and the league's existing
      seasons lose IsCurrent exactly when the new one is current. */
  lemma SeasonCreation(d: Database, c: CreateSeasonCommand, newId: Guid)
    ensures var o := CreateSeason(d, c, newId);
      && (c.leagueId !in d.leagues ==>
            o.result.statusCode == NotFoundStatus && o.database == d && o.invalidated == {})
      && (c.leagueId in d.leagues && YearTaken(d.seasons, c.leagueId, c.year) ==>
            o.result.statusCode == ConflictStatus && o.database == d && o.invalidated == {})
      && (o.result.isSuccess <==> c.leagueId in d.leagues && !YearTaken(d.seasons, c.leagueId, c.year))
    ensures var o := CreateSeason(d, c, newId);
      o.result.isSuccess ==>
        var s := o.database.seasons;
        && o.result.value == Some(newId) && o.result.statusCode == CreatedStatus
        && o.database == d.(seasons := s)
        && |s| == |d.seasons| + 1 && s[|d.seasons|] == SeasonRow(newId, c.leagueId, c.year, c.isCurrent)
        && (forall j | 0 <= j < |d.seasons| && d.seasons[j].leagueId != c.leagueId :: s[j] == d.seasons[j])
        && (forall j | 0 <= j < |d.seasons| ::
              s[j].(isCurrent := d.seasons[j].isCurrent) == d.seasons[j]
              && (s[j].isCurrent <==> d.seasons[j].isCurrent && (d.seasons[j].leagueId != c.leagueId || !c.isCurrent)))
  {
  }

  /** A new current season is its league's only current season. */
  lemma NewCurrentSeasonIsTheOnlyOne(d: Database, c: CreateSeasonCommand, newId: Guid)
    requires c.isCurrent && CreateSeason(d, c, newId).result.isSuccess
    ensures var s := CreateSeason(d, c, newId).database.seasons;
      forall j | 0 <= j < |s| && s[j].leagueId == c.leagueId && s[j].isCurrent :: j == |s| - 1
  {
  }

  lemma CreateSeasonKeepsConsistent(d: Database, c: CreateSeasonCommand, newId: Guid)
    requires Consistent(d)
    ensures Consistent(CreateSeason(d, c, newId).database)
  {
    var o := CreateSeason(d, c, newId);
    if o.result.isSuccess {
      var s := o.database.seasons;
      var n := |d.seasons|;
      var added := SeasonRow(newId, c.leagueId, c.year, c.isCurrent);
      assert s == (if c.isCurrent then Unmarked(d.seasons, c.leagueId) else d.seasons) + [added];
      forall i, j | 0 <= i < j < |s| && s[i].isCurrent && s[j].isCurrent
        ensures s[i].leagueId != s[j].leagueId
      {
        if j == n {
          assert s[i].leagueId != c.leagueId || !c.isCurrent;
          assert c.isCurrent;
        } else {
          assert d.seasons[i].isCurrent && d.seasons[j].isCurrent;
        }
      }
      forall i, j | 0 <= i < j < |s| ensures s[i].leagueId != s[j].leagueId || s[i].year != s[j].year {
        if j == n {
          assert d.seasons[i] in d.seasons;
        }
      }
      SeasonsKeepIds(d.seasons, s);
      forall x | x in s ensures x.leagueId in d.leagues {
        var k :| 0 <= k < |s| && s[k] == x;
        if k < n {
          assert d.seasons[k] in d.seasons;
        }
      }
    }
  }

  // ---------------------------------------------------------------------
  // CreateTeamCommand

  datatype CreateTeamCommand = CreateTeamCommand(name: string, shortName: string, code: string, logoUrl: string,
                                                 foundedYear: Option<Int32>, stadium: string)

  /** CreateTeamCommandValidator; currentYear is the clock's year when the
      validator is built. */
  function CreateTeamFailures(c: CreateTeamCommand, currentYear: int): (failed: seq<string>)
    ensures failed == [] <==>
      && Present(c.name, 200) && Present(c.shortName, 100) && Present(c.code, 10) && Present(c.logoUrl, 500)
      && Present(c.stadium, 200) && (c.foundedYear.Some? ==> 1800 < c.foundedYear.value <= currentYear)
    ensures |failed| <= 12
  {
    var name := TextRule(c.name, "Name", 200, "Team name is required and must not exceed 200 characters");
    var shortName := TextRule(c.shortName, "Short Name", 100, "Short name is required and must not exceed 100 characters");
    var code := TextRule(c.code, "Code", 10, "Code is required and must not exceed 10 characters");
    var logoUrl := TextRule(c.logoUrl, "Logo Url", 500, "Logo URL is required and must not exceed 500 characters");
    var foundedYear := RangeRule(OptionalInt(c.foundedYear), "Founded Year", 1800, "1800", currentYear,
                                 "Founded year must be between 1800 and current year");
    var stadium := TextRule(c.stadium, "Stadium", 200, "Stadium is required and must not exceed 200 characters");
    name + shortName + code + logoUrl + foundedYear + stadium
  }

  function CodeExists(code: string): R.ErrorDetail {
    R.MakeError(R.ConflictError, "Team.CodeExists", "A team with code '" + code + "' already exists")
  }

  /** CreateTeamCommandHandler.Handle. */
  function CreateTeam(d: Database, c: CreateTeamCommand, newId: Guid): Outcome<Guid> {
    if CodeTaken(d.teams, c.code) then Refused(d, R.FailureOf(CodeExists(c.code), ConflictStatus))
    else
      Outcome(R.Success(newId, CreatedStatus),
              d.(teams := d.teams + [TeamRow(newId, c.name, c.shortName, c.code, c.logoUrl, c.foundedYear, c.stadium)]),
              {TeamsCacheKey})
  }

  /** A taken code gives 409 and adds nothing; otherwise exactly the
      request's team is added. */
  lemma TeamCreation(d: Database, c: CreateTeamCommand, newId: Guid)
    ensures var o := CreateTeam(d, c, newId);
      && (o.result.isSuccess <==> !CodeTaken(d.teams, c.code))
      && (!o.result.isSuccess ==> o.result.statusCode == ConflictStatus && o.database == d && o.invalidated == {})
      && (o.result.isSuccess ==>
            && o.result == R.Success(newId, CreatedStatus)
            && o.database == d.(teams := d.teams + [TeamRow(newId, c.name, c.shortName, c.code, c.logoUrl,
                                                            c.foundedYear, c.stadium)]))
  {
  }

  lemma CreateTeamKeepsConsistent(d: Database, c: CreateTeamCommand, newId: Guid)
    requires Consistent(d)
    ensures Consistent(CreateTeam(d, c, newId).database)
  {
    var o := CreateTeam(d, c, newId);
    if o.result.isSuccess {
      var t := o.database.teams;
      forall i, j | 0 <= i < j < |t| ensures t[i].code != t[j].code {
        if j == |d.teams| {
          assert d.teams[i] in d.teams;
        }
      }
      forall id | HasTeam(d.teams, id) ensures HasTeam(t, id) {
        var r :| r in d.teams && r.id == id;
        assert r in t;
      }
    }
  }

  // ---------------------------------------------------------------------
  // CreatePlayerCommand and UpdatePlayerCommand

  /** CreatePlayerCommandValidator; now is the clock when the validator is built. */
  function CreatePlayerFailures(c: PlayerDetails, now: DateTime): (failed: seq<string>)
    ensures failed == [] <==> PlayerDetailsValid(c, now)
  {
    TextRule(c.name, "Name", 200, "Player name is required and must not exceed 200 characters")
    + TextRule(c.nationality, "Nationality", 100, "Nationality is required and must not exceed 100 characters")
    + TextRule(c.position, "Position", 50, "Position is required and must not exceed 50 characters")
    + RangeRule(OptionalInt(c.height), "Height", 0, "0", 300, "Height must be between 1 and 300 cm")
    + RangeRule(OptionalInt(c.weight), "Weight", 0, "0", 200, "Weight must be between 1 and 200 kg")
    + (if c.dateOfBirth.Some? && !(c.dateOfBirth.value < now) then ["Date of birth must be in the past"] else [])
  }

  function OptionalInt(v: Option<Int32>): Option<int> {
    if v.Some? then Some(v.value as int) else None
  }

  /** What both player validators demand of the six fields. */
  predicate PlayerDetailsValid(c: PlayerDetails, now: DateTime) {
    && Present(c.name, 200) && Present(c.nationality, 100) && Present(c.position, 50)
    && (c.height.Some? ==> 1 <= c.height.value <= 300)
    && (c.weight.Some? ==> 1 <= c.weight.value <= 200)
    && (c.dateOfBirth.Some? ==> c.dateOfBirth.value < now)
  }

  datatype UpdatePlayerCommand = UpdatePlayerCommand(id: Guid, details: PlayerDetails)

  /** UpdatePlayerCommandValidator: the Id rule, then the same six rules as
      CreatePlayerCommandValidator, which it repeats word for word. */
  function UpdatePlayerFailures(c: UpdatePlayerCommand, now: DateTime): (failed: seq<string>)
    ensures failed == [] <==> c.id != EmptyGuid && PlayerDetailsValid(c.details, now)
  {
    IdRule(c.id, "Player ID is required") + CreatePlayerFailures(c.details, now)
  }

  const PlayerNameMessage := "Player name is required and must not exceed 200 characters"

  /** On details that are otherwise valid, only the name rule can report. */
  lemma OnlyNameRuleReports(d: PlayerDetails, now: DateTime, name: string)
    requires PlayerDetailsValid(d, now)
    ensures CreatePlayerFailures(d.(name := name), now) == TextRule(name, "Name", 200, PlayerNameMessage)
  {
    var e := d.(name := name);
    assert TextRule(e.nationality, "Nationality", 100, "Nationality is required and must not exceed 100 characters") == [];
    assert TextRule(e.position, "Position", 50, "Position is required and must not exceed 50 characters") == [];
  }

  /** The name rule's three outcomes on an otherwise valid update: an empty
      name gets NotEmpty's default message, an over-long one the rule's own
      message, and an empty id only the id message. */
  lemma UpdatePlayerNameMessages(d: PlayerDetails, now: DateTime, id: Guid)
    requires PlayerDetailsValid(d, now) && id != EmptyGuid
    ensures UpdatePlayerFailures(UpdatePlayerCommand(EmptyGuid, d), now) == ["Player ID is required"]
    ensures UpdatePlayerFailures(UpdatePlayerCommand(id, d.(name := "")), now) == ["'Name' must not be empty."]
    ensures UpdatePlayerFailures(UpdatePlayerCommand(id, d.(name := seq(201, _ => 'x'))), now) == [PlayerNameMessage]
  {
    var long := seq(201, _ => 'x');
    assert !IsWhiteSpace(long[0]);
    assert NotEmptyMessage("Name") == "'Name' must not be empty.";
    OnlyNameRuleReports(d, now, "");
    OnlyNameRuleReports(d, now, long);
  }

  /** CreatePlayerCommandHandler.Handle: no check, one insert. */
  function CreatePlayer(d: Database, c: PlayerDetails, newId: Guid): Outcome<Guid> {
    Outcome(R.Success(newId, CreatedStatus), d.(players := d.players + [PlayerRow(newId, c)]), {PlayersCacheKey})
  }

  /** UpdatePlayerCommandHandler.Handle: all six properties overwritten. */
  function UpdatePlayer(d: Database, c: UpdatePlayerCommand): Outcome<()> {
    match FirstWithId(d.players, PlayerIdOf, c.id)
    case None => Refused(d, R.FailureOf(NotFound("Player", c.id), NotFoundStatus))
    case Some(k) =>
      Outcome(R.SuccessNoValue(R.NoContentStatus),
              d.(players := d.players[k := PlayerRow(d.players[k].id, c.details)]),
              {PlayerCacheKey(c.id), PlayersCacheKey})
  }

  /** An unknown id gives 404 and changes nothing; a known one gets exactly
      the request's six values, absent ones included, keeps its id, and no
      other player changes. */
  lemma PlayerUpdate(d: Database, c: UpdatePlayerCommand)
    ensures var o := UpdatePlayer(d, c);
      && (o.result.isSuccess <==> HasPlayer(d.players, c.id))
      && (!o.result.isSuccess ==> o.result.statusCode == NotFoundStatus && o.database == d && o.invalidated == {})
      && (o.result.isSuccess ==>
            var p := o.database.players;
            && o.result.statusCode == R.NoContentStatus
            && o.database == d.(players := p) && |p| == |d.players|
            && (exists k | 0 <= k < |p| :: p[k] == PlayerRow(c.id, c.details))
            && (forall j | 0 <= j < |p| :: p[j].id == d.players[j].id)
            && (forall j | 0 <= j < |p| && p[j] != d.players[j] :: p[j] == PlayerRow(c.id, c.details)))
  {
    var found := FirstWithId(d.players, PlayerIdOf, c.id);
    if HasPlayer(d.players, c.id) {
      var r :| r in d.players && r.id == c.id;
      var k :| 0 <= k < |d.players| && d.players[k] == r;
      assert PlayerIdOf(d.players[k]) == c.id;
    }
    if found.Some? {
      assert d.players[found.value] in d.players;
    }
  }

  lemma CreatePlayerKeepsConsistent(d: Database, c: PlayerDetails, newId: Guid)
    requires Consistent(d)
    ensures Consistent(CreatePlayer(d, c, newId).database)
  {
    PlayersKeepIds(d.players, CreatePlayer(d, c, newId).database.players);
  }

  lemma UpdatePlayerKeepsConsistent(d: Database, c: UpdatePlayerCommand)
    requires Consistent(d)
    ensures Consistent(UpdatePlayer(d, c).database)
  {
    PlayersKeepIds(d.players, UpdatePlayer(d, c).database.players);
  }

  // ---------------------------------------------------------------------
  // AssignPlayerToTeamCommand

  datatype AssignPlayerToTeamCommand = AssignPlayerToTeamCommand(
    playerId: Guid, teamId: Guid, seasonId: Guid, shirtNumber: Option<Int32>, startDate: DateTime,
    endDate: Option<DateTime>)

  /** AssignPlayerToTeamCommandValidator. A DateTime is empty when it is the
      default value, tick 0. */
  function AssignPlayerFailures(c: AssignPlayerToTeamCommand): (failed: seq<string>)
    ensures failed == [] <==>
      && c.playerId != EmptyGuid && c.teamId != EmptyGuid && c.seasonId != EmptyGuid
      && c.startDate != 0 && AssignmentDatesAndShirt(c.shirtNumber, c.startDate, c.endDate)
  {
    IdRule(c.playerId, "Player ID is required")
    + IdRule(c.teamId, "Team ID is required")
    + IdRule(c.seasonId, "Season ID is required")
    + RangeRule(OptionalInt(c.shirtNumber), "Shirt Number", 0, "0", 99, "Shirt number must be between 1 and 99")
    + (if c.startDate == 0 then ["Start date is required"] else [])
    + (if c.endDate.Some? && !(c.endDate.value > c.startDate) then ["End date must be after start date"] else [])
  }

  /** A shirt number from 1 to 99, and an end strictly after the start. */
  predicate AssignmentDatesAndShirt(shirtNumber: Option<Int32>, startDate: DateTime, endDate: Option<DateTime>) {
    (shirtNumber.Some? ==> 1 <= shirtNumber.value <= 99) && (endDate.Some? ==> startDate < endDate.value)
  }

  const PlayerAlreadyAssigned :=
    R.MakeError(R.ConflictError, "Player.AlreadyAssigned", "Player is already assigned to this team for this season")

  function AssignmentOf(c: AssignPlayerToTeamCommand, newId: Guid): PlayerAssignment {
    PlayerAssignment(newId, c.teamId, c.playerId, c.seasonId, c.shirtNumber, c.startDate, c.endDate)
  }

  /** AssignPlayerToTeamCommandHandler.Handle. */
  function AssignPlayerToTeam(d: Database, c: AssignPlayerToTeamCommand, newId: Guid): Outcome<Guid> {
    if !HasPlayer(d.players, c.playerId) then Refused(d, R.FailureOf(NotFound("Player", c.playerId), NotFoundStatus))
    else if !HasTeam(d.teams, c.teamId) then Refused(d, R.FailureOf(NotFound("Team", c.teamId), NotFoundStatus))
    else if !HasSeason(d.seasons, c.seasonId) then Refused(d, R.FailureOf(NotFound("Season", c.seasonId), NotFoundStatus))
    else if PlayerAssigned(d.teamPlayerSeasons, c.playerId, c.teamId, c.seasonId) then
      Refused(d, R.FailureOf(PlayerAlreadyAssigned, ConflictStatus))
    else
      Outcome(R.Success(newId, CreatedStatus),
              d.(teamPlayerSeasons := d.teamPlayerSeasons + [AssignmentOf(c, newId)]),
              {PlayerCacheKey(c.playerId), PlayersCacheKey})
  }

  /** The first of player, team and season that is missing is reported with
      404; an existing triple gives 409; all of these change nothing.
      Otherwise exactly the request's assignment is added. */
  lemma PlayerAssignment404Order(d: Database, c: AssignPlayerToTeamCommand, newId: Guid)
    ensures var o := AssignPlayerToTeam(d, c, newId);
      && (!HasPlayer(d.players, c.playerId) ==> o.result == R.FailureOf(NotFound("Player", c.playerId), NotFoundStatus))
      && (HasPlayer(d.players, c.playerId) && !HasTeam(d.teams, c.teamId) ==>
            o.result == R.FailureOf(NotFound("Team", c.teamId), NotFoundStatus))
      && (HasPlayer(d.players, c.playerId) && HasTeam(d.teams, c.teamId) && !HasSeason(d.seasons, c.seasonId) ==>
            o.result == R.FailureOf(NotFound("Season", c.seasonId), NotFoundStatus))
      && (!o.result.isSuccess ==> o.database == d && o.invalidated == {})
      && (o.result.isSuccess <==>
            HasPlayer(d.players, c.playerId) && HasTeam(d.teams, c.teamId) && HasSeason(d.seasons, c.seasonId)
            && !PlayerAssigned(d.teamPlayerSeasons, c.playerId, c.teamId, c.seasonId))
      && (o.result.isSuccess ==>
            && o.result == R.Success(newId, CreatedStatus)
            && o.database == d.(teamPlayerSeasons := d.teamPlayerSeasons + [AssignmentOf(c, newId)]))
  {
  }

  /** Every assignment a validated request adds has a shirt number from 1
      to 99 and an end after its start, so a table holding only such rows
      keeps holding only such rows. */
  lemma ValidatedAssignmentsWellFormed(d: Database, c: AssignPlayerToTeamCommand, newId: Guid)
    requires AssignPlayerFailures(c) == []
    requires forall a | a in d.teamPlayerSeasons :: AssignmentDatesAndShirt(a.shirtNumber, a.startDate, a.endDate)
    ensures forall a | a in AssignPlayerToTeam(d, c, newId).database.teamPlayerSeasons ::
      AssignmentDatesAndShirt(a.shirtNumber, a.startDate, a.endDate)
  {
  }

  lemma AssignPlayerKeepsConsistent(d: Database, c: AssignPlayerToTeamCommand, newId: Guid)
    requires Consistent(d)
    ensures Consistent(AssignPlayerToTeam(d, c, newId).database)
  {
    var o := AssignPlayerToTeam(d, c, newId);
    if o.result.isSuccess {
      var a := o.database.teamPlayerSeasons;
      forall i, j | 0 <= i < j < |a|
        ensures a[i].playerId != a[j].playerId || a[i].teamId != a[j].teamId || a[i].seasonId != a[j].seasonId
      {
        if j == |d.teamPlayerSeasons| {
          assert d.teamPlayerSeasons[i] in d.teamPlayerSeasons;
        }
      }
    }
  }

  // ---------------------------------------------------------------------
  // AssignTeamToLeagueSeasonCommand

  datatype AssignTeamToLeagueSeasonCommand = AssignTeamToLeagueSeasonCommand(teamId: Guid, leagueId: Guid, seasonId: Guid)

  function AssignTeamFailures(c: AssignTeamToLeagueSeasonCommand): (failed: seq<string>)
    ensures failed == [] <==> c.teamId != EmptyGuid && c.leagueId != EmptyGuid && c.seasonId != EmptyGuid
    ensures |failed| <= 3
  {
    IdRule(c.teamId, "Team ID is required")
    + IdRule(c.leagueId, "League ID is required")
    + IdRule(c.seasonId, "Season ID is required")
  }

  const LeagueMismatch :=
    R.MakeError(R.ValidationError, "Season.LeagueMismatch", "Season does not belong to the specified league")

  const TeamAlreadyAssigned :=
    R.MakeError(R.ConflictError, "Team.AlreadyAssigned", "Team is already assigned to this league for this season")

  /** AssignTeamToLeagueSeasonCommandHandler.Handle. */
  function AssignTeamToLeagueSeason(d: Database, c: AssignTeamToLeagueSeasonCommand, newId: Guid): Outcome<Guid> {
    if !HasTeam(d.teams, c.teamId) then Refused(d, R.FailureOf(NotFound("Team", c.teamId), NotFoundStatus))
    else if c.leagueId !in d.leagues then Refused(d, R.FailureOf(NotFound("League", c.leagueId), NotFoundStatus))
    else if SeasonLeague(d.seasons, c.seasonId).None? then
      Refused(d, R.FailureOf(NotFound("Season", c.seasonId), NotFoundStatus))
    else if SeasonLeague(d.seasons, c.seasonId).value != c.leagueId then
      Refused(d, R.FailureOf(LeagueMismatch, R.BadRequestStatus))
    else if TeamAssigned(d.leagueTeamSeasons, c.leagueId, c.teamId, c.seasonId) then
      Refused(d, R.FailureOf(TeamAlreadyAssigned, ConflictStatus))
    else
      Outcome(R.Success(newId, CreatedStatus),
              d.(leagueTeamSeasons := d.leagueTeamSeasons + [TeamAssignment(newId, c.leagueId, c.teamId, c.seasonId)]),
              {TeamsCacheKey})
  }

  /** Team, league and season are looked up in that order; a season of
      another league gives 400 and an existing triple 409; every refusal
      changes nothing, and an accepted entry lies in its season's league. */
  lemma TeamAssignmentOutcomes(d: Database, c: AssignTeamToLeagueSeasonCommand, newId: Guid)
    ensures var o := AssignTeamToLeagueSeason(d, c, newId);
      && (!HasTeam(d.teams, c.teamId) ==> o.result == R.FailureOf(NotFound("Team", c.teamId), NotFoundStatus))
      && (HasTeam(d.teams, c.teamId) && c.leagueId !in d.leagues ==>
            o.result == R.FailureOf(NotFound("League", c.leagueId), NotFoundStatus))
      && (HasTeam(d.teams, c.teamId) && c.leagueId in d.leagues && !HasSeason(d.seasons, c.seasonId) ==>
            o.result == R.FailureOf(NotFound("Season", c.seasonId), NotFoundStatus))
      && (HasTeam(d.teams, c.teamId) && c.leagueId in d.leagues && SeasonLeague(d.seasons, c.seasonId).Some?
          && SeasonLeague(d.seasons, c.seasonId) != Some(c.leagueId) ==>
            o.result == R.FailureOf(LeagueMismatch, R.BadRequestStatus))
      && (!o.result.isSuccess ==> o.database == d && o.invalidated == {})
      && (o.result.isSuccess <==>
            HasTeam(d.teams, c.teamId) && c.leagueId in d.leagues && SeasonLeague(d.seasons, c.seasonId) == Some(c.leagueId)
            && !TeamAssigned(d.leagueTeamSeasons, c.leagueId, c.teamId, c.seasonId))
      && (o.result.isSuccess ==>
            o.database == d.(leagueTeamSeasons := d.leagueTeamSeasons + [TeamAssignment(newId, c.leagueId, c.teamId, c.seasonId)]))
  {
    if HasSeason(d.seasons, c.seasonId) {
      var r :| r in d.seasons && r.id == c.seasonId;
      var k :| 0 <= k < |d.seasons| && d.seasons[k] == r;
      assert SeasonIdOf(d.seasons[k]) == c.seasonId;
    } else {
      forall j | 0 <= j < |d.seasons| ensures SeasonIdOf(d.seasons[j]) != c.seasonId {
        assert d.seasons[j] in d.seasons;
      }
    }
  }

  lemma AssignTeamKeepsConsistent(d: Database, c: AssignTeamToLeagueSeasonCommand, newId: Guid)
    requires Consistent(d)
    ensures Consistent(AssignTeamToLeagueSeason(d, c, newId).database)
  {
    var o := AssignTeamToLeagueSeason(d, c, newId);
    if o.result.isSuccess {
      var a := o.database.leagueTeamSeasons;
      forall i, j | 0 <= i < j < |a|
        ensures a[i].leagueId != a[j].leagueId || a[i].teamId != a[j].teamId || a[i].seasonId != a[j].seasonId
      {
        if j == |d.leagueTeamSeasons| {
          assert d.leagueTeamSeasons[i] in d.leagueTeamSeasons;
        }
      }
    }
  }

  // ---------------------------------------------------------------------
  // The database context and the handlers

  class CompetitionsDbContext {
    var leagues: seq<Guid>
    var teams: seq<TeamRow>
    var seasons: seq<SeasonRow>
    var players: seq<PlayerRow>
    var teamPlayerSeasons: seq<PlayerAssignment>
    var leagueTeamSeasons: seq<TeamAssignment>

    function Snapshot(): Database
      reads this
    {
      Database(leagues, teams, seasons, players, teamPlayerSeasons, leagueTeamSeasons)
    }

    constructor (d: Database)
      ensures Snapshot() == d
    {
      leagues := d.leagues;
      teams := d.teams;
      seasons := d.seasons;
      players := d.players;
      teamPlayerSeasons := d.teamPlayerSeasons;
      leagueTeamSeasons := d.leagueTeamSeasons;
    }
  }

  /** CreateSeasonCommandHandler.Handle: clears IsCurrent season by season,
      then adds the new season. */
  method HandleCreateSeason<V>(db: CompetitionsDbContext, cache: Caching.InMemoryCacheService<V>,
                               request: CreateSeasonCommand, newId: Guid)
    returns (r: R.Result<Guid>)
    modifies db, cache
    ensures var o := CreateSeason(old(db.Snapshot()), request, newId);
      r == o.result && db.Snapshot() == o.database && cache.entries == old(cache.entries) - o.invalidated
  {
    if request.leagueId !in db.leagues {
      return R.FailureOf(NotFound("League", request.leagueId), NotFoundStatus);
    }
    if YearTaken(db.seasons, request.leagueId, request.year) {
      return R.FailureOf(YearExists(request.year), ConflictStatus);
    }
    if request.isCurrent {
      var i := 0;
      while i < |db.seasons|
        invariant 0 <= i <= |db.seasons| == |old(db.seasons)|
        invariant forall j | 0 <= j < i :: db.seasons[j] == Unmark(old(db.seasons)[j], request.leagueId)
        invariant forall j | i <= j < |db.seasons| :: db.seasons[j] == old(db.seasons)[j]
        invariant db.Snapshot() == old(db.Snapshot()).(seasons := db.seasons)
        invariant cache.entries == old(cache.entries)
      {
        if db.seasons[i].leagueId == request.leagueId && db.seasons[i].isCurrent {
          db.seasons := db.seasons[i := db.seasons[i].(isCurrent := false)];
        }
        i := i + 1;
      }
      assert db.seasons == Unmarked(old(db.seasons), request.leagueId);
    }
    db.seasons := db.seasons + [SeasonRow(newId, request.leagueId, request.year, request.isCurrent)];
    cache.Remove(SeasonsCacheKey(request.leagueId));
    return R.Success(newId, CreatedStatus);
  }

  /** CreateTeamCommandHandler.Handle. */
  method HandleCreateTeam<V>(db: CompetitionsDbContext, cache: Caching.InMemoryCacheService<V>,
                             request: CreateTeamCommand, newId: Guid)
    returns (r: R.Result<Guid>)
    modifies db, cache
    ensures var o := CreateTeam(old(db.Snapshot()), request, newId);
      r == o.result && db.Snapshot() == o.database && cache.entries == old(cache.entries) - o.invalidated
  {
    if CodeTaken(db.teams, request.code) {
      return R.FailureOf(CodeExists(request.code), ConflictStatus);
    }
    db.teams := db.teams + [TeamRow(newId, request.name, request.shortName, request.code, request.logoUrl,
                                    request.foundedYear, request.stadium)];
    cache.Remove(TeamsCacheKey);
    return R.Success(newId, CreatedStatus);
  }

  /** CreatePlayerCommandHandler.Handle. */
  method HandleCreatePlayer<V>(db: CompetitionsDbContext, cache: Caching.InMemoryCacheService<V>,
                               request: PlayerDetails, newId: Guid)
    returns (r: R.Result<Guid>)
    modifies db, cache
    ensures var o := CreatePlayer(old(db.Snapshot()), request, newId);
      r == o.result && db.Snapshot() == o.database && cache.entries == old(cache.entries) - o.invalidated
  {
    db.players := db.players + [PlayerRow(newId, request)];
    cache.Remove(PlayersCacheKey);
    return R.Success(newId, CreatedStatus);
  }

  /** UpdatePlayerCommandHandler.Handle. */
  method HandleUpdatePlayer<V>(db: CompetitionsDbContext, cache: Caching.InMemoryCacheService<V>,
                               request: UpdatePlayerCommand)
    returns (r: R.Result<()>)
    modifies db, cache
    ensures var o := UpdatePlayer(old(db.Snapshot()), request);
      r == o.result && db.Snapshot() == o.database && cache.entries == old(cache.entries) - o.invalidated
  {
    var found := FirstWithId(db.players, PlayerIdOf, request.id);
    if found.None? {
      return R.FailureOf(NotFound("Player", request.id), NotFoundStatus);
    }
    var k := found.value;
    db.players := db.players[k := PlayerRow(db.players[k].id, request.details)];
    cache.Remove(PlayerCacheKey(request.id));
    cache.Remove(PlayersCacheKey);
    assert cache.entries == old(cache.entries) - {PlayerCacheKey(request.id), PlayersCacheKey};
    return R.SuccessNoValue(R.NoContentStatus);
  }

  /** AssignPlayerToTeamCommandHandler.Handle. */
  method HandleAssignPlayerToTeam<V>(db: CompetitionsDbContext, cache: Caching.InMemoryCacheService<V>,
                                     request: AssignPlayerToTeamCommand, newId: Guid)
    returns (r: R.Result<Guid>)
    modifies db, cache
    ensures var o := AssignPlayerToTeam(old(db.Snapshot()), request, newId);
      r == o.result && db.Snapshot() == o.database && cache.entries == old(cache.entries) - o.invalidated
  {
    if !HasPlayer(db.players, request.playerId) {
      return R.FailureOf(NotFound("Player", request.playerId), NotFoundStatus);
    }
    if !HasTeam(db.teams, request.teamId) {
      return R.FailureOf(NotFound("Team", request.teamId), NotFoundStatus);
    }
    if !HasSeason(db.seasons, request.seasonId) {
      return R.FailureOf(NotFound("Season", request.seasonId), NotFoundStatus);
    }
    if PlayerAssigned(db.teamPlayerSeasons, request.playerId, request.teamId, request.seasonId) {
      return R.FailureOf(PlayerAlreadyAssigned, ConflictStatus);
    }
    db.teamPlayerSeasons := db.teamPlayerSeasons + [AssignmentOf(request, newId)];
    cache.Remove(PlayerCacheKey(request.playerId));
    cache.Remove(PlayersCacheKey);
    assert cache.entries == old(cache.entries) - {PlayerCacheKey(request.playerId), PlayersCacheKey};
    return R.Success(newId, CreatedStatus);
  }

  /** AssignTeamToLeagueSeasonCommandHandler.Handle. */
  method HandleAssignTeamToLeagueSeason<V>(db: CompetitionsDbContext, cache: Caching.InMemoryCacheService<V>,
                                           request: AssignTeamToLeagueSeasonCommand, newId: Guid)
    returns (r: R.Result<Guid>)
    modifies db, cache
    ensures var o := AssignTeamToLeagueSeason(old(db.Snapshot()), request, newId);
      r == o.result && db.Snapshot() == o.database && cache.entries == old(cache.entries) - o.invalidated
  {
    if !HasTeam(db.teams, request.teamId) {
      return R.FailureOf(NotFound("Team", request.teamId), NotFoundStatus);
    }
    if request.leagueId !in db.leagues {
      return R.FailureOf(NotFound("League", request.leagueId), NotFoundStatus);
    }
    var found := FirstWithId(db.seasons, SeasonIdOf, request.seasonId);
    if found.None? {
      return R.FailureOf(NotFound("Season", request.seasonId), NotFoundStatus);
    }
    if db.seasons[found.value].leagueId != request.leagueId {
      return R.FailureOf(LeagueMismatch, R.BadRequestStatus);
    }
    if TeamAssigned(db.leagueTeamSeasons, request.leagueId, request.teamId, request.seasonId) {
      return R.FailureOf(TeamAlreadyAssigned, ConflictStatus);
    }
    db.leagueTeamSeasons := db.leagueTeamSeasons + [TeamAssignment(newId, request.leagueId, request.teamId, request.seasonId)];
    cache.Remove(TeamsCacheKey);
    return R.Success(newId, CreatedStatus);
  }
}
