/** The Competitions module's match reads: GetMatchesQuery (its validator,
    its cache key and its cache-aside handler), MatchService.GetMatchesAsync
    (filter, order, projection and page) and MatchStatsService.GetMatchStatsAsync
    (the home and away records of one match). Both services read the
    Matches, Seasons, Teams and MatchStats tables and change nothing. */
module MatchQueries {
  import opened Common
  import R = Results
  import Sequences
  import Paging
  import Caching
  import CM = CompetitionMatch
  import CC = CompetitionsCommands
  import TeamMatchStats

  /** The four tables the services read, each in storage order. */
  datatype Tables = Tables(
    matches: seq<CM.MatchRecord>,
    seasons: seq<CC.SeasonRow>,
    teams: seq<CC.TeamRow>,
    stats: seq<TeamMatchStats.StatsRecord>)

  // ---------------------------------------------------------------------
  // GetMatchesQuery and its validator

  /** The query: a required season, three optional filters, and the page
      (Page and PageSize come from PagedRequest). */
  datatype GetMatchesQuery = GetMatchesQuery(
    seasonId: Guid,
    teamId: Option<Guid>,
    fromDate: Option<DateTime>,
    toDate: Option<DateTime>,
    page: Int32,
    pageSize: Int32)

  const SeasonIdRequired := "SeasonId is required."
  const PageNotPositive := "Page must be greater than 0."
  const PageSizeNotPositive := "PageSize must be greater than 0."
  const PageSizeTooLarge := "PageSize cannot exceed 100."
  const DatesReversed := "FromDate must be less than or equal to ToDate."

  /** Both dates are given and From lies after To. */
  predicate Reversed(q: GetMatchesQuery) {
    q.fromDate.Some? && q.toDate.Some? && q.fromDate.value > q.toDate.value
  }

  /** GetMatchesQueryValidator: the message of every failing rule, in rule
      order. PageSize has two rules, and at most one of them fails. */
  function GetMatchesFailures(q: GetMatchesQuery): (failed: seq<string>)
    ensures failed == [] <==> q.seasonId != EmptyGuid && q.page > 0 && 0 < q.pageSize <= 100 && !Reversed(q)
    ensures |failed| <= 4
  {
    (if q.seasonId == EmptyGuid then [SeasonIdRequired] else [])
    + (if q.page <= 0 then [PageNotPositive] else [])
    + (if q.pageSize <= 0 then [PageSizeNotPositive] else if q.pageSize > 100 then [PageSizeTooLarge] else [])
    + (if Reversed(q) then [DatesReversed] else [])
  }

  // ---------------------------------------------------------------------
  // MatchService.GetMatchesAsync

  datatype TeamBasicDto = TeamBasicDto(id: Guid, name: string, logoUrl: string)

  datatype ScoreDto = ScoreDto(home: int, away: int)

  datatype MatchDto = MatchDto(
    id: Guid,
    seasonYear: string,
    matchDate: DateTime,
    status: string,
    homeTeam: TeamBasicDto,
    awayTeam: TeamBasicDto,
    score: Option<ScoreDto>,
    venue: string)

  /** What GetMatchesAsync keeps: the season, the team on either side when
      one is given, and both date bounds inclusive when given. */
  predicate Admits(q: GetMatchesQuery, m: CM.MatchRecord) {
    && m.seasonId == q.seasonId
    && (q.teamId.Some? ==> m.homeTeamId == q.teamId.value || m.awayTeamId == q.teamId.value)
    && (q.fromDate.Some? ==> m.matchDate >= q.fromDate.value)
    && (q.toDate.Some? ==> m.matchDate <= q.toDate.value)
  }

  function AdmittedBy(q: GetMatchesQuery): CM.MatchRecord -> bool {
    (m: CM.MatchRecord) => Admits(q, m)
  }

  function InSeason(seasonId: Guid): CM.MatchRecord -> bool {
    (m: CM.MatchRecord) => m.seasonId == seasonId
  }

  function Involves(teamId: Guid): CM.MatchRecord -> bool {
    (m: CM.MatchRecord) => m.homeTeamId == teamId || m.awayTeamId == teamId
  }

  function NotBefore(fromDate: DateTime): CM.MatchRecord -> bool {
    (m: CM.MatchRecord) => m.matchDate >= fromDate
  }

  function NotAfter(toDate: DateTime): CM.MatchRecord -> bool {
    (m: CM.MatchRecord) => m.matchDate <= toDate
  }

  /** The season Where, then each optional Where in the order the service
      adds them. */
  function Filtered(matches: seq<CM.MatchRecord>, q: GetMatchesQuery): seq<CM.MatchRecord> {
    var bySeason := Sequences.Filter(matches, InSeason(q.seasonId));
    var byTeam := if q.teamId.Some? then Sequences.Filter(bySeason, Involves(q.teamId.value)) else bySeason;
    var byFrom := if q.fromDate.Some? then Sequences.Filter(byTeam, NotBefore(q.fromDate.value)) else byTeam;
    if q.toDate.Some? then Sequences.Filter(byFrom, NotAfter(q.toDate.value)) else byFrom
  }

  /** The chained filters keep exactly the matches Admits accepts, in table
      order; a filter not asked for restricts nothing. */
  lemma FilteredIsOneFilter(matches: seq<CM.MatchRecord>, q: GetMatchesQuery)
    ensures Filtered(matches, q) == Sequences.Filter(matches, AdmittedBy(q))
  {
    var pTeam := (m: CM.MatchRecord) => q.teamId.Some? ==> m.homeTeamId == q.teamId.value || m.awayTeamId == q.teamId.value;
    var pFrom := (m: CM.MatchRecord) => q.fromDate.Some? ==> m.matchDate >= q.fromDate.value;
    var pTo := (m: CM.MatchRecord) => q.toDate.Some? ==> m.matchDate <= q.toDate.value;
    var pSeasonTeam := (m: CM.MatchRecord) => InSeason(q.seasonId)(m) && pTeam(m);
    var pUpToFrom := (m: CM.MatchRecord) => pSeasonTeam(m) && pFrom(m);
    var bySeason := Sequences.Filter(matches, InSeason(q.seasonId));
    var team := if q.teamId.Some? then Involves(q.teamId.value) else Involves(0);
    Sequences.FilterWhen(bySeason, q.teamId.Some?, team, pTeam);
    Sequences.FilterFilter(matches, InSeason(q.seasonId), pTeam, pSeasonTeam);
    var byTeam := Sequences.Filter(matches, pSeasonTeam);
    var from := if q.fromDate.Some? then NotBefore(q.fromDate.value) else NotBefore(0);
    Sequences.FilterWhen(byTeam, q.fromDate.Some?, from, pFrom);
    Sequences.FilterFilter(matches, pSeasonTeam, pFrom, pUpToFrom);
    var byFrom := Sequences.Filter(matches, pUpToFrom);
    var to := if q.toDate.Some? then NotAfter(q.toDate.value) else NotAfter(0);
    Sequences.FilterWhen(byFrom, q.toDate.Some?, to, pTo);
    Sequences.FilterFilter(matches, pUpToFrom, pTo, AdmittedBy(q));
  }

  /** OrderBy(m => m.MatchDate). */
  const ByDate: CM.MatchRecord -> int := (m: CM.MatchRecord) => m.matchDate

  /** MatchStatus.ToString(). */
  function StatusText(s: CM.MatchStatus): string {
    match s
    case Scheduled => "Scheduled"
    case Live => "Live"
    case Finished => "Finished"
    case Postponed => "Postponed"
    case Cancelled => "Cancelled"
  }

  /** The Year of the first season with the id, or "" when there is none. */
  function SeasonYear(seasons: seq<CC.SeasonRow>, id: Guid): (year: string)
    ensures !CC.HasSeason(seasons, id) ==> year == ""
    ensures CC.HasSeason(seasons, id) ==> exists s | s in seasons :: s.id == id && s.year == year
  {
    match CC.FirstWithId(seasons, CC.SeasonIdOf, id)
    case None => ""
    case Some(k) => assert seasons[k] in seasons; seasons[k].year
  }

  /** The three lookups of one side's team: its id, or Guid.Empty, and its
      name and logo, or "" each, when no team has the id. */
  function TeamBasic(teams: seq<CC.TeamRow>, id: Guid): (r: TeamBasicDto)
    ensures !CC.HasTeam(teams, id) ==> r == TeamBasicDto(EmptyGuid, "", "")
    ensures CC.HasTeam(teams, id) ==>
      r.id == id && exists t | t in teams :: t.id == id && t.name == r.name && t.logoUrl == r.logoUrl
  {
    match CC.FirstWithId(teams, CC.TeamIdOf, id)
    case None => TeamBasicDto(EmptyGuid, "", "")
    case Some(k) => assert teams[k] in teams; TeamBasicDto(teams[k].id, teams[k].name, teams[k].logoUrl)
  }

  /** The Select: the match's own fields, the looked-up names, and a score
      exactly when both sides have one. A failed lookup never drops the
      match. */
  function Project(t: Tables, m: CM.MatchRecord): (d: MatchDto)
    ensures d.id == m.id && d.matchDate == m.matchDate && d.venue == m.venue && d.status == StatusText(m.status)
    ensures d.score.Some? <==> m.homeScore.Some? && m.awayScore.Some?
    ensures d.score.Some? ==> d.score.value == ScoreDto(m.homeScore.value, m.awayScore.value)
  {
    MatchDto(
      m.id,
      SeasonYear(t.seasons, m.seasonId),
      m.matchDate,
      StatusText(m.status),
      TeamBasic(t.teams, m.homeTeamId),
      TeamBasic(t.teams, m.awayTeamId),
      if m.homeScore.Some? && m.awayScore.Some? then Some(ScoreDto(m.homeScore.value, m.awayScore.value)) else None,
      m.venue)
  }

  function ProjectWith(t: Tables): CM.MatchRecord -> MatchDto {
    (m: CM.MatchRecord) => Project(t, m)
  }

  /** The admitted matches in date order, projected. */
  function Listed(t: Tables, q: GetMatchesQuery): seq<MatchDto> {
    Sequences.Map(Sequences.SortBy(Filtered(t.matches, q), ByDate), ProjectWith(t))
  }

  /** GetMatchesAsync: filter, order by date, project, then ToPagedListAsync.
      The page reports the requested page number, the number of admitted
      matches and the page count derived from it, and holds at most
      PageSize items. */
  function GetMatches(t: Tables, q: GetMatchesQuery): (p: Paging.PagedList<MatchDto>)
    ensures p.pageNumber == q.page
    ensures p.totalCount == |Sequences.Filter(t.matches, AdmittedBy(q))|
    ensures p.totalPages == Paging.TotalPages(|Sequences.Filter(t.matches, AdmittedBy(q))|, q.pageSize)
    ensures |p.items| <= Max(0, q.pageSize)
  {
    FilteredIsOneFilter(t.matches, q);
    Paging.CreatePage(Listed(t, q), q.page, q.pageSize)
  }

  /** Every listed match is an admitted match of the table, and the count
      is the number of admitted matches, whatever the page. */
  lemma GetMatchesSound(t: Tables, q: GetMatchesQuery)
    ensures GetMatches(t, q).totalCount == |Sequences.Filter(t.matches, AdmittedBy(q))|
    ensures forall d | d in GetMatches(t, q).items :: exists m | m in t.matches :: Admits(q, m) && d == Project(t, m)
  {
    FilteredIsOneFilter(t.matches, q);
    forall d | d in GetMatches(t, q).items ensures exists m | m in t.matches :: Admits(q, m) && d == Project(t, m) {
      ListedFromAdmitted(t, q, d);
    }
  }

  lemma ListedFromAdmitted(t: Tables, q: GetMatchesQuery, d: MatchDto)
    requires d in Paging.Page(Listed(t, q), q.page, q.pageSize)
    ensures exists m | m in t.matches :: Admits(q, m) && d == Project(t, m)
  {
    var listed := Listed(t, q);
    Paging.PageElementsFromSource(listed, q.page, q.pageSize, d);
    var filtered := Filtered(t.matches, q);
    var sorted := Sequences.SortBy(filtered, ByDate);
    var i :| 0 <= i < |listed| && listed[i] == d;
    var m := sorted[i];
    assert m in multiset(sorted);
    assert m in filtered;
    FilteredIsOneFilter(t.matches, q);
    assert AdmittedBy(q)(m);
  }

  /** A page lists its matches by date, earliest first. */
  lemma GetMatchesAscending(t: Tables, q: GetMatchesQuery)
    requires q.page >= 1 && q.pageSize >= 1
    ensures var items := GetMatches(t, q).items;
      forall i, j | 0 <= i < j < |items| :: items[i].matchDate <= items[j].matchDate
  {
    var listed := Listed(t, q);
    var date := (d: MatchDto) => d.matchDate;
    assert Sequences.SortedBy(listed, date);
    Paging.PageKeepsOrder(listed, q.page, q.pageSize, date);
  }

  /** A query the validator accepts gets at most PageSize ≤ 100 matches and
      a defined page count. */
  lemma ValidQueryPage(t: Tables, q: GetMatchesQuery)
    requires GetMatchesFailures(q) == []
    ensures |GetMatches(t, q).items| <= q.pageSize <= 100
    ensures GetMatches(t, q).totalPages.Some?
  {
  }

  // ---------------------------------------------------------------------
  // The cache key

  /** Fields separated by '_'. */
  function Join(fields: seq<string>): string {
    if |fields| == 0 then ""
    else if |fields| == 1 then fields[0]
    else fields[0] + "_" + Join(fields[1..])
  }

  predicate NoUnderscore(s: string) {
    forall i | 0 <= i < |s| :: s[i] != '_'
  }

  /** Text before the first '_' is fixed by the whole. */
  lemma SplitAtFirst(a: string, b: string, x: string, y: string)
    requires NoUnderscore(a) && NoUnderscore(b)
    requires a + "_" + x == b + "_" + y
    ensures a == b && x == y
  {
    var u, v := a + "_" + x, b + "_" + y;
    var k := Min(|a|, |b|);
    assert u[k] == (a + "_")[k] && v[k] == (b + "_")[k];
    assert a == u[..|a|] && b == v[..|b|];
    assert x == u[|a| + 1..] && y == v[|b| + 1..];
  }

  /** Fields free of '_' can be read back from their join. */
  lemma {:induction false} JoinInjective(f: seq<string>, g: seq<string>)
    requires |f| == |g|
    requires forall i | 0 <= i < |f| :: NoUnderscore(f[i]) && NoUnderscore(g[i])
    requires Join(f) == Join(g)
    ensures f == g
  {
    if |f| >= 2 {
      SplitAtFirst(f[0], g[0], Join(f[1..]), Join(g[1..]));
      JoinInjective(f[1..], g[1..]);
      assert f == [f[0]] + f[1..] && g == [g[0]] + g[1..];
    }
  }

  /** The days from 1 January of year 1 to the tick count's day. DateTime
      ticks are never negative; the clamp keeps the function total. */
  function DayNumber(t: DateTime): nat {
    if t <= 0 then 0 else t / TicksPerDay
  }

  datatype Date = Date(year: nat, month: nat, day: nat)

  const DaysToMonth365: seq<nat> := [0, 31, 59, 90, 120, 151, 181, 212, 243, 273, 304, 334, 365]
  const DaysToMonth366: seq<nat> := [0, 31, 60, 91, 121, 152, 182, 213, 244, 274, 305, 335, 366]

  /** The month of a 0-based day of the year: the first month m at or after
      `from` whose cumulative day count exceeds the day, December at most. */
  function MonthOf(dayOfYear: nat, toMonth: seq<nat>, from: nat): (m: nat)
    requires |toMonth| == 13 && 1 <= from <= 12 && toMonth[from - 1] <= dayOfYear
    ensures from <= m <= 12 && toMonth[m - 1] <= dayOfYear
    ensures m < 12 ==> dayOfYear < toMonth[m]
    decreases 12 - from
  {
    if from == 12 || dayOfYear < toMonth[from] then from else MonthOf(dayOfYear, toMonth, from + 1)
  }

  /** A day number as a year and a 0-based day within it. */
  datatype YearDay = YearDay(year: nat, dayOfYear: nat, leap: bool)

  /** Whole 400-, 100-, 4- and 1-year periods, as DateTime counts them: the
      last 100-year and the last 1-year period of their cycles are the longer
      ones. */
  function YearOf(n: nat): YearDay {
    var y400 := n / 146097;
    var n1 := n % 146097;
    var y100 := Min(n1 / 36524, 3);
    var n2 := n1 - y100 * 36524;
    var y4 := n2 / 1461;
    var n3 := n2 % 1461;
    var y1 := Min(n3 / 365, 3);
    YearDay(y400 * 400 + y100 * 100 + y4 * 4 + y1 + 1, n3 - y1 * 365, y1 == 3 && (y4 != 24 || y100 == 3))
  }

  /** The calendar date of a day number as DateTime computes it: the year,
      then the month table of a common or a leap year. */
  function CalendarDate(n: nat): Date {
    var yd := YearOf(n);
    var toMonth := if yd.leap then DaysToMonth366 else DaysToMonth365;
    var m := MonthOf(yd.dayOfYear, toMonth, 1);
    Date(yd.year, m, yd.dayOfYear - toMonth[m - 1] + 1)
  }

  function Zeros(n: nat): (s: string)
    ensures |s| == n
  {
    if n == 0 then "" else "0" + Zeros(n - 1)
  }

  /** The decimal digits of n, zero-padded on the left to at least width. */
  function Padded(n: nat, width: nat): string {
    var digits := NatText(n);
    (if |digits| < width then Zeros(width - |digits|) else "") + digits
  }

  /** The format "yyyyMMdd". */
  function DateText(d: Date): string {
    Padded(d.year, 4) + Padded(d.month, 2) + Padded(d.day, 2)
  }

  function DayText(t: DateTime): string {
    DateText(CalendarDate(DayNumber(t)))
  }

  /** The padded fields of the dates below. */
  lemma PaddedFields()
    ensures Padded(1, 4) == "0001" && Padded(2024, 4) == "2024"
    ensures Padded(1, 2) == "01" && Padded(2, 2) == "02" && Padded(29, 2) == "29"
  {
    assert NatText(1) == "1" && NatText(2) == "2" && NatText(29) == "29" && NatText(2024) == "2024";
    assert Zeros(3) == "000" && Zeros(1) == "0";
  }

  /** Day 0 of a year is 1 January, in common and in leap years. */
  lemma NewYearsDay(n: nat)
    requires YearOf(n).dayOfYear == 0
    ensures CalendarDate(n) == Date(YearOf(n).year, 1, 1)
  {
    FirstMonth(DaysToMonth365);
    FirstMonth(DaysToMonth366);
  }

  /** Day 59 of a leap year is 29 February. */
  lemma LeapDay(n: nat)
    requires YearOf(n).leap && YearOf(n).dayOfYear == 59
    ensures CalendarDate(n) == Date(YearOf(n).year, 2, 29)
  {
    MonthOfLeapDay(DaysToMonth366);
  }

  /** Day 0 is 1 January of year 1. */
  lemma FirstDay()
    ensures CalendarDate(0) == Date(1, 1, 1)
  {
    Periods(0, 0);
    YearsOf(0, 0, 0);
    NewYearsDay(0);
  }

  /** Day 738885 is 1 January 2024, the first day of a leap year. */
  lemma NewYear2024()
    ensures CalendarDate(738885) == Date(2024, 1, 1)
  {
    Periods(5, 8400);
    YearsOf(5, 3, 0);
    NewYearsDay(738885);
  }

  /** Day 738944 is the 60th day of 2024, its leap day. */
  lemma LeapDay2024()
    ensures CalendarDate(738944) == Date(2024, 2, 29)
  {
    Periods(5, 8459);
    YearsOf(5, 3, 59);
    LeapDay(738944);
  }

  /** Whole 400-year periods, and less than 100 years after them. */
  lemma Periods(k: nat, rest: nat)
    requires rest < 36524
    ensures (k * 146097 + rest) / 146097 == k && (k * 146097 + rest) % 146097 == rest && rest / 36524 == 0
  {
  }

  /** Whole 4-year periods, then y1 common years and `day` days. */
  lemma YearsOf(k: nat, y1: nat, day: nat)
    requires y1 <= 3 && day < 365
    ensures (k * 1461 + y1 * 365 + day) / 1461 == k && (k * 1461 + y1 * 365 + day) % 1461 == y1 * 365 + day
    ensures (y1 * 365 + day) / 365 == y1
  {
  }

  /** Day 0 of any year is in January. */
  lemma FirstMonth(toMonth: seq<nat>)
    requires |toMonth| == 13 && toMonth[0] == 0 && toMonth[1] == 31
    ensures MonthOf(0, toMonth, 1) == 1
  {
  }

  /** Day 59 of a leap year is in February. */
  lemma MonthOfLeapDay(toMonth: seq<nat>)
    requires |toMonth| == 13 && toMonth[0] == 0 && toMonth[1] == 31 && toMonth[2] == 60
    ensures MonthOf(59, toMonth, 1) == 2
  {
  }

  lemma DateTexts()
    ensures DateText(Date(1, 1, 1)) == "00010101"
    ensures DateText(Date(2024, 1, 1)) == "20240101"
    ensures DateText(Date(2024, 2, 29)) == "20240229"
  {
    PaddedFields();
  }

  /** The first tick is 1 January of year 1. */
  lemma FirstDayText()
    ensures DayText(0) == "00010101"
  {
    assert DayNumber(0) == 0;
    FirstDay();
    DateTexts();
  }

  /** The first tick of 2024. */
  lemma NewYear2024Text()
    ensures DayText(638396640000000000) == "20240101"
  {
    assert DayNumber(638396640000000000) == 738885;
    NewYear2024();
    DateTexts();
  }

  /** Noon on the leap day of 2024 formats as that day. */
  lemma LeapDayText()
    ensures DayText(638447616000000000 + TicksPerDay / 2) == "20240229"
  {
    assert DayNumber(638447616000000000 + TicksPerDay / 2) == 738944;
    LeapDay2024();
    DateTexts();
  }

  /** A nullable value interpolates as "" when null. */
  function GuidField(g: Option<Guid>): string {
    if g.Some? then GuidText(g.value) else ""
  }

  function DayField(d: Option<DateTime>): string {
    if d.Some? then DayText(d.value) else ""
  }

  function TicksField(d: Option<DateTime>): string {
    if d.Some? then DecimalText(d.value) else ""
  }

  /** The key as the handler interpolates it, the dates as "yyyyMMdd". */
  function CacheKeyAsWritten(q: GetMatchesQuery): string {
    Join(["matches", GuidText(q.seasonId), GuidField(q.teamId), DayField(q.fromDate), DayField(q.toDate),
          DecimalText(q.page), DecimalText(q.pageSize)])
  }

  /** Both dates missing, or both on the same calendar day. */
  predicate SameDay(a: Option<DateTime>, b: Option<DateTime>) {
    (a.None? && b.None?) || (a.Some? && b.Some? && DayNumber(a.value) == DayNumber(b.value))
  }

  /** Queries that differ only in the time of day of their dates share a key. */
  lemma AsWrittenKeySharedWithinDay(q1: GetMatchesQuery, q2: GetMatchesQuery)
    requires q1.seasonId == q2.seasonId && q1.teamId == q2.teamId
    requires q1.page == q2.page && q1.pageSize == q2.pageSize
    requires SameDay(q1.fromDate, q2.fromDate) && SameDay(q1.toDate, q2.toDate)
    ensures CacheKeyAsWritten(q1) == CacheKeyAsWritten(q2)
  {
  }

  /** A match at six in the morning; midnight and noon of the same day share
      a key but not a result, so the second query is served the first one's
      page. */
  lemma AsWrittenKeyServesAnotherQuerysPage()
    ensures var fixture := CM.MatchRecord(7, 1, 2, 3, TicksPerDay / 4, CM.Scheduled, None, None, "Anfield");
      var t := Tables([fixture], [], [], []);
      var midnight := GetMatchesQuery(1, None, Some(0), None, 1, 10);
      var noon := midnight.(fromDate := Some(TicksPerDay / 2));
      && CacheKeyAsWritten(midnight) == CacheKeyAsWritten(noon)
      && GetMatches(t, midnight).totalCount == 1
      && GetMatches(t, noon).totalCount == 0
  {
    var fixture := CM.MatchRecord(7, 1, 2, 3, TicksPerDay / 4, CM.Scheduled, None, None, "Anfield");
    var midnight := GetMatchesQuery(1, None, Some(0), None, 1, 10);
    var noon := midnight.(fromDate := Some(TicksPerDay / 2));
    AsWrittenKeySharedWithinDay(midnight, noon);
    var t := Tables([fixture], [], [], []);
    GetMatchesSound(t, midnight);
    GetMatchesSound(t, noon);
    FilterOne(fixture, AdmittedBy(midnight));
    FilterOne(fixture, AdmittedBy(noon));
  }

  lemma FilterOne<T>(x: T, p: T -> bool)
    ensures Sequences.Filter([x], p) == if p(x) then [x] else []
  {
    assert [x][1..] == [];
  }

  /** The key with each date written in full (its tick count), so that the
      key fixes every parameter the page depends on. */
  function CacheKey(q: GetMatchesQuery): string {
    Join(KeyFields(q))
  }

  /** The corrected key's fields, the dates as their full tick counts. */
  function KeyFields(q: GetMatchesQuery): seq<string> {
    ["matches", GuidText(q.seasonId), GuidField(q.teamId), TicksField(q.fromDate), TicksField(q.toDate),
     DecimalText(q.page), DecimalText(q.pageSize)]
  }

  lemma {:induction false} HexNoUnderscore(n: nat, width: nat)
    ensures NoUnderscore(Hex(n, width))
  {
    if width > 0 {
      HexNoUnderscore(n / 16, width - 1);
      var h := Hex(n, width);
      assert h == Hex(n / 16, width - 1) + [HexDigit(n % 16)];
      forall i | 0 <= i < |h| ensures h[i] != '_' {
        if i < width - 1 {
          assert h[i] == Hex(n / 16, width - 1)[i];
        }
      }
    }
  }

  lemma GuidTextNoUnderscore(g: Guid)
    ensures NoUnderscore(GuidText(g))
  {
    HexNoUnderscore(g, 32);
    var h := Hex(g, 32);
    var s := GuidText(g);
    forall i | 0 <= i < |s| ensures s[i] != '_' {
      assert s[i] == '-' || s[i] in h;
    }
  }

  lemma DecimalTextNoUnderscore(n: int)
    ensures NoUnderscore(DecimalText(n))
    ensures |DecimalText(n)| > 0
  {
    if n < 0 {
      var s := DecimalText(n);
      assert forall i | 1 <= i < |s| :: s[i] == NatText(-n)[i - 1];
    }
  }

  /** Two queries share a key only when they are the same query, so a
      cached page is always the page of the query that finds it. */
  lemma CacheKeyInjective(q1: GetMatchesQuery, q2: GetMatchesQuery)
    requires CacheKey(q1) == CacheKey(q2)
    ensures q1 == q2
  {
    var f1 := KeyFields(q1);
    var f2 := KeyFields(q2);
    KeyFieldsClean(q1);
    KeyFieldsClean(q2);
    JoinInjective(f1, f2);
    GuidTextInjective(q1.seasonId, q2.seasonId);
    GuidFieldInjective(q1.teamId, q2.teamId);
    TicksFieldInjective(q1.fromDate, q2.fromDate);
    TicksFieldInjective(q1.toDate, q2.toDate);
    DecimalTextInjective(q1.page, q2.page);
    DecimalTextInjective(q1.pageSize, q2.pageSize);
  }

  /** No field of the corrected key holds the separator. */
  lemma KeyFieldsClean(q: GetMatchesQuery)
    ensures forall i | 0 <= i < |KeyFields(q)| :: NoUnderscore(KeyFields(q)[i])
  {
    GuidTextNoUnderscore(q.seasonId);
    if q.teamId.Some? { GuidTextNoUnderscore(q.teamId.value); }
    if q.fromDate.Some? { DecimalTextNoUnderscore(q.fromDate.value); }
    if q.toDate.Some? { DecimalTextNoUnderscore(q.toDate.value); }
    DecimalTextNoUnderscore(q.page);
    DecimalTextNoUnderscore(q.pageSize);
  }

  lemma GuidFieldInjective(a: Option<Guid>, b: Option<Guid>)
    requires GuidField(a) == GuidField(b)
    ensures a == b
  {
    if a.Some? && b.Some? {
      GuidTextInjective(a.value, b.value);
    }
  }

  lemma TicksFieldInjective(a: Option<DateTime>, b: Option<DateTime>)
    requires TicksField(a) == TicksField(b)
    ensures a == b
  {
    if a.Some? { DecimalTextNoUnderscore(a.value); }
    if b.Some? { DecimalTextNoUnderscore(b.value); }
    if a.Some? && b.Some? {
      DecimalTextInjective(a.value, b.value);
    }
  }

  // ---------------------------------------------------------------------
  // GetMatchesQueryHandler

  /** TimeSpan.FromMinutes(5). */
  const CacheLifetime := 5 * TicksPerMinute

  /** Handle: the page cached under the query's key while it lives, or the
      service's page, cached for five minutes; always a 200 success. */
  method HandleGetMatches(cache: Caching.InMemoryCacheService<Paging.PagedList<MatchDto>>, t: Tables,
                          q: GetMatchesQuery, now: DateTime)
    returns (r: R.Result<Paging.PagedList<MatchDto>>)
    modifies cache
    ensures r.isSuccess && r.statusCode == R.OkStatus && r.value.Some?
    ensures var hit := Caching.Lookup(old(cache.entries), CacheKey(q), now);
      hit.Some? ==> r.value == hit && cache.entries == old(cache.entries)
    ensures var hit := Caching.Lookup(old(cache.entries), CacheKey(q), now);
      hit.None? ==>
        && r.value == Some(GetMatches(t, q))
        && cache.entries == old(cache.entries)[CacheKey(q) := Caching.Stored(Some(GetMatches(t, q)), Some(CacheLifetime), now)]
  {
    var page, _ := cache.GetOrCreate(CacheKey(q), () => Some(GetMatches(t, q)), Some(CacheLifetime), now);
    r := R.Success(page.value, R.OkStatus);
  }

  // ---------------------------------------------------------------------
  // MatchStatsService.GetMatchStatsAsync

  datatype TeamStatsDto = TeamStatsDto(teamId: Guid, stats: TeamMatchStats.TeamStats)

  datatype MatchStatsDto = MatchStatsDto(matchId: Guid, homeTeam: TeamStatsDto, awayTeam: TeamStatsDto)

  function OfMatch(matchId: Guid): TeamMatchStats.StatsRecord -> bool {
    (s: TeamMatchStats.StatsRecord) => s.matchId == matchId
  }

  /** OrderBy(ms => ms.IsHome ? 0 : 1). */
  const HomeFirst: TeamMatchStats.StatsRecord -> int := (s: TeamMatchStats.StatsRecord) => if s.isHome then 0 else 1

  const IsHome: TeamMatchStats.StatsRecord -> bool := (s: TeamMatchStats.StatsRecord) => s.isHome

  const IsAway: TeamMatchStats.StatsRecord -> bool := (s: TeamMatchStats.StatsRecord) => !s.isHome

  function StatsDto(s: TeamMatchStats.StatsRecord): TeamStatsDto {
    TeamStatsDto(s.teamId, s.stats)
  }

  predicate MatchExists(t: Tables, matchId: Guid) {
    exists m | m in t.matches :: m.id == matchId
  }

  /** The stats of a match with a home and an away record; null for an
      unknown match, for a match without records, and for one that lacks
      either side. */
  function GetMatchStats(t: Tables, matchId: Guid): (r: Option<MatchStatsDto>)
    ensures r.Some? <==>
      && MatchExists(t, matchId)
      && (exists s | s in t.stats :: s.matchId == matchId && s.isHome)
      && (exists s | s in t.stats :: s.matchId == matchId && !s.isHome)
    ensures r.Some? ==> r.value.matchId == matchId
  {
    if !MatchExists(t, matchId) then None
    else
      var records := Sequences.Filter(t.stats, OfMatch(matchId));
      var rows := Sequences.SortBy(records, HomeFirst);
      assert forall s :: s in rows <==> s in records by {
        assert multiset(rows) == multiset(records);
        forall s ensures s in rows <==> s in records {
          assert s in rows <==> s in multiset(rows);
          assert s in records <==> s in multiset(records);
        }
      }
      if |rows| == 0 then None
      else
        var home := Sequences.FirstWhere(rows, IsHome);
        var away := Sequences.FirstWhere(rows, IsAway);
        if home.None? || away.None? then None
        else Some(MatchStatsDto(matchId, StatsDto(home.value), StatsDto(away.value)))
  }

  /** The home side is copied from the match's first home record and the
      away side from its first away record, in table order. */
  lemma StatsFromFirstRecords(t: Tables, matchId: Guid)
    requires GetMatchStats(t, matchId).Some?
    ensures var records := Sequences.Filter(t.stats, OfMatch(matchId));
      var home := Sequences.FirstWhere(records, IsHome);
      var away := Sequences.FirstWhere(records, IsAway);
      && home.Some? && away.Some?
      && GetMatchStats(t, matchId).value.homeTeam == StatsDto(home.value)
      && GetMatchStats(t, matchId).value.awayTeam == StatsDto(away.value)
  {
    var records := Sequences.Filter(t.stats, OfMatch(matchId));
    Sequences.SortKeepsFirstOfKey(records, HomeFirst, IsHome);
    Sequences.SortKeepsFirstOfKey(records, HomeFirst, IsAway);
  }
}
