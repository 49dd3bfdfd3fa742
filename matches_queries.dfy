/** The Matches module's GetMatchesQuery handler: optional filters on the
    season, a team, the two dates and the status, newest match first, then
    one page with the count of all matches the filters keep. The handler
    reads a MatchDate and a Venue that the Matches entity does not declare,
    so the rows it reads are an abstract record carrying both. */
module MatchesQueries {
  import opened Common
  import R = Results
  import Sequences
  import Paging
  import MM = MatchesMatch

  /** A row of the Matches table as the handler reads it. */
  datatype MatchRow = MatchRow(
    id: Guid,
    seasonId: Guid,
    homeTeamId: Guid,
    awayTeamId: Guid,
    matchDate: DateTime,
    status: MM.MatchStatus,
    homeScore: Option<int>,
    awayScore: Option<int>,
    venue: string)

  /** Every filter is optional; the page defaults to the first ten. */
  datatype GetMatchesQuery = GetMatchesQuery(
    seasonId: Option<Guid>,
    teamId: Option<Guid>,
    fromDate: Option<DateTime>,
    toDate: Option<DateTime>,
    status: Option<string>,
    pageNumber: Int32,
    pageSize: Int32)

  const DefaultQuery := GetMatchesQuery(None, None, None, None, None, 1, 10)

  datatype MatchDto = MatchDto(
    id: Guid,
    seasonId: Guid,
    homeTeamId: Guid,
    awayTeamId: Guid,
    matchDate: DateTime,
    status: string,
    homeScore: Option<int>,
    awayScore: Option<int>,
    venue: string)

  // ---------------------------------------------------------------------
  // Enum.TryParse<MatchStatus>(text, ignoreCase: true)

  /** The enum's underlying values. */
  function Ordinal(s: MM.MatchStatus): int {
    match s
    case Scheduled => 0
    case Live => 1
    case Finished => 2
    case Postponed => 3
  }

  /** MatchStatus.ToString(). */
  function StatusName(s: MM.MatchStatus): string {
    match s
    case Scheduled => "Scheduled"
    case Live => "Live"
    case Finished => "Finished"
    case Postponed => "Postponed"
  }

  function TrimStart(s: string): (r: string)
    ensures |r| <= |s| && r == s[|s| - |r|..]
    ensures |r| > 0 ==> !IsWhiteSpace(r[0])
    ensures (forall i | 0 <= i < |s| :: !IsWhiteSpace(s[i])) ==> r == s
  {
    if |s| > 0 && IsWhiteSpace(s[0]) then TrimStart(s[1..]) else s
  }

  function TrimEnd(s: string): (r: string)
    ensures |r| <= |s| && r == s[..|r|]
    ensures |r| > 0 ==> !IsWhiteSpace(r[|r| - 1])
    ensures (forall i | 0 <= i < |s| :: !IsWhiteSpace(s[i])) ==> r == s
  {
    if |s| > 0 && IsWhiteSpace(s[|s| - 1]) then TrimEnd(s[..|s| - 1]) else s
  }

  /** string.Trim(): the text without leading and trailing white space. */
  function Trim(s: string): (r: string)
    ensures |r| > 0 ==> !IsWhiteSpace(r[0]) && !IsWhiteSpace(r[|r| - 1])
    ensures (forall i | 0 <= i < |s| :: !IsWhiteSpace(s[i])) ==> r == s
  {
    TrimEnd(TrimStart(s))
  }

  predicate IsDigit(c: char) {
    '0' <= c <= '9'
  }

  /** An optional '-' followed by at least one decimal digit. */
  predicate IsNumeral(s: string) {
    if |s| > 0 && s[0] == '-' then AllDigits(s[1..]) else AllDigits(s)
  }

  predicate AllDigits(s: string) {
    |s| > 0 && forall i | 0 <= i < |s| :: IsDigit(s[i])
  }

  /** A text already trimmed is left as it is. */
  lemma TrimKeepsTrimmed(s: string)
    requires |s| > 0 && !IsWhiteSpace(s[0]) && !IsWhiteSpace(s[|s| - 1])
    ensures Trim(s) == s
  {
    assert TrimStart(s) == s;
  }

  /** A text that starts with neither a digit nor '-' is no numeral. */
  lemma LetterNotNumeral(s: string)
    requires |s| > 0 && s[0] != '-' && !IsDigit(s[0])
    ensures !IsNumeral(s)
  {
    assert !AllDigits(s);
  }

  /** Each status name in lower case. */
  function LowerName(st: MM.MatchStatus): string {
    match st
    case Scheduled => "scheduled"
    case Live => "live"
    case Finished => "finished"
    case Postponed => "postponed"
  }

  lemma LowerNameIsLowered(st: MM.MatchStatus)
    ensures LowerAscii(StatusName(st)) == LowerName(st)
  {
    LowersTo(StatusName(st), LowerName(st));
  }

  /** A text lowers to the given one when it does so letter by letter. */
  lemma LowersTo(s: string, lower: string)
    requires |s| == |lower| && forall i | 0 <= i < |s| :: ToLowerAscii(s[i]) == lower[i]
    ensures LowerAscii(s) == lower
  {
  }

  /** The value of the status whose lower-case name is the given text. */
  function LowerNameValue(lower: string): Option<int> {
    if lower == LowerName(MM.Scheduled) then Some(0)
    else if lower == LowerName(MM.Live) then Some(1)
    else if lower == LowerName(MM.Finished) then Some(2)
    else if lower == LowerName(MM.Postponed) then Some(3)
    else None
  }

  lemma LowerNameValueFinds(lower: string)
    ensures forall st :: lower == LowerName(st) ==> LowerNameValue(lower) == Some(Ordinal(st))
    ensures LowerNameValue(lower).Some? ==> exists st :: lower == LowerName(st)
  {
    if LowerNameValue(lower).Some? {
      var st := match LowerNameValue(lower).value
        case 0 => MM.Scheduled
        case 1 => MM.Live
        case 2 => MM.Finished
        case _ => MM.Postponed;
      assert lower == LowerName(st);
    }
  }

  /** The value of the status whose name equals the text ignoring case. */
  function NameValue(s: string): Option<int> {
    LowerNameValue(LowerAscii(s))
  }

  /** The lookup finds a status exactly when the text names one, and then
      the one it names. */
  lemma NameValueFindsNamed(s: string)
    ensures NameValue(s).Some? <==> exists st :: EqualsIgnoreCase(s, StatusName(st))
    ensures forall st :: EqualsIgnoreCase(s, StatusName(st)) ==> NameValue(s) == Some(Ordinal(st))
  {
    var lower := LowerAscii(s);
    LowerNameValueFinds(lower);
    forall st ensures EqualsIgnoreCase(s, StatusName(st)) <==> lower == LowerName(st) {
      LowerNameIsLowered(st);
    }
  }

  /** The status value a text parses to: a numeral within the int range
      gives its number, defined by the enum or not; otherwise a status name
      in any letter case. Surrounding white space is ignored. */
  function ParseStatus(text: string): (r: Option<int>)
    ensures var s := Trim(text);
      && (IsNumeral(s) ==> r == if -0x8000_0000 <= ParseDecimal(s) < 0x8000_0000 then Some(ParseDecimal(s)) else None)
      && (!IsNumeral(s) ==> (r.Some? <==> exists st :: EqualsIgnoreCase(s, StatusName(st))))
      && (!IsNumeral(s) ==> forall st :: EqualsIgnoreCase(s, StatusName(st)) ==> r == Some(Ordinal(st)))
  {
    var s := Trim(text);
    if IsNumeral(s) then
      var n := ParseDecimal(s);
      if -0x8000_0000 <= n < 0x8000_0000 then Some(n) else None
    else
      NameValueFindsNamed(s);
      NameValue(s)
  }

  /** The status filter the query applies: none for a missing or blank
      status, or for one that does not parse. */
  function StatusFilter(q: GetMatchesQuery): Option<int> {
    if q.status.None? || Blank(q.status.value) then None else ParseStatus(q.status.value)
  }

  // ---------------------------------------------------------------------
  // The filters, the order and the page

  /** The season, team and date filters that are supplied hold. */
  predicate FieldsMatch(q: GetMatchesQuery, m: MatchRow) {
    && (q.seasonId.Some? ==> m.seasonId == q.seasonId.value)
    && (q.teamId.Some? ==> m.homeTeamId == q.teamId.value || m.awayTeamId == q.teamId.value)
    && (q.fromDate.Some? ==> m.matchDate >= q.fromDate.value)
    && (q.toDate.Some? ==> m.matchDate <= q.toDate.value)
  }

  /** Every filter that is supplied holds, the status one included. */
  predicate Admits(q: GetMatchesQuery, m: MatchRow) {
    FieldsMatch(q, m) && (StatusFilter(q).Some? ==> Ordinal(m.status) == StatusFilter(q).value)
  }

  function AdmittedBy(q: GetMatchesQuery): MatchRow -> bool {
    (m: MatchRow) => Admits(q, m)
  }

  function InSeason(seasonId: Guid): MatchRow -> bool {
    (m: MatchRow) => m.seasonId == seasonId
  }

  function Involves(teamId: Guid): MatchRow -> bool {
    (m: MatchRow) => m.homeTeamId == teamId || m.awayTeamId == teamId
  }

  function NotBefore(fromDate: DateTime): MatchRow -> bool {
    (m: MatchRow) => m.matchDate >= fromDate
  }

  function NotAfter(toDate: DateTime): MatchRow -> bool {
    (m: MatchRow) => m.matchDate <= toDate
  }

  function HasStatus(value: int): MatchRow -> bool {
    (m: MatchRow) => Ordinal(m.status) == value
  }

  /** The season, team and date Where calls in the order the handler adds them. */
  function ByFields(rows: seq<MatchRow>, q: GetMatchesQuery): seq<MatchRow> {
    var bySeason := if q.seasonId.Some? then Sequences.Filter(rows, InSeason(q.seasonId.value)) else rows;
    var byTeam := if q.teamId.Some? then Sequences.Filter(bySeason, Involves(q.teamId.value)) else bySeason;
    var byFrom := if q.fromDate.Some? then Sequences.Filter(byTeam, NotBefore(q.fromDate.value)) else byTeam;
    if q.toDate.Some? then Sequences.Filter(byFrom, NotAfter(q.toDate.value)) else byFrom
  }

  /** All the Where calls, the status one last. */
  function Filtered(rows: seq<MatchRow>, q: GetMatchesQuery): seq<MatchRow> {
    var status := StatusFilter(q);
    if status.Some? then Sequences.Filter(ByFields(rows, q), HasStatus(status.value)) else ByFields(rows, q)
  }

  lemma ByFieldsIsOneFilter(rows: seq<MatchRow>, q: GetMatchesQuery)
    ensures ByFields(rows, q) == Sequences.Filter(rows, (m: MatchRow) => FieldsMatch(q, m))
  {
    var pSeason := (m: MatchRow) => q.seasonId.Some? ==> m.seasonId == q.seasonId.value;
    var pTeam := (m: MatchRow) => q.teamId.Some? ==> m.homeTeamId == q.teamId.value || m.awayTeamId == q.teamId.value;
    var pFrom := (m: MatchRow) => q.fromDate.Some? ==> m.matchDate >= q.fromDate.value;
    var pTo := (m: MatchRow) => q.toDate.Some? ==> m.matchDate <= q.toDate.value;
    var p2 := (m: MatchRow) => pSeason(m) && pTeam(m);
    var p3 := (m: MatchRow) => p2(m) && pFrom(m);
    var season := if q.seasonId.Some? then InSeason(q.seasonId.value) else InSeason(0);
    Sequences.FilterWhen(rows, q.seasonId.Some?, season, pSeason);
    var bySeason := Sequences.Filter(rows, pSeason);
    var team := if q.teamId.Some? then Involves(q.teamId.value) else Involves(0);
    Sequences.FilterWhen(bySeason, q.teamId.Some?, team, pTeam);
    Sequences.FilterFilter(rows, pSeason, pTeam, p2);
    var byTeam := Sequences.Filter(rows, p2);
    var from := if q.fromDate.Some? then NotBefore(q.fromDate.value) else NotBefore(0);
    Sequences.FilterWhen(byTeam, q.fromDate.Some?, from, pFrom);
    Sequences.FilterFilter(rows, p2, pFrom, p3);
    var byFrom := Sequences.Filter(rows, p3);
    var to := if q.toDate.Some? then NotAfter(q.toDate.value) else NotAfter(0);
    Sequences.FilterWhen(byFrom, q.toDate.Some?, to, pTo);
    Sequences.FilterFilter(rows, p3, pTo, (m: MatchRow) => FieldsMatch(q, m));
  }

  /** The chained Where calls keep exactly what Admits accepts, in table
      order; a filter not supplied, or a status that does not parse,
      restricts nothing. */
  lemma FilteredIsOneFilter(rows: seq<MatchRow>, q: GetMatchesQuery)
    ensures Filtered(rows, q) == Sequences.Filter(rows, AdmittedBy(q))
  {
    var status := StatusFilter(q);
    var fields := (m: MatchRow) => FieldsMatch(q, m);
    var pStatus := (m: MatchRow) => status.Some? ==> Ordinal(m.status) == status.value;
    ByFieldsIsOneFilter(rows, q);
    var st := if status.Some? then HasStatus(status.value) else HasStatus(0);
    Sequences.FilterWhen(Sequences.Filter(rows, fields), status.Some?, st, pStatus);
    Sequences.FilterFilter(rows, fields, pStatus, AdmittedBy(q));
  }

  /** OrderByDescending(m => m.MatchDate), as an ascending key. */
  const Later: MatchRow -> int := (m: MatchRow) => -m.matchDate

  function NewestFirst(rows: seq<MatchRow>, q: GetMatchesQuery): seq<MatchRow> {
    Sequences.SortBy(Filtered(rows, q), Later)
  }

  function ToDto(m: MatchRow): MatchDto {
    MatchDto(m.id, m.seasonId, m.homeTeamId, m.awayTeamId, m.matchDate, StatusName(m.status), m.homeScore,
             m.awayScore, m.venue)
  }

  const Dto: MatchRow -> MatchDto := ToDto

  /** Handle: the count of all kept matches, and the requested page of them,
      newest first; always a success. */
  function Handle(rows: seq<MatchRow>, q: GetMatchesQuery): (r: R.Result<Paging.PagedList<MatchDto>>)
    ensures r.isSuccess && r.statusCode == R.OkStatus && r.value.Some?
    ensures r.value.value.totalCount == |Sequences.Filter(rows, AdmittedBy(q))|
    ensures r.value.value.pageNumber == q.pageNumber
    ensures r.value.value.totalPages == Paging.TotalPages(|Sequences.Filter(rows, AdmittedBy(q))|, q.pageSize)
    ensures |r.value.value.items| <= Max(0, q.pageSize)
  {
    FilteredIsOneFilter(rows, q);
    var sorted := NewestFirst(rows, q);
    var items := Sequences.Map(Paging.Page(sorted, q.pageNumber, q.pageSize), Dto);
    R.Success(Paging.NewPagedList(items, |sorted|, q.pageNumber, q.pageSize), R.OkStatus)
  }

  /** The page is the slice of the newest-first list that starts at
      (PageNumber - 1) * PageSize and holds at most PageSize matches. */
  lemma HandleIsSlice(rows: seq<MatchRow>, q: GetMatchesQuery)
    requires q.pageNumber >= 1 && q.pageSize >= 1
    ensures var items := Handle(rows, q).value.value.items;
      var sorted := NewestFirst(rows, q);
      var offset := Paging.Offset(q.pageNumber, q.pageSize);
      && 0 <= offset
      && |items| == (if offset < |sorted| then Min(q.pageSize, |sorted| - offset) else 0)
      && forall i | 0 <= i < |items| :: offset + i < |sorted| && items[i] == ToDto(sorted[offset + i])
  {
    Paging.OffsetNonNegative(q.pageNumber, q.pageSize);
    MappedPage(NewestFirst(rows, q), q.pageNumber, q.pageSize);
  }

  lemma MappedPage(sorted: seq<MatchRow>, pageNumber: int, pageSize: int)
    requires pageNumber >= 1 && pageSize >= 1
    ensures var items := Sequences.Map(Paging.Page(sorted, pageNumber, pageSize), Dto);
      var offset := Paging.Offset(pageNumber, pageSize);
      && 0 <= offset
      && |items| == (if offset < |sorted| then Min(pageSize, |sorted| - offset) else 0)
      && forall i | 0 <= i < |items| :: offset + i < |sorted| && items[i] == ToDto(sorted[offset + i])
  {
    Paging.OffsetNonNegative(pageNumber, pageSize);
  }

  /** Every listed match passes every supplied filter. */
  lemma HandleSound(rows: seq<MatchRow>, q: GetMatchesQuery)
    ensures forall d | d in Handle(rows, q).value.value.items :: exists m | m in rows :: Admits(q, m) && d == ToDto(m)
  {
    var sorted := NewestFirst(rows, q);
    var page := Paging.Page(sorted, q.pageNumber, q.pageSize);
    var items := Handle(rows, q).value.value.items;
    forall d | d in items ensures exists m | m in rows :: Admits(q, m) && d == ToDto(m) {
      var i :| 0 <= i < |items| && items[i] == d;
      var m := page[i];
      Paging.PageElementsFromSource(sorted, q.pageNumber, q.pageSize, m);
      assert m in multiset(sorted);
      assert m in Filtered(rows, q);
      FilteredIsOneFilter(rows, q);
      assert AdmittedBy(q)(m);
    }
  }

  /** A page lists later matches first. */
  lemma HandleNewestFirst(rows: seq<MatchRow>, q: GetMatchesQuery)
    requires q.pageNumber >= 1 && q.pageSize >= 1
    ensures var items := Handle(rows, q).value.value.items;
      forall i, j | 0 <= i < j < |items| :: items[i].matchDate >= items[j].matchDate
  {
    var sorted := NewestFirst(rows, q);
    Paging.PageKeepsOrder(sorted, q.pageNumber, q.pageSize, Later);
    var page := Paging.Page(sorted, q.pageNumber, q.pageSize);
    var items := Handle(rows, q).value.value.items;
    forall i, j | 0 <= i < j < |items| ensures items[i].matchDate >= items[j].matchDate {
      assert Later(page[i]) <= Later(page[j]);
    }
  }

  /** A status that is not a numeral and names no status filters nothing:
      the answer is the one without a status. */
  lemma UnknownStatusIgnored(rows: seq<MatchRow>, q: GetMatchesQuery)
    requires q.status.Some? && !IsNumeral(Trim(q.status.value))
    requires forall st :: !EqualsIgnoreCase(Trim(q.status.value), StatusName(st))
    ensures Handle(rows, q) == Handle(rows, q.(status := None))
  {
    assert StatusFilter(q) == StatusFilter(q.(status := None));
  }

  /** A status name parses back to its status. */
  lemma StatusNameRoundTrip(st: MM.MatchStatus)
    ensures ParseStatus(StatusName(st)) == Some(Ordinal(st))
  {
    StatusIgnoresCase(StatusName(st), st);
  }

  /** Any spelling of a status name in other letter case parses to that
      status. */
  lemma StatusIgnoresCase(text: string, st: MM.MatchStatus)
    requires EqualsIgnoreCase(text, StatusName(st))
    ensures ParseStatus(text) == Some(Ordinal(st))
  {
    var name := StatusName(st);
    var lower := LowerAscii(name);
    assert |text| == |name| == |lower|;
    assert ToLowerAscii(text[0]) == lower[0] == ToLowerAscii(name[0]);
    assert ToLowerAscii(text[|text| - 1]) == lower[|lower| - 1] == ToLowerAscii(name[|name| - 1]);
    TrimKeepsTrimmed(text);
    LetterNotNumeral(text);
  }

  /** A text whose first letter is not the first letter of a status name in
      any case names no status. */
  lemma FirstLetterDiffers(text: string, st: MM.MatchStatus)
    requires |text| > 0 && ToLowerAscii(text[0]) != ToLowerAscii(StatusName(st)[0])
    ensures !EqualsIgnoreCase(text, StatusName(st))
  {
    assert LowerAscii(text)[0] != LowerAscii(StatusName(st))[0];
  }

  /** A trimmed text that is no numeral and names no status parses to no
      status at all. */
  lemma UnnamedTextNone(text: string)
    requires |text| > 0 && text[0] != '-' && !IsDigit(text[0])
    requires !IsWhiteSpace(text[0]) && !IsWhiteSpace(text[|text| - 1])
    requires forall st :: !EqualsIgnoreCase(text, StatusName(st))
    ensures ParseStatus(text).None?
  {
    TrimKeepsTrimmed(text);
    LetterNotNumeral(text);
  }

  /** "Cancelled", a status of the Competitions module only, is not one here. */
  lemma CancelledNotAStatus()
    ensures ParseStatus("Cancelled").None?
  {
    var text := "Cancelled";
    assert text[0] == 'C' && text[|text| - 1] == 'd';
    CancelledNamesNoStatus(text);
    UnnamedTextNone(text);
  }

  lemma CancelledNamesNoStatus(text: string)
    requires text == "Cancelled"
    ensures forall st :: !EqualsIgnoreCase(text, StatusName(st))
  {
    assert ToLowerAscii(text[0]) == 'c';
    forall st ensures !EqualsIgnoreCase(text, StatusName(st)) {
      FirstLetterDiffers(text, st);
    }
  }

  /** The default query keeps every match and shows the ten newest. */
  lemma DefaultQueryKeepsAll(rows: seq<MatchRow>)
    ensures Handle(rows, DefaultQuery).value.value.totalCount == |rows|
    ensures |Handle(rows, DefaultQuery).value.value.items| == Min(10, |rows|)
    ensures var sorted := NewestFirst(rows, DefaultQuery);
      && |sorted| == |rows|
      && Handle(rows, DefaultQuery).value.value.items == Sequences.Map(sorted[..Min(10, |rows|)], Dto)
  {
    FilterAll(rows, AdmittedBy(DefaultQuery));
    FilteredIsOneFilter(rows, DefaultQuery);
    HandleIsSlice(rows, DefaultQuery);
  }

  /** A filter every element passes changes nothing. */
  lemma {:induction false} FilterAll<T>(s: seq<T>, p: T -> bool)
    requires forall x | x in s :: p(x)
    ensures Sequences.Filter(s, p) == s
  {
    if |s| > 0 {
      FilterAll(s[1..], p);
      assert s == [s[0]] + s[1..];
    }
  }
}
