/**
 * app/api/admin/export-spreadsheet/route.ts: a month's hours per user
 * written to a new Google spreadsheet with the caller's Google token. The
 * table is the one of the CSV export, as a 2-D array of cells: the header
 * row, then one row of name, hours and period per user. The Sheets API's
 * answers are inputs; the two requests made are returned in order.
 *
 * The route as written lets any signed-in user with a Google token export
 * every user's hours; `GateAsWritten` models that, and `Post` uses `Gate`,
 * which adds the admin check of the CSV export.
 */
module ExportSheet {
  import opened Values
  import opened Dates
  import opened Schema
  import Text
  import Reports
  import AdminActions
  import ExportCsv

  const SheetName: string := "WorkLog"
  const TitlePrefix: string := "WorkHub稼働集計_"
  const TokenRequired: string := "Google account linkage required. Please login with Google."

  /** The parts of the session the route reads: the user and the OAuth provider's token. */
  datatype Session = Session(userId: UserId, providerToken: Option<string>)

  /** A cell of the `values` array, written with `valueInputOption: "RAW"`. */
  datatype Cell = TextCell(text: string) | NumberCell(value: real)

  /** The sheet's rows: `[header, ...rows]`. */
  function SheetValues(users: seq<Reports.UserHours>, start: string, end: string): (rows: seq<seq<Cell>>)
    ensures |rows| == |users| + 1
    ensures |rows[0]| == |ExportCsv.HeaderCells| && forall j :: 0 <= j < |rows[0]| ==> rows[0][j] == TextCell(ExportCsv.HeaderCells[j])
    ensures forall i :: 0 <= i < |users| ==>
      rows[i + 1] == [TextCell(users[i].userName), NumberCell(users[i].totalHours), TextCell(ExportCsv.Period(start, end))]
    ensures forall i :: 0 <= i < |rows| ==> |rows[i]| == 3
  {
    var header := seq(|ExportCsv.HeaderCells|, j requires 0 <= j < |ExportCsv.HeaderCells| => TextCell(ExportCsv.HeaderCells[j]));
    [header] + seq(|users|, i requires 0 <= i < |users| =>
      [TextCell(users[i].userName), NumberCell(users[i].totalHours), TextCell(ExportCsv.Period(start, end))])
  }

  /**
   * The sheet and the CSV carry the same table: each user's CSV line is the
   * sheet row's name quoted, its number printed, and its period quoted,
   * joined by commas; the header line is the header row joined by commas.
   */
  lemma SheetMatchesCsv(users: seq<Reports.UserHours>, start: string, end: string, show: real -> string)
    ensures var rows := SheetValues(users, start, end);
      var lines := ExportCsv.Lines(users, start, end, show);
      (forall i :: 1 <= i < |rows| ==>
        lines[i] == ExportCsv.Quote(rows[i][0].text) + "," + show(rows[i][1].value) + "," + ExportCsv.Quote(rows[i][2].text))
      && lines[0] == Text.Join(ExportCsv.HeaderCells, ",")
      && (forall j :: 0 <= j < 3 ==> rows[0][j].text == ExportCsv.HeaderCells[j])
  {
    var rows: seq<seq<Cell>> := SheetValues(users, start, end);
    var lines: seq<string> := ExportCsv.Lines(users, start, end, show);
    forall i | 1 <= i < |rows|
      ensures lines[i] == ExportCsv.Quote(rows[i][0].text) + "," + show(rows[i][1].value) + "," + ExportCsv.Quote(rows[i][2].text)
    {
      var u := users[i - 1];
      assert rows[i] == [TextCell(u.userName), NumberCell(u.totalHours), TextCell(ExportCsv.Period(start, end))];
      assert lines[i] == ExportCsv.Row(u, start, end, show);
    }
  }

  /** `WorkHub稼働集計_${startDate.slice(0, 7)}`. */
  function Title(start: string): (title: string)
    ensures Text.IsPrefix(TitlePrefix, title) && |title| <= |TitlePrefix| + 7
  {
    var title := TitlePrefix + Text.Take(start, 7);
    assert title[..|TitlePrefix|] == TitlePrefix;
    title
  }

  /** A request to the Sheets API. */
  datatype Call =
    | CreateSpreadsheet(title: string, sheetTitle: string)
    | UpdateValues(spreadsheetId: string, range: string, valueInputOption: string, values: seq<seq<Cell>>)

  /** What `spreadsheets.create` answered: a failure (thrown), or the new spreadsheet. */
  datatype CreateAnswer = CreateFailed | Created(spreadsheetId: string, spreadsheetUrl: Option<string>)

  datatype Response =
    | Unauthorized401
    | Forbidden403
    | TokenRequired400
    | ServerError500            // a failed query or Sheets request, caught by the route
    | Exported(spreadsheetUrl: Option<string>)

  /**
   * After the checks: create the spreadsheet with one sheet named
   * `WorkLog`, then write the values from its cell A1; any failure is a 500.
   */
  function Export(users: seq<Reports.UserHours>, start: string, end: string, create: CreateAnswer, updateOk: bool)
    : (r: (Response, seq<Call>))
    ensures |r.1| >= 1 && r.1[0] == CreateSpreadsheet(Title(start), SheetName)
    ensures create.CreateFailed? ==> r == (ServerError500, [CreateSpreadsheet(Title(start), SheetName)])
    ensures create.Created? ==>
      r.1 == [CreateSpreadsheet(Title(start), SheetName),
              UpdateValues(create.spreadsheetId, SheetName + "!A1", "RAW", SheetValues(users, start, end))]
    ensures r.0.Exported? <==> create.Created? && updateOk
    ensures r.0.Exported? ==> r.0.spreadsheetUrl == create.spreadsheetUrl
    ensures !r.0.Exported? ==> r.0 == ServerError500
  {
    var creation := CreateSpreadsheet(Title(start), SheetName);
    match create
    case CreateFailed => (ServerError500, [creation])
    case Created(id, url) =>
      var calls := [creation, UpdateValues(id, SheetName + "!A1", "RAW", SheetValues(users, start, end))];
      if updateOk then (Exported(url), calls) else (ServerError500, calls)
  }

  // ---- The checks ----------------------------------------------------------------------

  /** The checks as the route writes them: a session, then a provider token; `None` lets the export run. */
  function GateAsWritten(session: Option<Session>): (r: Option<Response>)
    ensures r.None? <==> session.Some? && TruthyText(session.value.providerToken)
    ensures session.None? ==> r == Some(Unauthorized401)
    ensures session.Some? && !TruthyText(session.value.providerToken) ==> r == Some(TokenRequired400)
  {
    if session.None? then Some(Unauthorized401)
    else if !TruthyText(session.value.providerToken) then Some(TokenRequired400)
    else None
  }

  /** As written, a member who signed in with Google passes the checks, and so reads every user's hours. */
  lemma MemberPassesGateAsWritten(profiles: map<UserId, Profile>, user: UserId, token: string)
    requires user in profiles && profiles[user].role == Member && token != ""
    ensures GateAsWritten(Some(Session(user, Some(token)))).None?
    ensures !AdminActions.IsAdmin(profiles, user)
  {
  }

  /** The checks with the admin check of the CSV export added after the session check. */
  function Gate(session: Option<Session>, profiles: map<UserId, Profile>): (r: Option<Response>)
    ensures r.None? <==>
      session.Some? && AdminActions.IsAdmin(profiles, session.value.userId) && TruthyText(session.value.providerToken)
    ensures session.None? ==> r == Some(Unauthorized401)
    ensures session.Some? && !AdminActions.IsAdmin(profiles, session.value.userId) ==> r == Some(Forbidden403)
    ensures session.Some? && AdminActions.IsAdmin(profiles, session.value.userId) && !TruthyText(session.value.providerToken) ==>
      r == Some(TokenRequired400)
  {
    if session.None? then Some(Unauthorized401)
    else if !AdminActions.IsAdmin(profiles, session.value.userId) then Some(Forbidden403)
    else GateAsWritten(session)
  }

  /** The corrected checks refuse exactly the sessions the route lets through without being an admin's. */
  lemma GateClosesTheGap(session: Option<Session>, profiles: map<UserId, Profile>)
    ensures Gate(session, profiles).None? <==>
      GateAsWritten(session).None? && AdminActions.IsAdmin(profiles, session.value.userId)
    ensures GateAsWritten(session).None? && !AdminActions.IsAdmin(profiles, session.value.userId) ==>
      Gate(session, profiles) == Some(Forbidden403)
  {
  }

  // ---- The route -----------------------------------------------------------------------

  /**
   * `POST` with the corrected checks: the month of `target` aggregated over
   * the active rows of `profilesTable` and the `reports` rows (`queriesOk` is
   * whether the aggregation's queries succeeded), then `Export`.
   */
  method Post(session: Option<Session>, profiles: map<UserId, Profile>, target: Date,
              profilesTable: seq<Profile>, reports: seq<Report>, queriesOk: bool, create: CreateAnswer, updateOk: bool)
    returns (response: Response, calls: seq<Call>, hours: seq<Reports.UserHours>)
    requires Valid(target) && Reports.AllDatesValid(reports)
    ensures Gate(session, profiles).Some? ==> response == Gate(session, profiles).value && calls == []
    ensures Gate(session, profiles).None? && !queriesOk ==> response == ServerError500 && calls == []
    ensures Gate(session, profiles).None? && queriesOk ==>
      var (first, last) := MonthRange(target);
      var roster := Reports.ActiveProfiles(profilesTable);
      |hours| == |roster|
      && (forall i :: 0 <= i < |roster| ==>
            hours[i].userName == roster[i].name
            && hours[i].totalHours == Reports.UserHoursIn(reports, roster[i].id, Next(first), Next(last)))
      && (response, calls) == Export(hours, Format(first), Format(last), create, updateOk)
  {
    hours := [];
    var refusal := Gate(session, profiles);
    if refusal.Some? {
      return refusal.value, [], hours;
    }
    if !queriesOk {
      return ServerError500, [], hours;
    }
    var (first, last) := MonthRange(target);
    hours := Reports.AllUsersMonthlyHours(profilesTable, reports, first, last);
    response, calls := Export(hours, Format(first), Format(last), create, updateOk).0,
                       Export(hours, Format(first), Format(last), create, updateOk).1;
  }
}
