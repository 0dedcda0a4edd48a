/**
 * app/api/admin/export-csv/route.ts: an admin downloads a month's hours per
 * user as CSV. After the session and role checks, the text is a byte order
 * mark, the header line, then one line per user: the name as a quoted
 * field with inner quotes doubled (section 2, rule 7 of RFC 4180), the
 * hours, and the quoted period. Lines end with LF rather than the CRLF of
 * rule 2, as the route writes them.
 *
 * JavaScript's printing of a number is the function `show`; the month is
 * the request's date, already read as a date.
 */
module ExportCsv {
  import opened Values
  import opened Dates
  import opened Schema
  import Text
  import Reports
  import AdminActions

  const Bom: char := '\U{FEFF}'
  const HeaderCells: seq<string> := ["メンバー名", "稼働時間合計(h)", "集計期間"]
  const ContentType: string := "text/csv; charset=utf-8"

  /** `header.join(",")` is the header line as written. */
  lemma HeaderLine()
    ensures Text.Join(HeaderCells, ",") == "メンバー名,稼働時間合計(h),集計期間"
  {
    assert HeaderCells[..2][..1] == ["メンバー名"];
    assert HeaderCells[..2] == ["メンバー名", "稼働時間合計(h)"];
  }

  // ---- Quoted fields -----------------------------------------------------------------

  /** `s.replace(/"/g, '""')`. */
  function Escape(s: string): (r: string)
    ensures |r| >= |s|
    decreases |s|
  {
    if s == [] then []
    else (if s[0] == '"' then "\"\"" else [s[0]]) + Escape(s[1..])
  }

  /** Escaping adds quotes and nothing else. */
  lemma {:induction false} EscapeAddsOnlyQuotes(s: string)
    ensures forall c :: c in Escape(s) ==> c in s || c == '"'
    decreases |s|
  {
    if s != [] {
      EscapeAddsOnlyQuotes(s[1..]);
      assert forall c :: c in s[1..] ==> c in s;
    }
  }

  /** `"${…}"`: the escaped text between two quotes. */
  function Quote(s: string): (q: string)
    ensures |q| >= 2 && q[0] == '"' && q[|q| - 1] == '"'
    ensures forall c :: c in q ==> c in s || c == '"'
  {
    EscapeAddsOnlyQuotes(s);
    "\"" + Escape(s) + "\""
  }

  /**
   * Reads the inside of a quoted field up to its closing quote, a doubled
   * quote standing for one quote; yields the value and the text after the
   * closing quote, or nothing when the field never closes.
   */
  function ReadQuoted(t: string): (r: Option<(string, string)>)
    decreases |t|
  {
    if t == [] then None
    else if t[0] == '"' then
      if |t| >= 2 && t[1] == '"' then
        match ReadQuoted(t[2..])
        case None => None
        case Some((v, rest)) => Some(("\"" + v, rest))
      else Some(("", t[1..]))
    else
      match ReadQuoted(t[1..])
      case None => None
      case Some((v, rest)) => Some(([t[0]] + v, rest))
  }

  /** A CSV reader's view of a field that starts with a quote. */
  function Unquote(field: string): (r: Option<(string, string)>)
    ensures field == [] || field[0] != '"' ==> r.None?
  {
    if field != [] && field[0] == '"' then ReadQuoted(field[1..]) else None
  }

  lemma {:induction false} ReadEscaped(s: string, rest: string)
    requires rest == [] || rest[0] != '"'
    ensures ReadQuoted(Escape(s) + "\"" + rest) == Some((s, rest))
    decreases |s|
  {
    if s == [] {
      assert Escape(s) + "\"" + rest == "\"" + rest;
      assert ("\"" + rest)[1..] == rest;
    } else {
      ReadEscaped(s[1..], rest);
      ReadEscapedStep(s, rest);
    }
  }

  /** One step of `ReadEscaped`: the first character's escape is read back, then the rest as before. */
  lemma ReadEscapedStep(s: string, rest: string)
    requires s != []
    requires ReadQuoted(Escape(s[1..]) + "\"" + rest) == Some((s[1..], rest))
    ensures ReadQuoted(Escape(s) + "\"" + rest) == Some((s, rest))
  {
    if s[0] == '"' {
      ReadEscapedQuote(s, rest);
    } else {
      ReadEscapedPlain(s, rest);
    }
  }

  lemma ReadEscapedQuote(s: string, rest: string)
    requires s != [] && s[0] == '"'
    requires ReadQuoted(Escape(s[1..]) + "\"" + rest) == Some((s[1..], rest))
    ensures ReadQuoted(Escape(s) + "\"" + rest) == Some((s, rest))
  {
    var tail := Escape(s[1..]) + "\"" + rest;
    assert Escape(s) + "\"" + rest == "\"\"" + tail;
    ReadDoubledQuote(tail, s[1..], rest);
    assert "\"" + s[1..] == s;
  }

  lemma ReadEscapedPlain(s: string, rest: string)
    requires s != [] && s[0] != '"'
    requires ReadQuoted(Escape(s[1..]) + "\"" + rest) == Some((s[1..], rest))
    ensures ReadQuoted(Escape(s) + "\"" + rest) == Some((s, rest))
  {
    var tail := Escape(s[1..]) + "\"" + rest;
    assert Escape(s) + "\"" + rest == [s[0]] + tail;
    ReadPlainChar(s[0], tail, s[1..], rest);
    assert [s[0]] + s[1..] == s;
  }

  /** A doubled quote reads as one quote, followed by what the rest reads as. */
  lemma ReadDoubledQuote(tail: string, v: string, after: string)
    requires ReadQuoted(tail) == Some((v, after))
    ensures ReadQuoted("\"\"" + tail) == Some(("\"" + v, after))
  {
    assert ("\"\"" + tail)[2..] == tail;
  }

  /** A character other than a quote reads as itself, followed by what the rest reads as. */
  lemma ReadPlainChar(c: char, tail: string, v: string, after: string)
    requires c != '"' && ReadQuoted(tail) == Some((v, after))
    ensures ReadQuoted([c] + tail) == Some(([c] + v, after))
  {
    assert ([c] + tail)[1..] == tail;
  }

  /**
   * Quoting round-trips: a reader gets the name back, whatever quotes it
   * holds, and stops right after the field.
   */
  lemma QuoteRoundTrip(s: string, rest: string)
    requires rest == [] || rest[0] != '"'
    ensures Unquote(Quote(s) + rest) == Some((s, rest))
  {
    ReadEscaped(s, rest);
    assert (Quote(s) + rest)[1..] == Escape(s) + "\"" + rest;
  }

  // ---- The CSV text ------------------------------------------------------------------

  /** The period cell's text: `${startDate} 〜 ${endDate}`. */
  function Period(start: string, end: string): string {
    start + " 〜 " + end
  }

  /** One user's line: quoted name, hours, quoted period. */
  function Row(u: Reports.UserHours, start: string, end: string, show: real -> string): (line: string)
    ensures line == Quote(u.userName) + "," + show(u.totalHours) + "," + Quote(Period(start, end))
    ensures Unquote(line) == Some((u.userName, "," + show(u.totalHours) + "," + Quote(Period(start, end))))
  {
    var cells := [Quote(u.userName), show(u.totalHours), Quote(Period(start, end))];
    assert cells[..2][..1] == [Quote(u.userName)];
    assert cells[..2] == [Quote(u.userName), show(u.totalHours)];
    assert Text.Join(cells[..2], ",") == Quote(u.userName) + "," + show(u.totalHours);
    assert Text.Join(cells, ",") == Text.Join(cells[..2], ",") + "," + cells[2];
    var after := "," + show(u.totalHours) + "," + Quote(Period(start, end));
    assert after[0] == ',';
    QuoteRoundTrip(u.userName, after);
    assert Text.Join(cells, ",") == Quote(u.userName) + after;
    Text.Join(cells, ",")
  }

  /** The lines of the file: the header, then one line per user in the given order. */
  function Lines(users: seq<Reports.UserHours>, start: string, end: string, show: real -> string): (lines: seq<string>)
    ensures |lines| == |users| + 1
    ensures lines[0] == Text.Join(HeaderCells, ",")
    ensures forall i :: 0 <= i < |users| ==> lines[i + 1] == Row(users[i], start, end, show)
  {
    [Text.Join(HeaderCells, ",")] + seq(|users|, i requires 0 <= i < |users| => Row(users[i], start, end, show))
  }

  /** The response body: the byte order mark, then the lines joined by LF. */
  function Content(users: seq<Reports.UserHours>, start: string, end: string, show: real -> string): (csv: string)
    ensures |csv| >= 1 && csv[0] == Bom
    ensures csv[1..] == Text.Join(Lines(users, start, end, show), "\n")
  {
    [Bom] + Text.Join(Lines(users, start, end, show), "\n")
  }

  /**
   * One line per user: when no name, no printed number and neither end of
   * the period contains a line feed, splitting the body after the byte
   * order mark at LF gives back the header and the users' lines, in order.
   */
  lemma OneLinePerUser(users: seq<Reports.UserHours>, start: string, end: string, show: real -> string)
    requires forall i :: 0 <= i < |users| ==> '\n' !in users[i].userName && '\n' !in show(users[i].totalHours)
    requires '\n' !in start && '\n' !in end
    ensures Text.Split(Content(users, start, end, show)[1..], '\n') == Lines(users, start, end, show)
  {
    var lines := Lines(users, start, end, show);
    HeaderLine();
    assert '\n' !in lines[0];
    forall i | 0 <= i < |lines|
      ensures '\n' !in lines[i]
    {
      if i > 0 {
        var u := users[i - 1];
        assert '\n' !in Period(start, end);
        assert lines[i] == Quote(u.userName) + "," + show(u.totalHours) + "," + Quote(Period(start, end));
      }
    }
    Text.SplitJoin(lines, '\n');
  }

  /** Dates are written with digits and dashes only, so a period never breaks a line. */
  lemma DateHasNoLineFeed(d: Date)
    requires Valid(d)
    ensures '\n' !in Format(d)
  {
    var y := YearText(d.year);
    assert forall c :: c in y ==> c == '-' || Text.IsDigit(c);
    assert Format(d) == y + "-" + Text.Pad2(d.month) + "-" + Text.Pad2(d.day);
  }

  // ---- The route ---------------------------------------------------------------------

  /** `worklog_${startDate.slice(0, 7)}.csv`. */
  function FileName(start: string): string {
    "worklog_" + Text.Take(start, 7) + ".csv"
  }

  /** For a four-digit year, the first seven characters of a month's first day are its `YYYY-MM`. */
  lemma MonthLabel(d: Date)
    requires Valid(d) && 1000 <= d.year <= 9999
    ensures Text.Take(Format(MonthRange(d).0), 7) == Text.Decimal(d.year) + "-" + Text.Pad2(d.month)
  {
    var first := MonthRange(d).0;
    Text.DecimalLength(d.year, 4);
    assert Text.Pow10(3) == 1000 && Text.Pow10(4) == 10000;
    var f := Format(first);
    assert f == Text.Decimal(d.year) + "-" + Text.Pad2(d.month) + "-" + Text.Pad2(1);
    assert f[..7] == Text.Decimal(d.year) + "-" + Text.Pad2(d.month);
  }

  datatype Response =
    | Unauthorized401
    | Forbidden403
    | ServerError500            // a failed query inside the aggregation, caught by the route
    | Csv(body: string, contentType: string, disposition: string)

  /**
   * `POST`: 401 without a session, 403 unless the caller's profile is an
   * admin's, then the month of `target` aggregated over the active
   * rows of `profilesTable` and the `reports` rows, and written as CSV.
   * `queriesOk` is whether the aggregation's two queries succeeded.
   */
  method Post(session: Option<UserId>, profiles: map<UserId, Profile>, target: Date,
              profilesTable: seq<Profile>, reports: seq<Report>, queriesOk: bool, show: real -> string)
    returns (response: Response, hours: seq<Reports.UserHours>)
    requires Valid(target) && Reports.AllDatesValid(reports)
    ensures session.None? ==> response == Unauthorized401
    ensures session.Some? && !AdminActions.IsAdmin(profiles, session.value) ==> response == Forbidden403
    ensures session.Some? && AdminActions.IsAdmin(profiles, session.value) && !queriesOk ==> response == ServerError500
    ensures response.Csv? <==> session.Some? && AdminActions.IsAdmin(profiles, session.value) && queriesOk
    ensures response.Csv? ==>
      var (first, last) := MonthRange(target);
      var roster := Reports.ActiveProfiles(profilesTable);
      |hours| == |roster|
      && (forall i :: 0 <= i < |roster| ==>
            hours[i].userName == roster[i].name
            && hours[i].totalHours == Reports.UserHoursIn(reports, roster[i].id, Next(first), Next(last)))
      && response.body == Content(hours, Format(first), Format(last), show)
      && response.contentType == ContentType
      && response.disposition == "attachment; filename=\"" + FileName(Format(first)) + "\""
  {
    hours := [];
    if session.None? {
      return Unauthorized401, hours;
    }
    if !AdminActions.IsAdmin(profiles, session.value) {
      return Forbidden403, hours;
    }
    if !queriesOk {
      return ServerError500, hours;
    }
    var (first, last) := MonthRange(target);
    hours := Reports.AllUsersMonthlyHours(profilesTable, reports, first, last);
    var startDate, endDate := Format(first), Format(last);
    response := Csv(Content(hours, startDate, endDate, show), ContentType,
                    "attachment; filename=\"" + FileName(startDate) + "\"");
  }
}
