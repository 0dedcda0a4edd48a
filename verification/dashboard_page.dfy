/**
 * The server logic of app/dashboard/page.tsx: the login gate, the
 * automatic creation of a missing profile, the target date, the caller's
 * own monthly hours (with the same one-day shift as the admin list), the
 * admin-only monthly list and the split of the day's summaries.
 */
module DashboardPage {
  import opened Values
  import opened Dates
  import Text
  import opened Schema
  import opened Reports
  import DashboardStats

  /** The signed-in user as the auth provider reports it. */
  datatype AuthUser = AuthUser(id: UserId, email: Option<string>)

  datatype PageStart =
    | RedirectToLogin
    | RedirectToProfileError   // after signing the user out
    | Proceed(profile: Profile)

  const DefaultUserName: string := "ユーザー"

  /** `user.email?.split("@")[0] || "ユーザー"`: the email's local part, or the default name when that is empty or absent. */
  function ProvisionedName(email: Option<string>): (name: string)
    ensures name != ""
    ensures email.Some? && email.value != "" && email.value[0] != '@' ==>
      Text.IsPrefix(name, email.value) && '@' !in name
    ensures email.None? ==> name == DefaultUserName
  {
    match email
    case None => DefaultUserName
    case Some(e) =>
      var local := Text.FirstSegment(e, '@');
      if local != "" then local else DefaultUserName
  }

  /** An email beginning with its local part gives exactly that part as the name. */
  lemma ProvisionedNameOfAddress(local: string, domain: string)
    requires local != "" && '@' !in local
    ensures ProvisionedName(Some(local + "@" + domain)) == local
  {
    var e := local + "@" + domain;
    assert e[..|local|] == local && e[|local|] == '@';
  }

  /** The row inserted for a user who has no profile yet. */
  function NewProfile(user: AuthUser, now: Timestamp): (p: Profile)
    ensures p.id == user.id && p.role == Member && p.name == ProvisionedName(user.email)
    ensures p.createdAt == now && p.updatedAt == now
    ensures p.lineUserId.None? && p.lineLinkingCode.None? && p.lineCodeExpiresAt.None? && p.lineLinkedAt.None?
  {
    Profile(user.id, OrText(user.email, ""), ProvisionedName(user.email), Member, now, now,
      None, None, None, None, true)
  }

  /**
   * The start of the page: no user goes to the login page; a user without a
   * profile gets one, and when the insert fails (`insertOk` false) is signed
   * out and sent to the error page with nothing written.
   */
  method StartPage(db: Store, user: Option<AuthUser>, insertOk: bool, now: Timestamp) returns (start: PageStart)
    requires db.Valid()
    modifies db
    ensures db.Valid()
    ensures db.identities == old(db.identities) && db.reports == old(db.reports)
    ensures user.None? ==> start == RedirectToLogin && db.profiles == old(db.profiles)
    ensures user.Some? && user.value.id in old(db.profiles) ==>
      start == Proceed(old(db.profiles)[user.value.id]) && db.profiles == old(db.profiles)
    ensures user.Some? && user.value.id !in old(db.profiles) && insertOk ==>
      start == Proceed(NewProfile(user.value, now))
      && db.profiles == old(db.profiles)[user.value.id := NewProfile(user.value, now)]
    ensures user.Some? && user.value.id !in old(db.profiles) && !insertOk ==>
      start == RedirectToProfileError && db.profiles == old(db.profiles)
  {
    if user.None? {
      return RedirectToLogin;
    }
    var u := user.value;
    if u.id in db.profiles {
      return Proceed(db.profiles[u.id]);
    }
    if !insertOk {
      return RedirectToProfileError;
    }
    var p := NewProfile(u, now);
    db.profiles := db.profiles[u.id := p];
    start := Proceed(p);
  }

  /** `params.date || getTodayDate()`: the date parameter when given, else today; an unreadable one names no date. */
  function TargetDate(param: Option<string>, today: Date): (d: Option<Date>)
    requires Valid(today)
    ensures !TruthyText(param) ==> d == Some(today)
    ensures d.Some? ==> Valid(d.value)
    ensures forall x :: Valid(x) && x.year >= 0 && param == Some(Format(x)) ==> d == Some(x)
  {
    if TruthyText(param) then
      assert forall x :: Valid(x) && x.year >= 0 && param == Some(Format(x)) ==> Parse(param.value) == Some(x) by {
        forall x | Valid(x) && x.year >= 0 && param == Some(Format(x)) {
          ParseFormat(x);
        }
      }
      Parse(param.value)
    else Some(today)
  }

  /** The caller's reports dated in [lo, hi]: `getReportsByUserAndDateRange`. */
  function UserReportsIn(reports: seq<Report>, user: UserId, lo: Date, hi: Date): (r: seq<Report>)
    requires AllDatesValid(reports) && Valid(lo) && Valid(hi)
    ensures AllDatesValid(r)
    ensures forall i :: 0 <= i < |r| ==> r[i].userId == user && InWindow(r[i].date, lo, hi)
  {
    if reports == [] then []
    else
      var rest := UserReportsIn(reports[..|reports| - 1], user, lo, hi);
      var last := reports[|reports| - 1];
      if last.userId == user && InWindow(last.date, lo, hi) then rest + [last] else rest
  }

  /**
   * The caller's monthly hours: the yesterday totals of their reports dated
   * from the day after the first of the target month to the day after its
   * last day. This is the caller's entry of the admin list.
   */
  function CurrentUserMonthlyHours(reports: seq<Report>, user: UserId, target: Date): (hours: real)
    requires AllDatesValid(reports) && Valid(target)
    ensures var (first, last) := MonthRange(target);
      hours == UserHoursIn(reports, user, Next(first), Next(last))
  {
    var (first, last) := MonthRange(target);
    var mine := UserReportsIn(reports, user, Next(first), Next(last));
    OwnHoursAgree(reports, user, Next(first), Next(last));
    SumYesterdayHours(mine)
  }

  lemma {:induction false} OwnHoursAgree(reports: seq<Report>, user: UserId, lo: Date, hi: Date)
    requires AllDatesValid(reports) && Valid(lo) && Valid(hi)
    ensures SumYesterdayHours(UserReportsIn(reports, user, lo, hi)) == UserHoursIn(reports, user, lo, hi)
    decreases |reports|
  {
    if reports != [] {
      var init := reports[..|reports| - 1];
      var last := reports[|reports| - 1];
      OwnHoursAgree(init, user, lo, hi);
      if last.userId == user && InWindow(last.date, lo, hi) {
        var rest := UserReportsIn(init, user, lo, hi);
        assert (rest + [last])[..|rest|] == rest;
      }
    }
  }

  /** The monthly list: computed for admins only, empty for everyone else. */
  method MonthlyListFor(viewer: Profile, profiles: seq<Profile>, reports: seq<Report>, target: Date)
    returns (list: seq<UserHours>)
    requires Valid(target) && AllDatesValid(reports)
    ensures viewer.role != Admin ==> list == []
    ensures viewer.role == Admin ==> var roster := ActiveProfiles(profiles);
      |list| == |roster|
      && forall i :: 0 <= i < |roster| ==>
        list[i].userId == roster[i].id && list[i].totalHours == CurrentUserMonthlyHours(reports, roster[i].id, target)
  {
    if viewer.role == Admin {
      var (first, last) := MonthRange(target);
      list := AllUsersMonthlyHours(profiles, reports, first, last);
    } else {
      list := [];
    }
  }

  /** The page's split of the day's summaries into not-submitted and submitted users. */
  function SplitSummaries(summaries: seq<ReportSummary>): (split: (seq<ReportSummary>, seq<ReportSummary>))
    ensures forall s :: s in split.0 <==> s in summaries && !s.hasSubmitted
    ensures forall s :: s in split.1 <==> s in summaries && s.hasSubmitted
    ensures multiset(split.0) + multiset(split.1) == multiset(summaries)
  {
    DashboardStats.SubmittedPartition(summaries);
    (DashboardStats.NotSubmitted(summaries), DashboardStats.Submitted(summaries))
  }
}
