/**
 * app/api/auth/line/callback/route.ts: the one callback LINE Login returns
 * to. The mode is read back from `state`; provider errors and a missing
 * code are redirected without any call; the token and profile calls, the
 * account service and the session set-up are outcomes given as inputs.
 *
 * Login mode resolves the LINE user to an account through the
 * `user_identities` table, creating an account (and recovering from an
 * "email already registered" answer) when there is no mapping, then
 * records the LINE id on the profile. Link mode attaches the LINE user to
 * the signed-in account. Writes made before a later failure stay: nothing
 * is rolled back.
 *
 * Redirect targets are kept as a path and a decoded query value; the
 * percent-encoding of the query is not modelled.
 */
module LineCallback {
  import opened Values
  import Text
  import opened Schema
  import LineLoginStart

  datatype Mode = Login | Link

  /** `parseModeFromState(state)`: link exactly when the text after the last `_` is `link`. */
  function ParseModeFromState(state: Option<string>): (m: Mode)
    ensures m == Link <==> state.Some? && Text.LastSegment(state.value, '_') == "link"
  {
    if !TruthyText(state) then Login
    else if Text.LastSegment(state.value, '_') == "link" then Link
    else Login
  }

  /**
   * The state written by the start route carries its mode back: for a mode
   * without `_`, the callback runs in link mode exactly when `link` was asked for.
   */
  lemma StateCarriesMode(mode: Option<string>, appUrl: Option<string>, vercelUrl: Option<string>,
                         channelId: Option<string>, stateId: string, nonce: string)
    requires '_' !in LineLoginStart.ModeParam(mode)
    ensures var r := LineLoginStart.Start(mode, appUrl, vercelUrl, channelId, stateId, nonce);
      r.Authorize? ==> (ParseModeFromState(Some(r.params.state)) == Link <==> LineLoginStart.ModeParam(mode) == "link")
  {
    Text.LastSegmentAfterSeparator(stateId, '_', LineLoginStart.ModeParam(mode));
  }

  /** The sign-in action sends a bare random id as `state`, which always reads as login mode. */
  lemma PlainStateIsLogin(stateId: string)
    requires '_' !in stateId && stateId != "link"
    ensures ParseModeFromState(Some(stateId)) == Login
  {
    assert Text.LastSegment(stateId, '_') == stateId;
  }

  // ---- Responses --------------------------------------------------------------------

  /** The decoded query of a redirect. */
  datatype Query = NoQuery | ErrorQuery(error: string) | MessageQuery(message: string)

  datatype Redirect = Redirect(url: string, query: Query)

  /** A handler's result: a redirect (with the e-mail of the account a session was opened for), or an exception. */
  datatype Outcome = Done(redirect: Redirect, sessionEmail: Option<string>) | Thrown(message: string)

  /** Where failures are shown: the settings page in link mode, the error page in login mode. */
  function ErrorPath(mode: Mode): (p: string)
    ensures mode == Link <==> p == "/settings"
  {
    if mode == Link then "/settings" else "/auth/error"
  }

  const NotConfigured: string := "LINE ログインの設定がされていません"
  const TokenFailed: string := "LINE トークン取得に失敗しました: "
  const ProfileFailed: string := "LINE プロフィール取得に失敗しました: "
  const SearchFailed: string := "既存ユーザーの検索に失敗しました"
  const CreateFailed: string := "ユーザー作成に失敗しました: "
  const CreateNoUser: string := "ユーザー作成でエラーが発生しました"
  const SessionFailed: string := "セッション生成に失敗しました"
  const SignInFailed: string := "ログイン処理に失敗しました"
  const LinkInsertFailed: string := "LINE 連携の登録に失敗しました"

  /** The placeholder e-mail of an account created for a LINE user. */
  function LineEmail(uid: string): (e: string)
    ensures Text.IsPrefix("line_", e) && |e| == |uid| + 16
  {
    Text.ConcatParts("line_", uid, "@line.local");
    "line_" + uid + "@line.local"
  }

  // ---- Profile updates --------------------------------------------------------------

  /** A profile after a LINE id is recorded on it: the LINE id, the link time and `updated_at` change, nothing else. */
  function WithLineId(p: Profile, uid: string, now: Timestamp): (q: Profile)
    ensures q.lineUserId == Some(uid) && q.lineLinkedAt == Some(now) && q.updatedAt == now
    ensures q.(lineUserId := p.lineUserId, lineLinkedAt := p.lineLinkedAt, updatedAt := p.updatedAt) == p
  {
    p.(lineUserId := Some(uid), lineLinkedAt := Some(now), updatedAt := now)
  }

  /** `update({line_user_id, line_linked_at, updated_at}).eq("id", id)`: a missing row means nothing changes. */
  function RecordLineId(profiles: map<UserId, Profile>, id: UserId, uid: string, now: Timestamp)
    : (r: map<UserId, Profile>)
    ensures r.Keys == profiles.Keys
    ensures forall k :: k in profiles && k != id ==> r[k] == profiles[k]
    ensures id in profiles ==> r[id] == WithLineId(profiles[id], uid, now)
  {
    if id in profiles then profiles[id := WithLineId(profiles[id], uid, now)] else profiles
  }

  /** The profile inserted for a new LINE account: a member named after the LINE display name. */
  function NewLineProfile(id: UserId, uid: string, displayName: string, now: Timestamp): (p: Profile)
    ensures p.id == id && p.role == Member && p.name == displayName && p.email == LineEmail(uid)
    ensures p.lineUserId == Some(uid) && p.lineLinkedAt == Some(now) && p.lineLinkingCode.None?
    ensures p.createdAt == now && p.updatedAt == now
  {
    Profile(id, LineEmail(uid), displayName, Member, now, now, Some(uid), None, None, Some(now), true)
  }

  /** An insert into `user_identities`: refused when it fails or when the key is already taken. */
  function InsertIdentity(identities: map<IdentityKey, UserId>, key: IdentityKey, id: UserId, ok: bool)
    : (r: map<IdentityKey, UserId>)
    ensures key in identities || !ok ==> r == identities
    ensures key !in identities && ok ==> r == identities[key := id]
  {
    if ok && key !in identities then identities[key := id] else identities
  }

  // ---- Login mode ---------------------------------------------------------------------

  /** The account service's answer to `createUser`. */
  datatype AccountCreation = Created(userId: UserId) | CreateError(message: string) | NoUserReturned

  /** What `handleLogin` is told by the calls it makes. */
  datatype LoginAnswers = LoginAnswers(
    creation: AccountCreation,     // used only when no mapping exists
    userByEmail: Option<UserId>,   // the account found by e-mail, when recovering
    identityInsertOk: bool,
    profileInsertOk: bool,
    profileUpdateOk: bool,
    magicLinkOk: bool,
    otpOk: bool)

  /** A create error read as "this e-mail already has an account". */
  predicate EmailTaken(message: string) {
    Text.Contains(message, "already") || Text.Contains(message, "exists") || Text.Contains(message, "registered")
  }

  /** The user id mapped to a LINE uid, when there is a non-empty one. */
  function MappedUser(identities: map<IdentityKey, UserId>, uid: string): (u: Option<UserId>)
    ensures u.Some? <==> (LineProvider, uid) in identities && identities[(LineProvider, uid)] != ""
    ensures u.Some? ==> u.value == identities[(LineProvider, uid)]
  {
    var key := (LineProvider, uid);
    if key in identities && identities[key] != "" then Some(identities[key]) else None
  }

  /** The account a login resolves to, whether it was already mapped, or the reason the login stops. */
  datatype Resolution = Resolved(userId: UserId, existing: bool) | Aborted(message: string)

  function LoginResolution(identities: map<IdentityKey, UserId>, uid: string, a: LoginAnswers): (r: Resolution)
    ensures MappedUser(identities, uid).Some? ==> r == Resolved(MappedUser(identities, uid).value, true)
    ensures r.Resolved? && !r.existing ==> MappedUser(identities, uid).None?
    ensures MappedUser(identities, uid).None? && a.creation.Created? ==> r == Resolved(a.creation.userId, false)
    ensures MappedUser(identities, uid).None? && a.creation.CreateError? && EmailTaken(a.creation.message) ==>
      r == (if TruthyText(a.userByEmail) then Resolved(a.userByEmail.value, false) else Aborted(SearchFailed))
    ensures MappedUser(identities, uid).None? && a.creation.CreateError? && !EmailTaken(a.creation.message) ==>
      r == Aborted(CreateFailed + a.creation.message)
    ensures MappedUser(identities, uid).None? && a.creation.NoUserReturned? ==> r == Aborted(CreateNoUser)
  {
    match MappedUser(identities, uid)
    case Some(u) => Resolved(u, true)
    case None =>
      match a.creation
      case Created(u) => Resolved(u, false)
      case NoUserReturned => Aborted(CreateNoUser)
      case CreateError(msg) =>
        if !EmailTaken(msg) then Aborted(CreateFailed + msg)
        else if TruthyText(a.userByEmail) then Resolved(a.userByEmail.value, false)
        else Aborted(SearchFailed)
  }

  /**
   * The profiles after a resolved login: a mapped user gets the LINE id
   * recorded; for a new mapping the profile row is inserted, and when that
   * insert fails (the row exists, or the write is refused) the LINE id is
   * recorded on the existing row instead.
   */
  function LoginProfiles(profiles: map<UserId, Profile>, id: UserId, existing: bool, uid: string,
                         displayName: string, a: LoginAnswers, now: Timestamp): (r: map<UserId, Profile>)
    ensures forall k :: k in profiles && k != id ==> k in r && r[k] == profiles[k]
    ensures r.Keys <= profiles.Keys + {id}
    ensures !existing && a.profileInsertOk && id !in profiles ==> r == profiles[id := NewLineProfile(id, uid, displayName, now)]
    ensures existing || !a.profileInsertOk || id in profiles ==>
      r == (if a.profileUpdateOk then RecordLineId(profiles, id, uid, now) else profiles)
  {
    if !existing && a.profileInsertOk && id !in profiles then profiles[id := NewLineProfile(id, uid, displayName, now)]
    else if a.profileUpdateOk then RecordLineId(profiles, id, uid, now)
    else profiles
  }

  /**
   * `handleLogin`: resolve, record the mapping and the profile, then open a
   * session for the account with the LINE placeholder e-mail. Failed
   * mapping or profile writes are only logged; a failed session throws
   * after those writes.
   */
  method HandleLogin(db: Store, baseUrl: string, uid: string, displayName: string, a: LoginAnswers, now: Timestamp)
    returns (r: Outcome)
    requires db.Valid()
    modifies db
    ensures db.Valid()
    ensures db.reports == old(db.reports)
    ensures var res := LoginResolution(old(db.identities), uid, a);
      res.Aborted? ==> r == Thrown(res.message) && db.identities == old(db.identities) && db.profiles == old(db.profiles)
    ensures var res := LoginResolution(old(db.identities), uid, a);
      res.Resolved? ==>
        db.identities == (if res.existing then old(db.identities)
                          else InsertIdentity(old(db.identities), (LineProvider, uid), res.userId, a.identityInsertOk))
        && db.profiles == LoginProfiles(old(db.profiles), res.userId, res.existing, uid, displayName, a, now)
    ensures var res := LoginResolution(old(db.identities), uid, a);
      res.Resolved? ==>
        r == (if !a.magicLinkOk then Thrown(SessionFailed)
              else if !a.otpOk then Thrown(SignInFailed)
              else Done(Redirect(baseUrl + "/dashboard", NoQuery), Some(LineEmail(uid))))
  {
    var res := LoginResolution(db.identities, uid, a);
    if res.Aborted? {
      return Thrown(res.message);
    }
    var id := res.userId;
    if !res.existing {
      db.identities := InsertIdentity(db.identities, (LineProvider, uid), id, a.identityInsertOk);
    }
    db.profiles := LoginProfiles(db.profiles, id, res.existing, uid, displayName, a, now);
    if !a.magicLinkOk {
      return Thrown(SessionFailed);
    }
    if !a.otpOk {
      return Thrown(SignInFailed);
    }
    r := Done(Redirect(baseUrl + "/dashboard", NoQuery), Some(LineEmail(uid)));
  }

  /** A login through an existing mapping changes only that user's LINE fields and `updated_at`. */
  lemma MappedLoginTouchesOneProfile(profiles: map<UserId, Profile>, identities: map<IdentityKey, UserId>,
                                     uid: string, displayName: string, a: LoginAnswers, now: Timestamp)
    requires MappedUser(identities, uid).Some?
    ensures var u := MappedUser(identities, uid).value;
      var r := LoginProfiles(profiles, u, true, uid, displayName, a, now);
      r.Keys == profiles.Keys
      && (forall k :: k in profiles && k != u ==> r[k] == profiles[k])
      && (u in profiles && a.profileUpdateOk ==> r[u] == WithLineId(profiles[u], uid, now))
      && (u in profiles && a.profileUpdateOk ==> r[u].role == profiles[u].role && r[u].name == profiles[u].name)
  {
  }

  /** A first login with a fresh account inserts a member profile and the mapping to that account. */
  lemma FirstLoginCreatesMember(profiles: map<UserId, Profile>, identities: map<IdentityKey, UserId>,
                                uid: string, displayName: string, a: LoginAnswers, now: Timestamp)
    requires MappedUser(identities, uid).None? && a.creation.Created?
    requires (LineProvider, uid) !in identities && a.identityInsertOk
    requires a.profileInsertOk && a.creation.userId !in profiles
    ensures var res := LoginResolution(identities, uid, a);
      var ps := LoginProfiles(profiles, res.userId, res.existing, uid, displayName, a, now);
      var ids := InsertIdentity(identities, (LineProvider, uid), res.userId, a.identityInsertOk);
      ids[(LineProvider, uid)] == a.creation.userId
      && ps[a.creation.userId].role == Member && ps[a.creation.userId].email == LineEmail(uid)
  {
  }

  // ---- Link mode ----------------------------------------------------------------------

  /** What `handleLink` is told: the signed-in user, and whether the two writes succeed. */
  datatype LinkAnswers = LinkAnswers(session: Option<UserId>, identityInsertOk: bool, profileUpdateOk: bool)

  /** `handleLink`'s decision before any write. */
  datatype LinkStep = NotLoggedIn | AlreadyLinked | LinkedToOther | InsertFor(userId: UserId)

  function LinkDecision(identities: map<IdentityKey, UserId>, uid: string, session: Option<UserId>): (s: LinkStep)
    ensures session.None? <==> s == NotLoggedIn
    ensures session.Some? && MappedUser(identities, uid) == Some(session.value) ==> s == AlreadyLinked
    ensures session.Some? && MappedUser(identities, uid).Some? && MappedUser(identities, uid) != Some(session.value) ==>
      s == LinkedToOther
    ensures session.Some? && MappedUser(identities, uid).None? ==> s == InsertFor(session.value)
  {
    if session.None? then NotLoggedIn
    else match MappedUser(identities, uid)
      case Some(u) => if u == session.value then AlreadyLinked else LinkedToOther
      case None => InsertFor(session.value)
  }

  /**
   * `handleLink`: no session, a uid already mapped to the caller, or one
   * mapped to someone else end in a redirect with nothing written; a refused
   * mapping insert throws; otherwise the mapping is stored for the caller
   * and the LINE id recorded on the caller's profile (a failure there is
   * only logged).
   */
  method HandleLink(db: Store, baseUrl: string, uid: string, a: LinkAnswers, now: Timestamp) returns (r: Outcome)
    requires db.Valid()
    modifies db
    ensures db.Valid()
    ensures db.reports == old(db.reports)
    ensures var step := LinkDecision(old(db.identities), uid, a.session);
      !step.InsertFor? ==> db.identities == old(db.identities) && db.profiles == old(db.profiles)
    ensures var step := LinkDecision(old(db.identities), uid, a.session);
      step == NotLoggedIn ==> r == Done(Redirect(baseUrl + "/auth/login", ErrorQuery("not_logged_in")), None)
    ensures var step := LinkDecision(old(db.identities), uid, a.session);
      step == AlreadyLinked ==> r == Done(Redirect(baseUrl + "/settings", MessageQuery("already_linked")), None)
    ensures var step := LinkDecision(old(db.identities), uid, a.session);
      step == LinkedToOther ==> r == Done(Redirect(baseUrl + "/settings", ErrorQuery("line_already_linked_to_other")), None)
    ensures var step := LinkDecision(old(db.identities), uid, a.session);
      step.InsertFor? && (!a.identityInsertOk || (LineProvider, uid) in old(db.identities)) ==>
        r == Thrown(LinkInsertFailed) && db.identities == old(db.identities) && db.profiles == old(db.profiles)
    ensures var step := LinkDecision(old(db.identities), uid, a.session);
      step.InsertFor? && a.identityInsertOk && (LineProvider, uid) !in old(db.identities) ==>
        r == Done(Redirect(baseUrl + "/settings", MessageQuery("line_linked")), None)
        && db.identities == old(db.identities)[(LineProvider, uid) := step.userId]
        && db.profiles == (if a.profileUpdateOk then RecordLineId(old(db.profiles), step.userId, uid, now) else old(db.profiles))
  {
    var step := LinkDecision(db.identities, uid, a.session);
    match step
    case NotLoggedIn =>
      r := Done(Redirect(baseUrl + "/auth/login", ErrorQuery("not_logged_in")), None);
    case AlreadyLinked =>
      r := Done(Redirect(baseUrl + "/settings", MessageQuery("already_linked")), None);
    case LinkedToOther =>
      r := Done(Redirect(baseUrl + "/settings", ErrorQuery("line_already_linked_to_other")), None);
    case InsertFor(u) =>
      var key := (LineProvider, uid);
      if !a.identityInsertOk || key in db.identities {
        return Thrown(LinkInsertFailed);
      }
      db.identities := db.identities[key := u];
      if a.profileUpdateOk {
        db.profiles := RecordLineId(db.profiles, u, uid, now);
      }
      r := Done(Redirect(baseUrl + "/settings", MessageQuery("line_linked")), None);
  }

  /** After a successful link, a later login with the same LINE account resolves to the linked user. */
  lemma LinkThenLogin(identities: map<IdentityKey, UserId>, uid: string, user: UserId, a: LoginAnswers)
    requires user != "" && (LineProvider, uid) !in identities
    ensures LoginResolution(identities[(LineProvider, uid) := user], uid, a) == Resolved(user, true)
  {
  }

  // ---- The callback -----------------------------------------------------------------

  /** The callback's query parameters. */
  datatype CallbackQuery = CallbackQuery(
    code: Option<string>, state: Option<string>, error: Option<string>, errorDescription: Option<string>)

  /** The LINE Login channel configuration. */
  datatype LoginConfig = LoginConfig(
    appUrl: Option<string>, vercelUrl: Option<string>, channelId: Option<string>, channelSecret: Option<string>)

  /** A call to LINE: answered OK, or refused with a status. */
  datatype Call = Answered | Refused(status: string)

  /** What LINE answers: the token call, the profile call and the profile it returns. */
  datatype LineAnswers = LineAnswers(token: Call, profile: Call, lineUserId: string, displayName: string)

  /** The provider uid the callback works with: LINE's user id lower-cased. */
  function ProviderUid(lineUserId: string): (uid: string)
    ensures |uid| == |lineUserId|
    ensures Text.ToLowerAscii(uid) == uid
  {
    Text.ToLowerIdempotent(lineUserId);
    Text.ToLowerAscii(lineUserId)
  }

  /** The redirect an exception or an early failure in `mode` leads to. */
  function Failure(base: string, mode: Mode, message: string): Redirect {
    Redirect(base + ErrorPath(mode), ErrorQuery(message))
  }

  /** No provider error, a code, a configured channel, and both LINE calls answered: the handler of the mode runs. */
  predicate ReachesHandler(q: CallbackQuery, config: LoginConfig, line: LineAnswers) {
    !TruthyText(q.error) && TruthyText(q.code) && TruthyText(config.channelId) && TruthyText(config.channelSecret)
    && line.token.Answered? && line.profile.Answered?
  }

  /**
   * `GET`: the provider's error and a missing code are redirected first,
   * then the configuration and the two LINE calls are checked, and the
   * lower-cased uid is handed to the handler of the mode; an exception
   * anywhere becomes an error redirect for that mode.
   */
  method Callback(db: Store, q: CallbackQuery, config: LoginConfig, line: LineAnswers,
                  login: LoginAnswers, link: LinkAnswers, now: Timestamp)
    returns (response: Redirect, sessionEmail: Option<string>)
    requires db.Valid()
    modifies db
    ensures db.Valid()
    ensures db.reports == old(db.reports)
    ensures var base := LineLoginStart.BaseUrl(config.appUrl, config.vercelUrl);
      var mode := ParseModeFromState(q.state);
      TruthyText(q.error) ==>
        response == Failure(base, mode, OrText(q.errorDescription, q.error.value))
        && sessionEmail.None? && db.identities == old(db.identities) && db.profiles == old(db.profiles)
    ensures var base := LineLoginStart.BaseUrl(config.appUrl, config.vercelUrl);
      var mode := ParseModeFromState(q.state);
      !TruthyText(q.error) && !TruthyText(q.code) ==>
        response == Failure(base, mode, "no_code")
        && sessionEmail.None? && db.identities == old(db.identities) && db.profiles == old(db.profiles)
    ensures var base := LineLoginStart.BaseUrl(config.appUrl, config.vercelUrl);
      var mode := ParseModeFromState(q.state);
      !TruthyText(q.error) && TruthyText(q.code) && !(TruthyText(config.channelId) && TruthyText(config.channelSecret)) ==>
        response == Failure(base, mode, NotConfigured)
        && sessionEmail.None? && db.identities == old(db.identities) && db.profiles == old(db.profiles)
    ensures line.token.Refused? || line.profile.Refused? ==>
      response.query.ErrorQuery? && sessionEmail.None?
      && db.identities == old(db.identities) && db.profiles == old(db.profiles)
    ensures sessionEmail.Some? ==>
      ParseModeFromState(q.state) == Login && sessionEmail == Some(LineEmail(ProviderUid(line.lineUserId)))
    ensures var uid := ProviderUid(line.lineUserId);
      forall k :: k in db.identities && k !in old(db.identities) ==> k == (LineProvider, uid)
    // Link mode: the decision on the lower-cased uid, then the mapping and the caller's LINE id.
    ensures var base := LineLoginStart.BaseUrl(config.appUrl, config.vercelUrl);
      var step := LinkDecision(old(db.identities), ProviderUid(line.lineUserId), link.session);
      ReachesHandler(q, config, line) && ParseModeFromState(q.state) == Link ==>
        sessionEmail.None?
        && (step == NotLoggedIn ==> response == Redirect(base + "/auth/login", ErrorQuery("not_logged_in")))
        && (step == AlreadyLinked ==> response == Redirect(base + "/settings", MessageQuery("already_linked")))
        && (step == LinkedToOther ==> response == Redirect(base + "/settings", ErrorQuery("line_already_linked_to_other")))
        && (!step.InsertFor? ==> db.identities == old(db.identities) && db.profiles == old(db.profiles))
    ensures var base := LineLoginStart.BaseUrl(config.appUrl, config.vercelUrl);
      var uid := ProviderUid(line.lineUserId);
      var step := LinkDecision(old(db.identities), uid, link.session);
      ReachesHandler(q, config, line) && ParseModeFromState(q.state) == Link && step.InsertFor? ==>
        if !link.identityInsertOk || (LineProvider, uid) in old(db.identities) then
          response == Failure(base, Link, LinkInsertFailed)
          && db.identities == old(db.identities) && db.profiles == old(db.profiles)
        else
          response == Redirect(base + "/settings", MessageQuery("line_linked"))
          && db.identities == old(db.identities)[(LineProvider, uid) := step.userId]
          && db.profiles == (if link.profileUpdateOk then RecordLineId(old(db.profiles), step.userId, uid, now)
                             else old(db.profiles))
    // Login mode: the resolution of the lower-cased uid, its writes, then the session.
    ensures var base := LineLoginStart.BaseUrl(config.appUrl, config.vercelUrl);
      var res := LoginResolution(old(db.identities), ProviderUid(line.lineUserId), login);
      ReachesHandler(q, config, line) && ParseModeFromState(q.state) == Login && res.Aborted? ==>
        response == Failure(base, Login, res.message) && sessionEmail.None?
        && db.identities == old(db.identities) && db.profiles == old(db.profiles)
    ensures var base := LineLoginStart.BaseUrl(config.appUrl, config.vercelUrl);
      var uid := ProviderUid(line.lineUserId);
      var res := LoginResolution(old(db.identities), uid, login);
      ReachesHandler(q, config, line) && ParseModeFromState(q.state) == Login && res.Resolved? ==>
        db.identities == (if res.existing then old(db.identities)
                          else InsertIdentity(old(db.identities), (LineProvider, uid), res.userId, login.identityInsertOk))
        && db.profiles == LoginProfiles(old(db.profiles), res.userId, res.existing, uid, line.displayName, login, now)
        && response == (if !login.magicLinkOk then Failure(base, Login, SessionFailed)
                        else if !login.otpOk then Failure(base, Login, SignInFailed)
                        else Redirect(base + "/dashboard", NoQuery))
        && sessionEmail == (if login.magicLinkOk && login.otpOk then Some(LineEmail(uid)) else None)
  {
    var base := LineLoginStart.BaseUrl(config.appUrl, config.vercelUrl);
    var mode := ParseModeFromState(q.state);
    sessionEmail := None;
    if TruthyText(q.error) {
      return Failure(base, mode, OrText(q.errorDescription, q.error.value)), None;
    }
    if !TruthyText(q.code) {
      return Failure(base, mode, "no_code"), None;
    }
    if !(TruthyText(config.channelId) && TruthyText(config.channelSecret)) {
      return Failure(base, mode, NotConfigured), None;
    }
    if line.token.Refused? {
      return Failure(base, mode, TokenFailed + line.token.status), None;
    }
    if line.profile.Refused? {
      return Failure(base, mode, ProfileFailed + line.profile.status), None;
    }
    var uid := ProviderUid(line.lineUserId);
    var outcome;
    if mode == Link {
      outcome := HandleLink(db, base, uid, link, now);
    } else {
      outcome := HandleLogin(db, base, uid, line.displayName, login, now);
    }
    match outcome
    case Done(redirect, email) =>
      response, sessionEmail := redirect, email;
    case Thrown(message) =>
      response := Failure(base, mode, message);
  }
}
