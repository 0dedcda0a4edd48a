/**
 * The server actions of app/actions/auth.ts: password sign-in, sign-up
 * with an optional admin code, and the two redirects that start a LINE or
 * Google sign-in. The auth provider's answers are inputs; the only table
 * written here is `profiles`, when a new account is promoted to admin.
 * `redirect()` ends an action, so each action yields either an error
 * message or the URL it redirects to.
 */
module AuthActions {
  import opened Values
  import opened Schema
  import AdminActions
  import LineLoginStart
  import LineCallback

  datatype ActionResult = Error(message: string) | Redirect(url: string)

  const DashboardPath: string := "/dashboard"
  const SignUpSuccessPath: string := "/auth/sign-up-success"
  const CodeWithoutSecret: string := "管理者コードが無効です"
  const WrongCode: string := "管理者コードが正しくありません"

  /** `login`: the provider's error message, or on to the dashboard. */
  function Login(signInError: Option<string>): (r: ActionResult)
    ensures signInError.Some? <==> r.Error?
    ensures signInError.Some? ==> r.message == signInError.value
    ensures signInError.None? ==> r == Redirect(DashboardPath)
  {
    match signInError
    case Some(message) => Error(message)
    case None => Redirect(DashboardPath)
  }

  /** What `supabase.auth.signUp` answered: an error, or data with the new user when one was made. */
  datatype SignUpAnswer = SignUpError(message: string) | SignedUp(user: Option<UserId>)

  /**
   * The admin-code check made before any sign-up request: a code given
   * while no secret is configured, or a code other than the secret, is an
   * error; no code at all passes.
   */
  function CodeCheck(adminCode: Option<string>, adminSecret: Option<string>): (error: Option<string>)
    ensures error.None? <==> !TruthyText(adminCode) || (TruthyText(adminSecret) && adminCode == adminSecret)
    ensures TruthyText(adminCode) && !TruthyText(adminSecret) ==> error == Some(CodeWithoutSecret)
    ensures TruthyText(adminCode) && TruthyText(adminSecret) && adminCode != adminSecret ==> error == Some(WrongCode)
  {
    if !TruthyText(adminCode) then None
    else if !TruthyText(adminSecret) then Some(CodeWithoutSecret)
    else if adminCode != adminSecret then Some(WrongCode)
    else None
  }

  /** `data.user && adminCode && adminSecret && adminCode === adminSecret`. */
  predicate Promotes(answer: SignUpAnswer, adminCode: Option<string>, adminSecret: Option<string>) {
    answer.SignedUp? && answer.user.Some? && TruthyText(adminCode) && TruthyText(adminSecret) && adminCode == adminSecret
  }

  /**
   * `signup`: the code check, then the sign-up request, then the promotion
   * of the new user's profile when the code matched. `signUpRequested` says
   * whether the provider was asked to create an account; `promoteOk` is the
   * database's answer to the promotion, whose failure is ignored.
   */
  method Signup(db: Store, adminCode: Option<string>, adminSecret: Option<string>, answer: SignUpAnswer, promoteOk: bool)
    returns (result: ActionResult, signUpRequested: bool)
    requires db.Valid()
    modifies db
    ensures db.Valid()
    ensures db.identities == old(db.identities) && db.reports == old(db.reports)
    ensures signUpRequested <==> CodeCheck(adminCode, adminSecret).None?
    ensures !signUpRequested ==> result == Error(CodeCheck(adminCode, adminSecret).value)
    ensures signUpRequested && answer.SignUpError? ==> result == Error(answer.message)
    ensures signUpRequested && answer.SignedUp? ==> result == Redirect(SignUpSuccessPath)
    ensures signUpRequested && Promotes(answer, adminCode, adminSecret) && promoteOk ==>
      db.profiles == AdminActions.WithRole(old(db.profiles), answer.user.value, Admin)
    ensures !(signUpRequested && Promotes(answer, adminCode, adminSecret) && promoteOk) ==> db.profiles == old(db.profiles)
  {
    var codeError := CodeCheck(adminCode, adminSecret);
    if codeError.Some? {
      return Error(codeError.value), false;
    }
    signUpRequested := true;
    if answer.SignUpError? {
      return Error(answer.message), signUpRequested;
    }
    if Promotes(answer, adminCode, adminSecret) && promoteOk {
      db.profiles := AdminActions.WithRole(db.profiles, answer.user.value, Admin);
    }
    result := Redirect(SignUpSuccessPath);
  }

  /**
   * Only the right code makes an admin: once the check has passed, a new
   * account is promoted exactly when a code was given at all.
   */
  lemma PromotionNeedsTheCode(adminCode: Option<string>, adminSecret: Option<string>, answer: SignUpAnswer)
    requires CodeCheck(adminCode, adminSecret).None?
    ensures Promotes(answer, adminCode, adminSecret) <==> answer.SignedUp? && answer.user.Some? && TruthyText(adminCode)
    ensures Promotes(answer, adminCode, adminSecret) ==> TruthyText(adminSecret) && adminCode == adminSecret
  {
  }

  /**
   * `signInWithLine`: like the LINE start route, but the `state` is the bare
   * random id, with no mode attached.
   */
  function SignInWithLine(appUrl: Option<string>, vercelUrl: Option<string>, channelId: Option<string>,
                          stateId: string, nonce: string): (r: LineLoginStart.StartRedirect)
    ensures r.ConfigError? <==> !TruthyText(channelId)
    ensures r.ConfigError? ==> r.url == LineLoginStart.BaseUrl(appUrl, vercelUrl) + LineLoginStart.NotConfiguredPath
    ensures r.Authorize? ==> r.endpoint == LineLoginStart.AuthorizeEndpoint && r.params.responseType == "code"
    ensures r.Authorize? ==>
      r.params.clientId == channelId.value && r.params.scope == LineLoginStart.LoginScope && r.params.nonce == nonce
    ensures r.Authorize? ==> r.params.redirectUri == LineLoginStart.BaseUrl(appUrl, vercelUrl) + LineLoginStart.CallbackPath
    ensures r.Authorize? ==> r.params.state == stateId
  {
    var base := LineLoginStart.BaseUrl(appUrl, vercelUrl);
    if !TruthyText(channelId) then LineLoginStart.ConfigError(base + LineLoginStart.NotConfiguredPath)
    else LineLoginStart.Authorize(LineLoginStart.AuthorizeEndpoint,
      LineLoginStart.AuthorizeParams("code", channelId.value, base + LineLoginStart.CallbackPath, stateId,
                                     LineLoginStart.LoginScope, nonce))
  }

  /**
   * A LINE sign-in started from the sign-in action always comes back to the
   * callback in login mode, since a random UUID contains no `_`.
   */
  lemma LineSignInReturnsInLoginMode(appUrl: Option<string>, vercelUrl: Option<string>, channelId: Option<string>,
                                     stateId: string, nonce: string)
    requires '_' !in stateId && stateId != "link"
    ensures var r := SignInWithLine(appUrl, vercelUrl, channelId, stateId, nonce);
      r.Authorize? ==> LineCallback.ParseModeFromState(Some(r.params.state)) == LineCallback.Login
  {
    LineCallback.PlainStateIsLogin(stateId);
  }

  /** The options `signInWithGoogle` passes to `signInWithOAuth`. */
  datatype OAuthRequest = OAuthRequest(provider: string, redirectTo: string, accessType: string, prompt: string, scopes: string)

  const SheetsScope: string := "https://www.googleapis.com/auth/spreadsheets"
  const NoOAuthUrl: string := "/auth/error?error=OAuth_URL_not_generated"

  /** What `signInWithOAuth` answered: an error, or data whose URL may be missing. */
  datatype OAuthAnswer = OAuthError(message: string) | OAuthData(url: Option<string>)

  /**
   * `signInWithGoogle`: the OAuth request (offline access to Google Sheets,
   * coming back to `/auth/callback`) and the redirect that follows its
   * answer. `encode` is `encodeURIComponent`.
   */
  function SignInWithGoogle(appUrl: Option<string>, vercelUrl: Option<string>, answer: OAuthAnswer,
                            encode: string -> string): (r: (OAuthRequest, string))
    ensures var base := LineLoginStart.BaseUrl(appUrl, vercelUrl);
      r.0 == OAuthRequest("google", base + "/auth/callback", "offline", "consent", SheetsScope)
    ensures answer.OAuthError? ==>
      r.1 == LineLoginStart.BaseUrl(appUrl, vercelUrl) + "/auth/error?error=" + encode(answer.message)
    ensures answer.OAuthData? && TruthyText(answer.url) ==> r.1 == answer.url.value
    ensures answer.OAuthData? && !TruthyText(answer.url) ==> r.1 == LineLoginStart.BaseUrl(appUrl, vercelUrl) + NoOAuthUrl
  {
    var base := LineLoginStart.BaseUrl(appUrl, vercelUrl);
    var request := OAuthRequest("google", base + "/auth/callback", "offline", "consent", SheetsScope);
    match answer
    case OAuthError(message) => (request, base + "/auth/error?error=" + encode(message))
    case OAuthData(url) => (request, if TruthyText(url) then url.value else base + NoOAuthUrl)
  }
}
