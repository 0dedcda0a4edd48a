/**
 * app/api/auth/line/start/route.ts: the redirect that starts LINE Login
 * (an OAuth 2.0 authorization request, section 4.1.1 of RFC 6749). The
 * requested mode travels to the callback inside the `state` parameter as
 * `<random id>_<mode>`. The random id and the nonce are inputs; the query
 * string's percent-encoding is not modelled, the parameters are kept as a
 * record.
 */
module LineLoginStart {
  import opened Values

  const LocalBaseUrl: string := "http://localhost:3000"
  const CallbackPath: string := "/api/auth/line/callback"
  const AuthorizeEndpoint: string := "https://access.line.me/oauth2/v2.1/authorize"
  const LoginScope: string := "profile openid email"
  const NotConfiguredPath: string := "/auth/error?error=LINE_Login_not_configured"

  /** `s.replace(/\/$/, "")`: one trailing slash is removed, if there is one. */
  function StripTrailingSlash(s: string): (r: string)
    ensures |s| > 0 && s[|s| - 1] == '/' ==> r + "/" == s
    ensures !(|s| > 0 && s[|s| - 1] == '/') ==> r == s
  {
    if |s| > 0 && s[|s| - 1] == '/' then s[..|s| - 1] else s
  }

  /**
   * `getBaseUrl()`: the configured application URL without one trailing
   * slash when that is not empty, else `https://` and the deployment host
   * when one is set, else the local development server.
   */
  function BaseUrl(appUrl: Option<string>, vercelUrl: Option<string>): (url: string)
    ensures appUrl.Some? && StripTrailingSlash(appUrl.value) != "" ==> url == StripTrailingSlash(appUrl.value)
    ensures (appUrl.None? || StripTrailingSlash(appUrl.value) == "") && TruthyText(vercelUrl) ==>
      url == "https://" + vercelUrl.value
    ensures (appUrl.None? || StripTrailingSlash(appUrl.value) == "") && !TruthyText(vercelUrl) ==>
      url == LocalBaseUrl
    ensures url != ""
  {
    if appUrl.Some? && StripTrailingSlash(appUrl.value) != "" then StripTrailingSlash(appUrl.value)
    else if TruthyText(vercelUrl) then "https://" + vercelUrl.value
    else LocalBaseUrl
  }

  /** A configured URL with or without its trailing slash gives the same base. */
  lemma TrailingSlashIgnored(url: string, vercelUrl: Option<string>)
    requires url != "" && url[|url| - 1] != '/'
    ensures BaseUrl(Some(url + "/"), vercelUrl) == BaseUrl(Some(url), vercelUrl) == url
  {
    assert (url + "/")[..|url|] == url;
  }

  /** `searchParams.get("mode") || "login"`. */
  function ModeParam(mode: Option<string>): (m: string)
    ensures TruthyText(mode) ==> m == mode.value
    ensures !TruthyText(mode) ==> m == "login"
  {
    OrText(mode, "login")
  }

  /** The query parameters of the authorization request. */
  datatype AuthorizeParams = AuthorizeParams(
    responseType: string,
    clientId: string,
    redirectUri: string,
    state: string,
    scope: string,
    nonce: string)

  datatype StartRedirect =
    | ConfigError(url: string)
    | Authorize(endpoint: string, params: AuthorizeParams)

  /**
   * `GET`: without a channel id, a redirect to the error page and no
   * authorization request; otherwise the request to LINE's authorization
   * endpoint, always coming back to the one callback route.
   */
  function Start(mode: Option<string>, appUrl: Option<string>, vercelUrl: Option<string>,
                 channelId: Option<string>, stateId: string, nonce: string): (r: StartRedirect)
    ensures r.ConfigError? <==> !TruthyText(channelId)
    ensures r.ConfigError? ==> r.url == BaseUrl(appUrl, vercelUrl) + NotConfiguredPath
    ensures r.Authorize? ==> r.endpoint == AuthorizeEndpoint && r.params.responseType == "code"
    ensures r.Authorize? ==> r.params.clientId == channelId.value && r.params.scope == LoginScope && r.params.nonce == nonce
    ensures r.Authorize? ==> r.params.redirectUri == BaseUrl(appUrl, vercelUrl) + CallbackPath
    ensures r.Authorize? ==> r.params.state == stateId + "_" + ModeParam(mode)
  {
    var base := BaseUrl(appUrl, vercelUrl);
    if !TruthyText(channelId) then ConfigError(base + NotConfiguredPath)
    else Authorize(AuthorizeEndpoint,
      AuthorizeParams("code", channelId.value, base + CallbackPath, stateId + "_" + ModeParam(mode), LoginScope, nonce))
  }
}
