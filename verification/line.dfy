/**
 * lib/line.ts: the LINE Messaging API helpers. The message templates are
 * modelled exactly; a request is modelled by what decides its result (the
 * access token being configured and the HTTP outcome), since the network
 * is not part of the model; HMAC-SHA256 with base64 output is an
 * uninterpreted function `mac(secret, body)`.
 */
module Line {
  import opened Values
  import Text

  const ApiBase: string := "https://api.line.me/v2/bot"
  const DefaultAppUrl: string := "https://your-app.vercel.app"

  /** `process.env.NEXT_PUBLIC_APP_URL || "https://your-app.vercel.app"`. */
  function AppUrl(configured: Option<string>): (url: string)
    ensures TruthyText(configured) ==> url == configured.value
    ensures !TruthyText(configured) ==> url == DefaultAppUrl
  {
    OrText(configured, DefaultAppUrl)
  }

  // ---- Requests -----------------------------------------------------------------

  /** What came back from a request: an OK response, a non-OK response, or an exception. */
  datatype HttpOutcome = Ok | NotOk | NetworkError

  /** A request `lineRequest` would issue. */
  datatype Request = Request(url: string, authorization: string)

  /** `lineRequest(endpoint)`: no request (an exception) when no access token is configured. */
  function LineRequest(accessToken: Option<string>, endpoint: string): (r: Option<Request>)
    ensures r.None? <==> !TruthyText(accessToken)
    ensures r.Some? ==> r.value.url == ApiBase + endpoint && r.value.authorization == "Bearer " + accessToken.value
  {
    if TruthyText(accessToken) then Some(Request(ApiBase + endpoint, "Bearer " + accessToken.value)) else None
  }

  /**
   * `sendLineMessage` and `replyLineMessage`: true exactly when a request
   * was issued and answered OK; every failure, thrown or not, is `false`.
   */
  function Deliver(accessToken: Option<string>, endpoint: string, outcome: HttpOutcome): (ok: bool)
    ensures ok <==> TruthyText(accessToken) && outcome == Ok
  {
    match LineRequest(accessToken, endpoint)
    case None => false
    case Some(_) => outcome == Ok
  }

  /** The result of `sendLineMulticast` and whether a request was made. */
  datatype MulticastResult = MulticastResult(requested: bool, ok: bool)

  /** `sendLineMulticast`: an empty recipient list succeeds without any request. */
  function Multicast(recipients: seq<string>, accessToken: Option<string>, outcome: HttpOutcome): (r: MulticastResult)
    ensures recipients == [] ==> r == MulticastResult(false, true)
    ensures recipients != [] ==> (r.requested <==> TruthyText(accessToken))
    ensures recipients != [] ==> (r.ok <==> TruthyText(accessToken) && outcome == Ok)
  {
    if |recipients| == 0 then MulticastResult(false, true)
    else MulticastResult(LineRequest(accessToken, "/message/multicast").Some?, Deliver(accessToken, "/message/multicast", outcome))
  }

  // ---- Message templates ------------------------------------------------------------

  /** `${userName}さん、` when a name is given, else nothing. */
  function Greeting(userName: Option<string>): (g: string)
    ensures TruthyText(userName) ==> g == userName.value + "さん、"
    ensures !TruthyText(userName) ==> g == ""
  {
    if TruthyText(userName) then userName.value + "さん、" else ""
  }

  const ReminderOpening: string := "おはようございます！🌅\n\n本日の日次報告がまだ提出されていません。\n\n📝 報告の入力はこちらから:\n"
  const ReminderClosing: string := "\n\n※ 毎朝10時までに報告をお願いします。"

  /** `createReminderMessage(userName)`. */
  function ReminderMessage(userName: Option<string>, appUrl: Option<string>): string {
    Greeting(userName) + ReminderOpening + AppUrl(appUrl) + "/report" + ReminderClosing
  }

  /** The reminder greets by name exactly when a name is given. */
  lemma ReminderGreeting(userName: Option<string>, appUrl: Option<string>)
    ensures TruthyText(userName) ==> Text.IsPrefix(userName.value + "さん、", ReminderMessage(userName, appUrl))
    ensures !TruthyText(userName) ==> Text.IsPrefix(ReminderOpening, ReminderMessage(userName, appUrl))
  {
    var g := Greeting(userName);
    var rest := AppUrl(appUrl) + "/report" + ReminderClosing;
    assert ReminderMessage(userName, appUrl) == g + ReminderOpening + rest;
    if TruthyText(userName) {
      Text.ConcatParts(g, ReminderOpening, rest);
    } else {
      assert ReminderMessage(userName, appUrl) == ReminderOpening + rest + "";
      Text.ConcatParts(ReminderOpening, rest, "");
    }
  }

  /** The reminder always links to the report page of the application. */
  lemma ReminderLinksToReportPage(userName: Option<string>, appUrl: Option<string>)
    ensures Text.Contains(ReminderMessage(userName, appUrl), AppUrl(appUrl) + "/report")
  {
    var link := AppUrl(appUrl) + "/report";
    var front := Greeting(userName) + ReminderOpening;
    assert ReminderMessage(userName, appUrl) == front + link + ReminderClosing;
    Text.ContainsMiddle(front, link, ReminderClosing);
  }

  /** `createLinkingSuccessMessage(userName)`. */
  function LinkingSuccessMessage(userName: string): (m: string)
    ensures Text.IsPrefix(userName + "さん、LINE連携が完了しました！", m)
  {
    var head := userName + "さん、LINE連携が完了しました！";
    var m := head + "✅\n\nこれより、日次報告のリマインダーをLINEでお届けします。\n\n📅 リマインド時間: 毎朝 9:50\n📝 報告期限: 毎朝 10:00";
    Text.ConcatParts(head, "", m[|head|..]);
    assert head + "" + m[|head|..] == m;
    m
  }

  /** `createAdminNotificationMessage(userName, reportDate, userId)`. */
  function AdminNotificationMessage(userName: string, reportDate: string, userId: string, appUrl: Option<string>): (m: string)
    ensures Text.IsPrefix(userName + "さんが " + reportDate + " ", m)
    ensures var link := AppUrl(appUrl) + "/dashboard/" + userId;
      |link| <= |m| && m[|m| - |link|..] == link
  {
    var head := userName + "さんが " + reportDate + " ";
    var link := AppUrl(appUrl) + "/dashboard/" + userId;
    var m := head + "の日次報告を提出しました。✅\n\n詳細はこちら:\n" + link;
    assert m[..|head|] == head;
    assert m[|m| - |link|..] == link;
    m
  }

  /** The name, the date and the link can all be found in the notification. */
  lemma AdminNotificationMentions(userName: string, reportDate: string, userId: string, appUrl: Option<string>)
    ensures var m := AdminNotificationMessage(userName, reportDate, userId, appUrl);
      Text.Contains(m, userName) && Text.Contains(m, reportDate)
      && Text.Contains(m, AppUrl(appUrl) + "/dashboard/" + userId)
  {
    var m := AdminNotificationMessage(userName, reportDate, userId, appUrl);
    var head := userName + "さんが " + reportDate + " ";
    assert m[..|head|] == head;
    assert m[0..|userName|] == userName;
    assert Text.OccursAt(m, userName, 0);
    var j := |userName + "さんが "|;
    assert m[j..j + |reportDate|] == head[j..j + |reportDate|] == reportDate;
    assert Text.OccursAt(m, reportDate, j);
    var link := AppUrl(appUrl) + "/dashboard/" + userId;
    assert Text.OccursAt(m, link, |m| - |link|);
  }

  // ---- Signature --------------------------------------------------------------------

  /**
   * `verifyLineSignature(body, signature)`: false when no channel secret is
   * configured, otherwise whether the signature equals the base64 HMAC-SHA256
   * of the body under the secret (section 2 of RFC 2104).
   */
  function VerifySignature(secret: Option<string>, body: string, signature: string, mac: (string, string) -> string): (ok: bool)
    ensures !TruthyText(secret) ==> !ok
    ensures TruthyText(secret) ==> (ok <==> signature == mac(secret.value, body))
  {
    if !TruthyText(secret) then false else mac(secret.value, body) == signature
  }

  /** The channel's own signature of a body is accepted, and any other string is refused. */
  lemma SignatureAcceptsExactlyTheMac(secret: string, body: string, signature: string, mac: (string, string) -> string)
    requires secret != ""
    ensures VerifySignature(Some(secret), body, mac(secret, body), mac)
    ensures signature != mac(secret, body) ==> !VerifySignature(Some(secret), body, signature, mac)
  {
  }
}
