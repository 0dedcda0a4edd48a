/**
 * app/api/line/link/route.ts: the signed-in user's side of linking by code.
 * `POST` issues a six-digit code valid for ten minutes, `DELETE` unlinks,
 * `GET` reports the link status. The random number and the clock are
 * inputs; a refused database write is the `updateOk` input.
 */
module LineLink {
  import opened Values
  import Text
  import opened Schema
  import LineWebhook

  /** Ten minutes, in milliseconds. */
  const CodeLifetime: int := 10 * 60 * 1000

  /** `Math.floor(100000 + Math.random() * 900000)` for a random number in [0, 1). */
  function CodeNumber(random: real): (n: nat)
    requires 0.0 <= random < 1.0
    ensures 100000 <= n <= 999999
    ensures n as real <= 100000.0 + random * 900000.0 < n as real + 1.0
  {
    (100000.0 + random * 900000.0).Floor
  }

  /** The code's text, `toString()` of the number. */
  function CodeText(n: nat): string {
    Text.Decimal(n)
  }

  /** The numbers 100000 to 999999 print as six digits. */
  lemma SixDigits(n: nat)
    requires 100000 <= n <= 999999
    ensures |Text.Decimal(n)| == 6
  {
    assert Text.Pow10(5) == 100000 && Text.Pow10(6) == 1000000 by {
      assert Text.Pow10(1) == 10;
      assert Text.Pow10(2) == 100;
      assert Text.Pow10(3) == 1000;
      assert Text.Pow10(4) == 10000;
    }
    Text.DecimalLength(n, 6);
  }

  /** Every issued code is what the webhook recognises as a linking code, even after trimming. */
  lemma IssuedCodeIsRecognised(random: real)
    requires 0.0 <= random < 1.0
    ensures var code := CodeText(CodeNumber(random));
      LineWebhook.IsLinkingCode(code) && Text.Trim(code) == code
  {
    var n := CodeNumber(random);
    SixDigits(n);
    Text.TrimDigits(CodeText(n));
  }

  /** The caller's profile with a code and its expiry stored (a missing row: nothing changes). */
  function StoreCode(profiles: map<UserId, Profile>, user: UserId, code: string, expiresAt: Timestamp)
    : (r: map<UserId, Profile>)
    ensures r.Keys == profiles.Keys
    ensures forall k :: k in profiles && k != user ==> r[k] == profiles[k]
    ensures user in profiles ==>
      r[user] == profiles[user].(lineLinkingCode := Some(code), lineCodeExpiresAt := Some(expiresAt))
  {
    if user in profiles then
      profiles[user := profiles[user].(lineLinkingCode := Some(code), lineCodeExpiresAt := Some(expiresAt))]
    else profiles
  }

  /** The caller's profile with all four LINE fields cleared (a missing row: nothing changes). */
  function ClearLink(profiles: map<UserId, Profile>, user: UserId): (r: map<UserId, Profile>)
    ensures r.Keys == profiles.Keys
    ensures forall k :: k in profiles && k != user ==> r[k] == profiles[k]
    ensures user in profiles ==>
      r[user].lineUserId.None? && r[user].lineLinkedAt.None? && r[user].lineLinkingCode.None? && r[user].lineCodeExpiresAt.None?
    ensures user in profiles ==>
      r[user].(lineUserId := profiles[user].lineUserId, lineLinkedAt := profiles[user].lineLinkedAt,
               lineLinkingCode := profiles[user].lineLinkingCode, lineCodeExpiresAt := profiles[user].lineCodeExpiresAt)
      == profiles[user]
  {
    if user in profiles then
      profiles[user := profiles[user].(lineUserId := None, lineLinkedAt := None, lineLinkingCode := None, lineCodeExpiresAt := None)]
    else profiles
  }

  /** `!!profile?.line_user_id`. */
  predicate IsLinked(profiles: map<UserId, Profile>, user: UserId) {
    user in profiles && TruthyText(profiles[user].lineUserId)
  }

  datatype IssueResponse = Unauthorized401 | AlreadyLinked400 | IssueFailed500 | Issued(code: string, expiresAt: Timestamp)

  /**
   * `POST`: 401 without a session, 400 when the caller is already linked,
   * 500 when the write is refused, and otherwise the code and its expiry,
   * stored on the caller's row only.
   */
  method IssueCode(db: Store, session: Option<UserId>, random: real, updateOk: bool, now: Timestamp)
    returns (response: IssueResponse)
    requires db.Valid() && 0.0 <= random < 1.0
    modifies db
    ensures db.Valid()
    ensures db.identities == old(db.identities) && db.reports == old(db.reports)
    ensures session.None? ==> response == Unauthorized401
    ensures session.Some? && IsLinked(old(db.profiles), session.value) ==> response == AlreadyLinked400
    ensures session.Some? && !IsLinked(old(db.profiles), session.value) && !updateOk ==> response == IssueFailed500
    ensures !response.Issued? ==> db.profiles == old(db.profiles)
    ensures response.Issued? <==> session.Some? && !IsLinked(old(db.profiles), session.value) && updateOk
    ensures response.Issued? ==>
      response == Issued(CodeText(CodeNumber(random)), now + CodeLifetime)
      && db.profiles == StoreCode(old(db.profiles), session.value, response.code, response.expiresAt)
  {
    if session.None? {
      return Unauthorized401;
    }
    var user := session.value;
    if IsLinked(db.profiles, user) {
      return AlreadyLinked400;
    }
    var code := CodeText(CodeNumber(random));
    var expiresAt := now + CodeLifetime;
    if !updateOk {
      return IssueFailed500;
    }
    db.profiles := StoreCode(db.profiles, user, code, expiresAt);
    response := Issued(code, expiresAt);
  }

  /**
   * The protocol end to end: a code issued to a user and sent from a LINE
   * account that is linked nowhere, no later than its expiry, links that
   * user and only that user, provided no other profile holds the same code.
   */
  lemma IssuedCodeLinksItsOwner(profiles: map<UserId, Profile>, user: UserId, random: real, issuedAt: Timestamp,
                                lineUserId: string, sentAt: Timestamp)
    requires 0.0 <= random < 1.0
    requires user in profiles
    requires forall k :: k in profiles && k != user ==> profiles[k].lineLinkingCode != Some(CodeText(CodeNumber(random)))
    requires forall k :: k in profiles ==> profiles[k].lineUserId != Some(lineUserId)
    requires sentAt <= issuedAt + CodeLifetime
    ensures var code := CodeText(CodeNumber(random));
      var issued := StoreCode(profiles, user, code, issuedAt + CodeLifetime);
      LineWebhook.ConsumeCode(issued, lineUserId, code, sentAt, true)
        == (issued[user := LineWebhook.LinkedByCode(issued[user], lineUserId, sentAt)], LineWebhook.Linked(profiles[user].name))
  {
    var code := CodeText(CodeNumber(random));
    var issued := StoreCode(profiles, user, code, issuedAt + CodeLifetime);
    assert LineWebhook.CodeHolders(issued, code) == {user};
    assert LineWebhook.LineIdHolders(issued, lineUserId) == {};
  }

  /** A code sent after its expiry links nobody and changes nothing. */
  lemma LateCodeChangesNothing(profiles: map<UserId, Profile>, user: UserId, code: string, issuedAt: Timestamp,
                               lineUserId: string, sentAt: Timestamp, updateOk: bool)
    requires user in profiles
    requires forall k :: k in profiles && k != user ==> profiles[k].lineLinkingCode != Some(code)
    requires sentAt > issuedAt + CodeLifetime
    ensures var issued := StoreCode(profiles, user, code, issuedAt + CodeLifetime);
      LineWebhook.ConsumeCode(issued, lineUserId, code, sentAt, updateOk).0 == issued
  {
    var issued := StoreCode(profiles, user, code, issuedAt + CodeLifetime);
    assert LineWebhook.CodeHolders(issued, code) == {user};
  }

  datatype UnlinkResponse = UnlinkUnauthorized401 | UnlinkFailed500 | Unlinked

  /** `DELETE`: the caller's four LINE fields are cleared; 401 without a session, 500 when refused. */
  method Unlink(db: Store, session: Option<UserId>, updateOk: bool) returns (response: UnlinkResponse)
    requires db.Valid()
    modifies db
    ensures db.Valid()
    ensures db.identities == old(db.identities) && db.reports == old(db.reports)
    ensures session.None? ==> response == UnlinkUnauthorized401 && db.profiles == old(db.profiles)
    ensures session.Some? && !updateOk ==> response == UnlinkFailed500 && db.profiles == old(db.profiles)
    ensures session.Some? && updateOk ==> response == Unlinked && db.profiles == ClearLink(old(db.profiles), session.value)
  {
    if session.None? {
      return UnlinkUnauthorized401;
    }
    if !updateOk {
      return UnlinkFailed500;
    }
    db.profiles := ClearLink(db.profiles, session.value);
    response := Unlinked;
  }

  /** After unlinking, the status reads as not linked, and a new code can be issued. */
  lemma UnlinkedIsNotLinked(profiles: map<UserId, Profile>, user: UserId)
    ensures !IsLinked(ClearLink(profiles, user), user)
  {
  }

  datatype StatusResponse = StatusUnauthorized401 | Status(isLinked: bool, linkedAt: Option<Timestamp>)

  /** `GET`: the caller's link status; a missing profile reads as not linked. */
  function LinkStatus(profiles: map<UserId, Profile>, session: Option<UserId>): (r: StatusResponse)
    ensures session.None? <==> r == StatusUnauthorized401
    ensures session.Some? ==> r.Status? && (r.isLinked <==> IsLinked(profiles, session.value))
    ensures session.Some? && session.value in profiles ==> r.linkedAt == profiles[session.value].lineLinkedAt
    ensures session.Some? && session.value !in profiles ==> r.linkedAt.None?
  {
    if session.None? then StatusUnauthorized401
    else if session.value in profiles then
      Status(TruthyText(profiles[session.value].lineUserId), profiles[session.value].lineLinkedAt)
    else Status(false, None)
  }
}
