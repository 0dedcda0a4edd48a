/**
 * app/api/line/webhook/route.ts: the endpoint LINE posts bot events to.
 * A request without a valid signature is refused; otherwise the events
 * are handled one after the other. A text message that is a six-digit
 * linking code completes the linking of the profile that holds the code;
 * other messages and new followers get a fixed reply.
 *
 * A query ending in `.single()` yields a row only when exactly one row
 * matches; that is `Single` below. Reply delivery never fails the request,
 * so a reply is recorded by its kind and token only.
 */
module LineWebhook {
  import opened Values
  import Text
  import opened Schema
  import Line

  // ---- Single-row lookups ----------------------------------------------------------

  /** The only element of `s`, when it has exactly one. */
  function Single(s: set<UserId>): (r: Option<UserId>)
    ensures r.Some? <==> |s| == 1
    ensures r.Some? ==> s == {r.value}
  {
    if |s| == 1 then
      var x :| x in s;
      assert |s - {x}| == 0;
      Some(x)
    else None
  }

  /** The profiles whose LINE id is `lineUserId`. */
  function LineIdHolders(profiles: map<UserId, Profile>, lineUserId: string): (s: set<UserId>)
    ensures forall id :: id in s <==> id in profiles && profiles[id].lineUserId == Some(lineUserId)
  {
    set id | id in profiles && profiles[id].lineUserId == Some(lineUserId)
  }

  /** The profiles holding the linking code `code`. */
  function CodeHolders(profiles: map<UserId, Profile>, code: string): (s: set<UserId>)
    ensures forall id :: id in s <==> id in profiles && profiles[id].lineLinkingCode == Some(code)
  {
    set id | id in profiles && profiles[id].lineLinkingCode == Some(code)
  }

  /** No LINE id is recorded on two profiles. */
  predicate UniqueLineIds(profiles: map<UserId, Profile>) {
    forall a, b :: a in profiles && b in profiles && profiles[a].lineUserId.Some? && profiles[a].lineUserId == profiles[b].lineUserId
      ==> a == b
  }

  // ---- Linking codes ----------------------------------------------------------------

  /** `/^\d{6}$/`: exactly six ASCII digits. */
  predicate IsLinkingCode(text: string) {
    |text| == 6 && Text.AllDigits(text)
  }

  /** `new Date(expires_at) < new Date()`, an absent expiry reading as the instant 0. */
  predicate Expired(p: Profile, now: Timestamp) {
    (if p.lineCodeExpiresAt.Some? then p.lineCodeExpiresAt.value else 0) < now
  }

  /** A profile once linked by code: LINE id and link time set, code and expiry cleared, nothing else changed. */
  function LinkedByCode(p: Profile, lineUserId: string, now: Timestamp): (q: Profile)
    ensures q.lineUserId == Some(lineUserId) && q.lineLinkedAt == Some(now)
    ensures q.lineLinkingCode.None? && q.lineCodeExpiresAt.None?
    ensures q.(lineUserId := p.lineUserId, lineLinkedAt := p.lineLinkedAt,
               lineLinkingCode := p.lineLinkingCode, lineCodeExpiresAt := p.lineCodeExpiresAt) == p
  {
    p.(lineUserId := Some(lineUserId), lineLinkedAt := Some(now), lineLinkingCode := None, lineCodeExpiresAt := None)
  }

  /** The answer to a linking code. */
  datatype CodeReply =
    | AlreadyLinked(name: string)   // this LINE account is linked to that profile
    | CodeNotFound
    | CodeExpired
    | LinkFailed                    // the update was refused
    | Linked(name: string)          // `createLinkingSuccessMessage(name)`

  /**
   * `handleLinkingCode`: the profiles after a code is sent from LINE
   * account `lineUserId`, and the answer. Only a successful link changes
   * anything, and then only the code holder's row.
   */
  function ConsumeCode(profiles: map<UserId, Profile>, lineUserId: string, code: string, now: Timestamp, updateOk: bool)
    : (r: (map<UserId, Profile>, CodeReply))
    ensures !r.1.Linked? ==> r.0 == profiles
    ensures Single(LineIdHolders(profiles, lineUserId)).Some? ==>
      r.1 == AlreadyLinked(profiles[Single(LineIdHolders(profiles, lineUserId)).value].name)
    ensures Single(LineIdHolders(profiles, lineUserId)).None? && Single(CodeHolders(profiles, code)).None? ==>
      r.1 == CodeNotFound
    ensures r.1.Linked? <==>
      Single(LineIdHolders(profiles, lineUserId)).None? && Single(CodeHolders(profiles, code)).Some?
      && !Expired(profiles[Single(CodeHolders(profiles, code)).value], now) && updateOk
    ensures r.1.Linked? ==>
      var id := Single(CodeHolders(profiles, code)).value;
      r.0 == profiles[id := LinkedByCode(profiles[id], lineUserId, now)] && r.1.name == profiles[id].name
  {
    match Single(LineIdHolders(profiles, lineUserId))
    case Some(owner) => (profiles, AlreadyLinked(profiles[owner].name))
    case None =>
      match Single(CodeHolders(profiles, code))
      case None => (profiles, CodeNotFound)
      case Some(id) =>
        if Expired(profiles[id], now) then (profiles, CodeExpired)
        else if !updateOk then (profiles, LinkFailed)
        else (profiles[id := LinkedByCode(profiles[id], lineUserId, now)], Linked(profiles[id].name))
  }

  /** Under unique LINE ids, a LINE id has at most one holder. */
  lemma UniqueHolder(profiles: map<UserId, Profile>, lineUserId: string)
    requires UniqueLineIds(profiles)
    ensures forall k :: k in LineIdHolders(profiles, lineUserId) ==> LineIdHolders(profiles, lineUserId) == {k}
  {
  }

  /** Linking by code never gives one LINE id to two profiles. */
  lemma ConsumeKeepsLineIdsUnique(profiles: map<UserId, Profile>, lineUserId: string, code: string, now: Timestamp, updateOk: bool)
    requires UniqueLineIds(profiles)
    ensures UniqueLineIds(ConsumeCode(profiles, lineUserId, code, now, updateOk).0)
  {
    var r := ConsumeCode(profiles, lineUserId, code, now, updateOk);
    if r.1.Linked? {
      UniqueHolder(profiles, lineUserId);
    }
  }

  // ---- Events -----------------------------------------------------------------------

  /** The parts of a webhook event the handler looks at. */
  datatype EventKind = TextMessage(text: Option<string>) | OtherMessage | Follow | OtherEvent

  datatype Event = Event(kind: EventKind, userId: Option<string>, replyToken: Option<string>)

  /** The reply to an ordinary message (how to link), to a new follower (welcome), or to a code. */
  datatype ReplyKind = HowToLink | Welcome | CodeAnswer(answer: CodeReply)

  datatype Reply = Reply(token: string, kind: ReplyKind)

  /** The trimmed text of a text message, when it is a linking code. */
  function CodeIn(e: Event): (code: Option<string>)
    ensures code.Some? ==> IsLinkingCode(code.value)
    ensures code.Some? <==> e.kind.TextMessage? && e.kind.text.Some? && IsLinkingCode(Text.Trim(e.kind.text.value))
  {
    if e.kind.TextMessage? && e.kind.text.Some? && IsLinkingCode(Text.Trim(e.kind.text.value))
    then Some(Text.Trim(e.kind.text.value)) else None
  }

  /** A reply sent only when the event carries a reply token. */
  function ReplyIfToken(e: Event, kind: ReplyKind): (r: Option<Reply>)
    ensures r.Some? <==> TruthyText(e.replyToken)
    ensures r.Some? ==> r.value == Reply(e.replyToken.value, kind)
  {
    if TruthyText(e.replyToken) then Some(Reply(e.replyToken.value, kind)) else None
  }

  /**
   * `handleLineEvent`: events without a sender are ignored; a linking code
   * is consumed; any other text message and a follow are answered.
   */
  function EventStep(profiles: map<UserId, Profile>, e: Event, now: Timestamp, updateOk: bool)
    : (r: (map<UserId, Profile>, Option<Reply>))
    ensures !TruthyText(e.userId) ==> r == (profiles, None)
    ensures TruthyText(e.userId) && CodeIn(e).Some? ==>
      var c := ConsumeCode(profiles, e.userId.value, CodeIn(e).value, now, updateOk);
      r == (c.0, ReplyIfToken(e, CodeAnswer(c.1)))
    ensures CodeIn(e).None? ==> r.0 == profiles
    ensures TruthyText(e.userId) && e.kind.TextMessage? && CodeIn(e).None? ==> r.1 == ReplyIfToken(e, HowToLink)
    ensures TruthyText(e.userId) && e.kind.Follow? ==> r.1 == ReplyIfToken(e, Welcome)
    ensures e.kind.OtherMessage? || e.kind.OtherEvent? ==> r == (profiles, None)
  {
    if !TruthyText(e.userId) then (profiles, None)
    else match e.kind
      case TextMessage(_) =>
        (match CodeIn(e)
         case Some(code) =>
           var c := ConsumeCode(profiles, e.userId.value, code, now, updateOk);
           (c.0, ReplyIfToken(e, CodeAnswer(c.1)))
         case None => (profiles, ReplyIfToken(e, HowToLink)))
      case Follow => (profiles, ReplyIfToken(e, Welcome))
      case _ => (profiles, None)
  }

  /** The profiles after handling `events` in order; `updateOk(i)` is the database's answer for the i-th event. */
  function ProcessEvents(profiles: map<UserId, Profile>, events: seq<Event>, now: Timestamp, updateOk: int -> bool)
    : map<UserId, Profile>
  {
    if events == [] then profiles
    else EventStep(ProcessEvents(profiles, events[..|events| - 1], now, updateOk), events[|events| - 1], now,
                   updateOk(|events| - 1)).0
  }

  /** Handling one more event extends the fold by one step. */
  lemma ProcessPrefix(profiles: map<UserId, Profile>, events: seq<Event>, i: nat, now: Timestamp, updateOk: int -> bool)
    requires i < |events|
    ensures ProcessEvents(profiles, events[..i + 1], now, updateOk)
      == EventStep(ProcessEvents(profiles, events[..i], now, updateOk), events[i], now, updateOk(i)).0
  {
    assert events[..i + 1][..i] == events[..i];
  }

  /** Every profile stays under its own id. */
  predicate ProfilesKeyed(profiles: map<UserId, Profile>) {
    forall id :: id in profiles ==> profiles[id].id == id
  }

  lemma StepKeepsProfilesKeyed(profiles: map<UserId, Profile>, e: Event, now: Timestamp, updateOk: bool)
    requires ProfilesKeyed(profiles)
    ensures ProfilesKeyed(EventStep(profiles, e, now, updateOk).0)
  {
  }

  /** However many events arrive, no LINE id ends up on two profiles. */
  lemma {:induction false} EventsKeepLineIdsUnique(profiles: map<UserId, Profile>, events: seq<Event>, now: Timestamp,
                                                   updateOk: int -> bool)
    requires UniqueLineIds(profiles)
    ensures UniqueLineIds(ProcessEvents(profiles, events, now, updateOk))
    decreases |events|
  {
    if events != [] {
      var before := ProcessEvents(profiles, events[..|events| - 1], now, updateOk);
      EventsKeepLineIdsUnique(profiles, events[..|events| - 1], now, updateOk);
      var e := events[|events| - 1];
      if TruthyText(e.userId) && CodeIn(e).Some? {
        ConsumeKeepsLineIdsUnique(before, e.userId.value, CodeIn(e).value, now, updateOk(|events| - 1));
      }
    }
  }

  /** The events change no profile beyond its four LINE link fields, and remove or add no profile. */
  predicate OnlyLinkFieldsChanged(before: map<UserId, Profile>, after: map<UserId, Profile>) {
    before.Keys == after.Keys
    && forall id :: id in before ==>
      after[id].(lineUserId := before[id].lineUserId, lineLinkedAt := before[id].lineLinkedAt,
                 lineLinkingCode := before[id].lineLinkingCode, lineCodeExpiresAt := before[id].lineCodeExpiresAt)
      == before[id]
  }

  lemma {:induction false} EventsOnlyTouchLinkFields(profiles: map<UserId, Profile>, events: seq<Event>, now: Timestamp,
                                                     updateOk: int -> bool)
    ensures OnlyLinkFieldsChanged(profiles, ProcessEvents(profiles, events, now, updateOk))
    decreases |events|
  {
    if events != [] {
      EventsOnlyTouchLinkFields(profiles, events[..|events| - 1], now, updateOk);
    }
  }

  // ---- The endpoint ---------------------------------------------------------------------

  /** The status of a webhook response. */
  datatype Status = Ok200 | InvalidSignature401 | ServerError500

  /** The `for` loop of `POST`: each event in order, each reply recorded at its event's position. */
  method HandleEvents(db: Store, events: seq<Event>, updateOk: int -> bool, now: Timestamp) returns (replies: seq<Option<Reply>>)
    requires db.Valid()
    modifies db
    ensures db.Valid()
    ensures db.identities == old(db.identities) && db.reports == old(db.reports)
    ensures db.profiles == ProcessEvents(old(db.profiles), events, now, updateOk)
    ensures |replies| == |events|
    ensures forall i :: 0 <= i < |replies| ==>
      replies[i] == EventStep(ProcessEvents(old(db.profiles), events[..i], now, updateOk), events[i], now, updateOk(i)).1
  {
    replies := [];
    for i := 0 to |events|
      invariant ProfilesKeyed(db.profiles) && ReportsKeyed(db.reports)
      invariant db.identities == old(db.identities) && db.reports == old(db.reports)
      invariant db.profiles == ProcessEvents(old(db.profiles), events[..i], now, updateOk)
      invariant |replies| == i
      invariant forall j :: 0 <= j < i ==>
        replies[j] == EventStep(ProcessEvents(old(db.profiles), events[..j], now, updateOk), events[j], now, updateOk(j)).1
    {
      ProcessPrefix(old(db.profiles), events, i, now, updateOk);
      StepKeepsProfilesKeyed(db.profiles, events[i], now, updateOk(i));
      var step := EventStep(db.profiles, events[i], now, updateOk(i));
      db.profiles := step.0;
      replies := replies + [step.1];
    }
    assert events[..|events|] == events;
  }

  /**
   * `POST`: a missing or wrong `x-line-signature` is refused before the body
   * is read; a body that is not a list of events is a server error; the
   * events are then handled in order.
   */
  method Post(db: Store, secret: Option<string>, body: string, signature: Option<string>, mac: (string, string) -> string,
              events: Option<seq<Event>>, updateOk: int -> bool, now: Timestamp)
    returns (status: Status, replies: seq<Option<Reply>>)
    requires db.Valid()
    modifies db
    ensures db.Valid()
    ensures db.identities == old(db.identities) && db.reports == old(db.reports)
    ensures !TruthyText(signature) || !Line.VerifySignature(secret, body, signature.value, mac) ==>
      status == InvalidSignature401 && replies == [] && db.profiles == old(db.profiles)
    ensures TruthyText(signature) && Line.VerifySignature(secret, body, signature.value, mac) && events.None? ==>
      status == ServerError500 && replies == [] && db.profiles == old(db.profiles)
    ensures TruthyText(signature) && Line.VerifySignature(secret, body, signature.value, mac) && events.Some? ==>
      status == Ok200 && |replies| == |events.value|
      && db.profiles == ProcessEvents(old(db.profiles), events.value, now, updateOk)
  {
    if !TruthyText(signature) || !Line.VerifySignature(secret, body, signature.value, mac) {
      return InvalidSignature401, [];
    }
    if events.None? {
      return ServerError500, [];
    }
    replies := HandleEvents(db, events.value, updateOk, now);
    status := Ok200;
  }
}
