/**
 * app/api/cron/reminder/route.ts: the morning job that reminds, over LINE,
 * every active user with a linked LINE account who has not yet submitted a
 * report for today. The two queries are given as their results (`None` for
 * a query that failed), in the order the database returns them; the job
 * applies their filters itself so that they are part of the contract.
 */
module CronReminder {
  import opened Values
  import opened Dates
  import opened Schema
  import Line

  /** `!CRON_SECRET || authHeader === "Bearer " + CRON_SECRET`: no secret configured means no check. */
  predicate Authorized(secret: Option<string>, authHeader: Option<string>) {
    !TruthyText(secret) || authHeader == Some("Bearer " + secret.value)
  }

  /** The profiles query: active profiles whose `line_user_id` is not null, in row order. */
  function Candidates(profiles: seq<Profile>): (c: seq<Profile>)
    ensures |c| <= |profiles|
    ensures forall p :: p in c <==> p in profiles && p.isActive && p.lineUserId.Some?
  {
    if profiles == [] then []
    else
      var rest := Candidates(profiles[1..]);
      assert forall p :: p in profiles <==> p == profiles[0] || p in profiles[1..];
      if profiles[0].isActive && profiles[0].lineUserId.Some? then [profiles[0]] + rest else rest
  }

  /** `new Set(reports.map(r => r.user_id))` over the reports dated today. */
  function SubmittedIds(reports: seq<Report>, today: Date): (ids: set<UserId>)
    ensures forall u :: u in ids <==> exists i :: 0 <= i < |reports| && reports[i].date == today && reports[i].userId == u
  {
    set i | 0 <= i < |reports| && reports[i].date == today :: reports[i].userId
  }

  /** `profiles.filter(p => !submittedUserIds.has(p.id))`, keeping the order. */
  function Targets(candidates: seq<Profile>, submitted: set<UserId>): (t: seq<Profile>)
    ensures |t| <= |candidates|
    ensures forall p :: p in t <==> p in candidates && p.id !in submitted
  {
    if candidates == [] then []
    else
      var rest := Targets(candidates[1..], submitted);
      assert forall p :: p in candidates <==> p == candidates[0] || p in candidates[1..];
      if candidates[0].id !in submitted then [candidates[0]] + rest else rest
  }

  /** Filtering keeps relative order: filtering a concatenation concatenates the filtered parts. */
  lemma {:induction false} TargetsAppend(a: seq<Profile>, b: seq<Profile>, submitted: set<UserId>)
    ensures Targets(a + b, submitted) == Targets(a, submitted) + Targets(b, submitted)
    decreases |a|
  {
    if a != [] {
      assert (a + b)[0] == a[0] && (a + b)[1..] == a[1..] + b;
      TargetsAppend(a[1..], b, submitted);
      if a[0].id !in submitted {
        assert Targets(a + b, submitted) == [a[0]] + Targets(a[1..] + b, submitted);
      }
    } else {
      assert a + b == b;
    }
  }

  /** `.map(p => p.line_user_id).filter(id => id !== null)`. */
  function LineIds(targets: seq<Profile>): (ids: seq<string>)
    ensures |ids| <= |targets|
    ensures (forall p :: p in targets ==> p.lineUserId.Some?) ==>
      |ids| == |targets| && forall i :: 0 <= i < |targets| ==> ids[i] == targets[i].lineUserId.value
  {
    if targets == [] then []
    else
      var rest := LineIds(targets[1..]);
      assert forall p :: p in targets[1..] ==> p in targets;
      match targets[0].lineUserId
      case None => rest
      case Some(id) => [id] + rest
  }

  /** `targetProfiles.map(u => u.name)`. */
  function Names(targets: seq<Profile>): (names: seq<string>)
    ensures |names| == |targets| && forall i :: 0 <= i < |targets| ==> names[i] == targets[i].name
  {
    seq(|targets|, i requires 0 <= i < |targets| => targets[i].name)
  }

  datatype Response =
    | Unauthorized401
    | InternalError500          // a failed query, rethrown to the catch-all
    | NoLinkedUsers             // success, notified 0
    | AllSubmitted              // success, notified 0
    | SendFailed500
    | Reminded(notified: nat, users: seq<string>)

  /** The one multicast the job makes: the recipients and the message. */
  datatype Send = Send(recipients: seq<string>, message: string)

  /**
   * `GET`: the bearer gate, the profiles query, the reports query for
   * today, then one multicast of the reminder without a name to every
   * target's LINE id. `send` is the multicast issued, if any.
   */
  function Run(secret: Option<string>, authHeader: Option<string>, profiles: Option<seq<Profile>>,
               reports: Option<seq<Report>>, today: Date, accessToken: Option<string>, outcome: Line.HttpOutcome,
               appUrl: Option<string>): (r: (Response, Option<Send>))
    ensures !Authorized(secret, authHeader) ==> r == (Unauthorized401, None)
    ensures Authorized(secret, authHeader) && profiles.None? ==> r == (InternalError500, None)
    ensures Authorized(secret, authHeader) && profiles.Some? && Candidates(profiles.value) == [] ==> r == (NoLinkedUsers, None)
    ensures Authorized(secret, authHeader) && profiles.Some? && Candidates(profiles.value) != [] && reports.None? ==>
      r == (InternalError500, None)
    ensures r.1.None? <==> !r.0.Reminded? && r.0 != SendFailed500
    ensures r.1.Some? ==>
      Authorized(secret, authHeader) && profiles.Some? && reports.Some?
      && var targets := Targets(Candidates(profiles.value), SubmittedIds(reports.value, today));
      targets != []
      && |r.1.value.recipients| == |targets|
      && (forall i :: 0 <= i < |targets| ==> r.1.value.recipients[i] == targets[i].lineUserId.value)
      && r.1.value.message == Line.ReminderMessage(None, appUrl)
      && (r.0.Reminded? <==> TruthyText(accessToken) && outcome == Line.Ok)
      && (r.0.Reminded? ==> r.0.notified == |targets| && r.0.users == Names(targets))
    ensures (Authorized(secret, authHeader) && profiles.Some? && reports.Some?
             && Targets(Candidates(profiles.value), SubmittedIds(reports.value, today)) != []) ==>
      r.1.Some?
    ensures (Authorized(secret, authHeader) && profiles.Some? && Candidates(profiles.value) != [] && reports.Some?
             && Targets(Candidates(profiles.value), SubmittedIds(reports.value, today)) == []) ==>
      r == (AllSubmitted, None)
    ensures r.0 == AllSubmitted ==>
      profiles.Some? && reports.Some? && Targets(Candidates(profiles.value), SubmittedIds(reports.value, today)) == []
  {
    if !Authorized(secret, authHeader) then (Unauthorized401, None)
    else if profiles.None? then (InternalError500, None)
    else
      var candidates := Candidates(profiles.value);
      if candidates == [] then (NoLinkedUsers, None)
      else if reports.None? then (InternalError500, None)
      else
        var targets := Targets(candidates, SubmittedIds(reports.value, today));
        var lineUserIds := LineIds(targets);
        if |lineUserIds| == 0 then (AllSubmitted, None)
        else
          var send := Send(lineUserIds, Line.ReminderMessage(None, appUrl));
          if Line.Multicast(lineUserIds, accessToken, outcome).ok then (Reminded(|lineUserIds|, Names(targets)), Some(send))
          else (SendFailed500, Some(send))
  }

  /**
   * Who is reminded: an active profile with a LINE id is reminded exactly
   * when no report of theirs is dated today.
   */
  lemma RemindedIffUnreported(profiles: seq<Profile>, reports: seq<Report>, today: Date, p: Profile)
    requires p in profiles && p.isActive && p.lineUserId.Some?
    ensures p in Targets(Candidates(profiles), SubmittedIds(reports, today))
      <==> forall i :: 0 <= i < |reports| && reports[i].date == today ==> reports[i].userId != p.id
  {
    var submitted := SubmittedIds(reports, today);
    if p.id in submitted {
      var i :| 0 <= i < |reports| && reports[i].date == today && reports[i].userId == p.id;
    }
  }
}
