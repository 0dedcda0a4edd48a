/**
 * The rows of the hosted database (types/database.ts) and the three tables
 * the application reads and writes, held in one mutable `Store`:
 * `profiles` keyed by user id, `user_identities` keyed by
 * (provider, provider uid), and `reports` keyed by (user id, report date),
 * the pair the application treats as unique. Timestamps are abstract
 * instants in milliseconds.
 */
module Schema {
  import opened Values
  import opened Dates

  type UserId = string
  type Timestamp = int

  datatype Role = Admin | Member

  /** One task inside a report's JSON lists: `actual_hours` for yesterday's work, `planned_hours` for today's plan. */
  datatype Task = Task(
    name: string,
    actualHours: Option<real>,
    plannedHours: Option<real>,
    completed: Option<bool>)

  datatype Report = Report(
    id: string,
    userId: UserId,
    date: Date,
    yesterdayTasks: seq<Task>,
    todayTasks: seq<Task>,
    notes: Option<string>,
    submittedAt: Timestamp,
    createdAt: Timestamp,
    updatedAt: Timestamp)

  datatype Profile = Profile(
    id: UserId,
    email: string,
    name: string,
    role: Role,
    createdAt: Timestamp,
    updatedAt: Timestamp,
    lineUserId: Option<string>,
    lineLinkingCode: Option<string>,
    lineCodeExpiresAt: Option<Timestamp>,
    lineLinkedAt: Option<Timestamp>,
    isActive: bool)

  /** A key of `user_identities`: the provider's name and the user's id at that provider. */
  type IdentityKey = (string, string)

  const LineProvider: string := "line"

  /** Every report sits under its own (user id, date) key, and its date is a real date. */
  ghost predicate ReportsKeyed(reports: map<(UserId, Date), Report>) {
    forall k :: k in reports ==> reports[k].userId == k.0 && reports[k].date == k.1 && Dates.Valid(k.1)
  }

  class Store {
    var profiles: map<UserId, Profile>
    var identities: map<IdentityKey, UserId>
    var reports: map<(UserId, Date), Report>

    /** Every row sits under its own key. */
    ghost predicate Valid()
      reads this
    {
      (forall id :: id in profiles ==> profiles[id].id == id)
      && ReportsKeyed(reports)
    }

    constructor()
      ensures Valid()
      ensures profiles == map[] && identities == map[] && reports == map[]
    {
      profiles := map[];
      identities := map[];
      reports := map[];
    }
  }
}
