/**
 * The server actions of app/actions/admin.ts: an admin switches another
 * user's `is_active` flag or role. Each checks the session, then that the
 * caller's own profile has the admin role, then writes one field of the
 * target's row. The database's answer to that write is the `updateOk`
 * input; an update of an id with no row changes nothing.
 */
module AdminActions {
  import opened Values
  import opened Schema

  datatype ActionResult = Done | Refused(error: string)

  const Unauthorized: string := "Unauthorized"
  const Forbidden: string := "Forbidden"
  const OwnRole: string := "自分自身の権限は変更できません"
  const StatusUpdateFailed: string := "Failed to update user status"
  const RoleUpdateFailed: string := "Failed to update user role"

  /** `executorProfile?.role === "admin"`: a caller without a profile is not an admin. */
  predicate IsAdmin(profiles: map<UserId, Profile>, user: UserId) {
    user in profiles && profiles[user].role == Admin
  }

  /** `update({ is_active }).eq("id", userId)`. */
  function WithActive(profiles: map<UserId, Profile>, userId: UserId, isActive: bool): (r: map<UserId, Profile>)
    ensures r.Keys == profiles.Keys
    ensures forall k :: k in profiles && k != userId ==> r[k] == profiles[k]
    ensures userId in profiles ==> r[userId].isActive == isActive && r[userId].(isActive := profiles[userId].isActive) == profiles[userId]
  {
    if userId in profiles then profiles[userId := profiles[userId].(isActive := isActive)] else profiles
  }

  /** `update({ role }).eq("id", userId)`. */
  function WithRole(profiles: map<UserId, Profile>, userId: UserId, role: Role): (r: map<UserId, Profile>)
    ensures r.Keys == profiles.Keys
    ensures forall k :: k in profiles && k != userId ==> r[k] == profiles[k]
    ensures userId in profiles ==> r[userId].role == role && r[userId].(role := profiles[userId].role) == profiles[userId]
  {
    if userId in profiles then profiles[userId := profiles[userId].(role := role)] else profiles
  }

  /**
   * `toggleUserStatus(userId, isActive)`: any admin may switch any row,
   * their own included.
   */
  method ToggleUserStatus(db: Store, session: Option<UserId>, userId: UserId, isActive: bool, updateOk: bool)
    returns (result: ActionResult)
    requires db.Valid()
    modifies db
    ensures db.Valid()
    ensures db.identities == old(db.identities) && db.reports == old(db.reports)
    ensures session.None? ==> result == Refused(Unauthorized)
    ensures session.Some? && !IsAdmin(old(db.profiles), session.value) ==> result == Refused(Forbidden)
    ensures session.Some? && IsAdmin(old(db.profiles), session.value) && !updateOk ==> result == Refused(StatusUpdateFailed)
    ensures result.Refused? ==> db.profiles == old(db.profiles)
    ensures result.Done? <==> session.Some? && IsAdmin(old(db.profiles), session.value) && updateOk
    ensures result.Done? ==> db.profiles == WithActive(old(db.profiles), userId, isActive)
  {
    if session.None? {
      return Refused(Unauthorized);
    }
    if !IsAdmin(db.profiles, session.value) {
      return Refused(Forbidden);
    }
    if !updateOk {
      return Refused(StatusUpdateFailed);
    }
    db.profiles := WithActive(db.profiles, userId, isActive);
    result := Done;
  }

  /**
   * `toggleUserRole(userId, newRole)`: as above, but an admin may not change
   * their own role, so the caller is still an admin afterwards.
   */
  method ToggleUserRole(db: Store, session: Option<UserId>, userId: UserId, newRole: Role, updateOk: bool)
    returns (result: ActionResult)
    requires db.Valid()
    modifies db
    ensures db.Valid()
    ensures db.identities == old(db.identities) && db.reports == old(db.reports)
    ensures session.None? ==> result == Refused(Unauthorized)
    ensures session.Some? && !IsAdmin(old(db.profiles), session.value) ==> result == Refused(Forbidden)
    ensures session.Some? && IsAdmin(old(db.profiles), session.value) && userId == session.value ==> result == Refused(OwnRole)
    ensures session.Some? && IsAdmin(old(db.profiles), session.value) && userId != session.value && !updateOk ==>
      result == Refused(RoleUpdateFailed)
    ensures result.Refused? ==> db.profiles == old(db.profiles)
    ensures result.Done? <==> session.Some? && IsAdmin(old(db.profiles), session.value) && userId != session.value && updateOk
    ensures result.Done? ==> db.profiles == WithRole(old(db.profiles), userId, newRole)
    ensures session.Some? && IsAdmin(old(db.profiles), session.value) ==> IsAdmin(db.profiles, session.value)
  {
    if session.None? {
      return Refused(Unauthorized);
    }
    if !IsAdmin(db.profiles, session.value) {
      return Refused(Forbidden);
    }
    if userId == session.value {
      return Refused(OwnRole);
    }
    if !updateOk {
      return Refused(RoleUpdateFailed);
    }
    db.profiles := WithRole(db.profiles, userId, newRole);
    result := Done;
  }

  /**
   * Role changes never leave the table without an admin: whatever target and
   * role an admin picks, some admin remains afterwards.
   */
  lemma AdminSurvivesRoleChange(profiles: map<UserId, Profile>, executor: UserId, userId: UserId, newRole: Role)
    requires IsAdmin(profiles, executor) && userId != executor
    ensures exists a :: IsAdmin(WithRole(profiles, userId, newRole), a)
  {
    assert IsAdmin(WithRole(profiles, userId, newRole), executor);
  }
}
