/**
 * The server action of app/actions/profile.ts: the signed-in user renames
 * themselves. The name field must hold something other than white space;
 * it is stored trimmed. The database's answer to the update is `updateOk`.
 */
module ProfileActions {
  import opened Values
  import Text
  import opened Schema

  const AuthError: string := "認証エラー"
  const NameRequired: string := "名前を入力してください"
  const UpdateFailed: string := "プロフィールの更新に失敗しました"

  datatype UpdateResult = UpdateResult(error: Option<string>, success: bool)

  /** `!name || name.trim().length === 0` is false: a name that is present and not all white space. */
  predicate AcceptableName(name: Option<string>) {
    TruthyText(name) && Text.Trim(name.value) != ""
  }

  /** A name is acceptable exactly when it has a character that is not white space. */
  lemma AcceptableIffNotBlank(name: Option<string>)
    ensures AcceptableName(name) <==> name.Some? && !Text.IsBlank(name.value)
  {
    if name.Some? {
      Text.TrimEmptyIffBlank(name.value);
    }
  }

  /** `update({ name }).eq("id", user)`. */
  function Renamed(profiles: map<UserId, Profile>, user: UserId, name: string): (r: map<UserId, Profile>)
    ensures r.Keys == profiles.Keys
    ensures forall k :: k in profiles && k != user ==> r[k] == profiles[k]
    ensures user in profiles ==> r[user].name == name && r[user].(name := profiles[user].name) == profiles[user]
  {
    if user in profiles then profiles[user := profiles[user].(name := name)] else profiles
  }

  /** `updateProfile(prevState, formData)`. */
  method UpdateProfile(db: Store, session: Option<UserId>, name: Option<string>, updateOk: bool)
    returns (result: UpdateResult)
    requires db.Valid()
    modifies db
    ensures db.Valid()
    ensures db.identities == old(db.identities) && db.reports == old(db.reports)
    ensures session.None? ==> result == UpdateResult(Some(AuthError), false)
    ensures session.Some? && !AcceptableName(name) ==> result == UpdateResult(Some(NameRequired), false)
    ensures session.Some? && AcceptableName(name) && !updateOk ==> result == UpdateResult(Some(UpdateFailed), false)
    ensures !result.success ==> db.profiles == old(db.profiles) && result.error.Some?
    ensures result.success <==> session.Some? && AcceptableName(name) && updateOk
    ensures result.success ==> result.error.None? && db.profiles == Renamed(old(db.profiles), session.value, Text.Trim(name.value))
  {
    if session.None? {
      return UpdateResult(Some(AuthError), false);
    }
    if !AcceptableName(name) {
      return UpdateResult(Some(NameRequired), false);
    }
    if !updateOk {
      return UpdateResult(Some(UpdateFailed), false);
    }
    db.profiles := Renamed(db.profiles, session.value, Text.Trim(name.value));
    result := UpdateResult(None, true);
  }

  /**
   * A stored name is never blank and has no white space at either end: it
   * is its own trim, so saving it again changes nothing.
   */
  lemma StoredNameIsTrimmed(profiles: map<UserId, Profile>, user: UserId, name: string)
    requires user in profiles && AcceptableName(Some(name))
    ensures var stored := Renamed(profiles, user, Text.Trim(name))[user].name;
      stored != "" && Text.Trim(stored) == stored && !Text.IsBlank(stored)
      && Renamed(Renamed(profiles, user, Text.Trim(name)), user, Text.Trim(stored)) == Renamed(profiles, user, Text.Trim(name))
  {
    TrimmedNameIsStable(name);
    RenamedIdempotent(profiles, user, Text.Trim(name));
  }

  lemma TrimmedNameIsStable(name: string)
    requires AcceptableName(Some(name))
    ensures var stored := Text.Trim(name);
      stored != "" && Text.Trim(stored) == stored && !Text.IsBlank(stored)
  {
    Text.TrimIdempotent(name);
    Text.TrimEmptyIffBlank(Text.Trim(name));
  }

  /** Renaming to the name a profile already has changes nothing. */
  lemma RenamedIdempotent(profiles: map<UserId, Profile>, user: UserId, name: string)
    ensures Renamed(Renamed(profiles, user, name), user, name) == Renamed(profiles, user, name)
  {
    if user in profiles {
      var once := Renamed(profiles, user, name);
      assert once[user].(name := name) == once[user];
    }
  }
}
