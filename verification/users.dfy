/** Account actions: `setUserRole` (onboarding) and `updateProfile`. */
module Users {
  import opened Wrappers
  import opened Model
  import Validation

  // ---------------------------------------------------------------------
  // setUserRole

  /** The role enum of onboarding: only the two self-service roles. */
  function ParseRole(s: string): (r: Option<Role>)
    ensures r.Some? <==> s == "VIBECODER" || s == "SPONSOR"
    ensures r != Some(Admin)
  {
    if s == "VIBECODER" then Some(Vibecoder)
    else if s == "SPONSOR" then Some(Sponsor)
    else None
  }

  datatype UserError = NotSignedIn | InvalidRole | Invalid(fields: seq<ProfileField>) | UsernameTaken | StoreFailure

  /** `setUserRole`. Updating a user row that does not exist fails in the
      store. */
  function SetUserRole(db: Db, session: Session, role: string): (out: (Db, Result<Role, UserError>))
    ensures out.1.Failure? ==> out.0 == db
    ensures session.None? ==> out.1 == Failure(NotSignedIn)
    ensures session.Some? && role != "VIBECODER" && role != "SPONSOR" ==> out.1 == Failure(InvalidRole)
    ensures out.1.Success? <==> session.Some? && (role == "VIBECODER" || role == "SPONSOR") && session.value in db.users
    ensures out.1.Success? ==>
              && out.1.value != Admin
              && out.0 == db.(users := db.users[session.value := db.users[session.value].(role := Some(out.1.value))])
              && RoleOf(out.0, session.value) == Some(out.1.value)
  {
    if session.None? then (db, Failure(NotSignedIn))
    else match ParseRole(role)
      case None => (db, Failure(InvalidRole))
      case Some(r) =>
        if session.value !in db.users then (db, Failure(StoreFailure))
        else
          var u := db.users[session.value];
          (db.(users := db.users[session.value := u.(role := Some(r))]), Success(r))
  }

  // ---------------------------------------------------------------------
  // updateProfile

  /** A character the username pattern allows: an ASCII letter or digit, an
      underscore or a hyphen. */
  predicate UsernameChar(c: char) {
    ('a' <= c <= 'z') || ('A' <= c <= 'Z') || ('0' <= c <= '9') || c == '_' || c == '-'
  }

  datatype ProfileForm = ProfileForm(name: string, username: string, bio: string, website: string, twitter: string)

  datatype ProfileField = Name | Username | Bio | Website | Twitter

  predicate ProfileFieldOk(form: ProfileForm, isUrl: string -> bool, f: ProfileField) {
    match f
    case Name => 2 <= |form.name| <= 50
    case Username =>
      3 <= |form.username| <= 30 && forall i :: 0 <= i < |form.username| ==> UsernameChar(form.username[i])
    case Bio => |form.bio| <= 500
    case Website => Validation.UrlOrEmpty(form.website, isUrl)
    case Twitter => |form.twitter| <= 50
  }


  /** The failing profile fields, each once, in schema order. */
  function ProfileIssues(form: ProfileForm, isUrl: string -> bool): (r: seq<ProfileField>)
    ensures forall f :: f in r <==> !ProfileFieldOk(form, isUrl, f)
  {
    Validation.Check(ProfileFieldOk(form, isUrl, Name), Name) + Validation.Check(ProfileFieldOk(form, isUrl, Username), Username)
    + Validation.Check(ProfileFieldOk(form, isUrl, Bio), Bio) + Validation.Check(ProfileFieldOk(form, isUrl, Website), Website)
    + Validation.Check(ProfileFieldOk(form, isUrl, Twitter), Twitter)
  }

  /** Some user other than `me` already holds `username`. */
  predicate TakenByOther(db: Db, username: string, me: Id) {
    exists u :: u in db.users && u != me && db.users[u].username == Some(username)
  }

  /** No two users hold the same username. */
  ghost predicate UniqueUsernames(db: Db) {
    forall a, b :: a in db.users && b in db.users && db.users[a].username.Some? && db.users[a].username == db.users[b].username
      ==> a == b
  }

  /** The caller's row after a valid profile update: empty optional fields
      are stored as null. */
  function Updated(u: User, form: ProfileForm): (v: User)
    ensures v.id == u.id && v.role == u.role
    ensures v.name == Some(form.name) && v.username == Some(form.username)
    ensures v.bio.None? <==> form.bio == ""
    ensures v.website.None? <==> form.website == ""
    ensures v.twitter.None? <==> form.twitter == ""
    ensures form.bio != "" ==> v.bio == Some(form.bio)
    ensures form.website != "" ==> v.website == Some(form.website)
    ensures form.twitter != "" ==> v.twitter == Some(form.twitter)
  {
    u.(name := Some(form.name), username := Some(form.username),
       bio := EmptyToNone(form.bio), website := EmptyToNone(form.website), twitter := EmptyToNone(form.twitter))
  }

  /** `updateProfile`: sign-in, then the schema, then the username must not
      belong to anyone else (keeping one's own is fine), then the update. */
  function UpdateProfile(db: Db, session: Session, form: ProfileForm, isUrl: string -> bool): (out: (Db, Result<(), UserError>))
    ensures out.1.Failure? ==> out.0 == db
    ensures session.None? ==> out.1 == Failure(NotSignedIn)
    ensures session.Some? && ProfileIssues(form, isUrl) != [] ==> out.1 == Failure(Invalid(ProfileIssues(form, isUrl)))
    ensures session.Some? && ProfileIssues(form, isUrl) == [] && TakenByOther(db, form.username, session.value)
            ==> out.1 == Failure(UsernameTaken)
    ensures out.1.Success? <==>
              && session.Some? && ProfileIssues(form, isUrl) == []
              && !TakenByOther(db, form.username, session.value) && session.value in db.users
    ensures out.1.Success? ==>
              && 2 <= |form.name| <= 50 && 3 <= |form.username| <= 30
              && (forall i :: 0 <= i < |form.username| ==> UsernameChar(form.username[i]))
              && |form.bio| <= 500 && (form.website == "" || isUrl(form.website)) && |form.twitter| <= 50
              && out.0 == db.(users := db.users[session.value := Updated(db.users[session.value], form)])
  {
    if session.None? then (db, Failure(NotSignedIn))
    else
      var issues := ProfileIssues(form, isUrl);
      if issues != [] then (db, Failure(Invalid(issues)))
      else if TakenByOther(db, form.username, session.value) then (db, Failure(UsernameTaken))
      else if session.value !in db.users then (db, Failure(StoreFailure))
      else
        assert ProfileFieldOk(form, isUrl, Name) && ProfileFieldOk(form, isUrl, Username);
        assert ProfileFieldOk(form, isUrl, Bio) && ProfileFieldOk(form, isUrl, Website);
        assert ProfileFieldOk(form, isUrl, Twitter);
        (db.(users := db.users[session.value := Updated(db.users[session.value], form)]), Success(()))
  }

  /** Profile updates keep usernames unique. */
  lemma UpdateProfileKeepsUnique(db: Db, session: Session, form: ProfileForm, isUrl: string -> bool)
    requires UniqueUsernames(db)
    ensures UniqueUsernames(UpdateProfile(db, session, form, isUrl).0)
  {
    var (db', r) := UpdateProfile(db, session, form, isUrl);
    if r.Success? {
      var me := session.value;
      assert !TakenByOther(db, form.username, me);
      assert db'.users[me].username == Some(form.username);
      forall a, b | a in db'.users && b in db'.users && db'.users[a].username.Some? && db'.users[a].username == db'.users[b].username
        ensures a == b
      {
        if a != me && b != me {
          assert db'.users[a] == db.users[a] && db'.users[b] == db.users[b];
        }
      }
    }
  }

  /** Re-submitting one's own username is not a conflict. */
  lemma OwnUsernameNotTaken(db: Db, me: Id, form: ProfileForm)
    requires UniqueUsernames(db)
    requires me in db.users && db.users[me].username == Some(form.username)
    ensures !TakenByOther(db, form.username, me)
  {
  }

  /** Setting a role keeps usernames unique. */
  lemma SetUserRoleKeepsUnique(db: Db, session: Session, role: string)
    requires UniqueUsernames(db)
    ensures UniqueUsernames(SetUserRole(db, session, role).0)
  {
    var (db', r) := SetUserRole(db, session, role);
    if r.Success? {
      forall u | u in db'.users
        ensures db'.users[u].username == db.users[u].username
      {
      }
    }
  }
}
