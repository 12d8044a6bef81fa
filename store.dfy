/** The server's mutable state and the handlers that change it: POST /api/register
    (src/app/api/register/route.ts), POST /api/editProfile
    (src/app/api/editProfile/route.ts) and next-auth's `session` callback (lib/auth.ts). */
module Store {
  import opened Wrappers
  import opened Documents
  import opened Http
  import opened Users
  import Profiles
  import Collection
  import EditProfileForm

  /** The `user` part of a next-auth session, which the `session` callback updates in place. */
  class Session {
    var email: Option<string>
    var userId: Option<string>

    constructor (email: Option<string>)
      ensures this.email == email && userId.None?
    {
      this.email := email;
      userId := None;
    }
  }

  /** The two collections of the document database. */
  class AccountStore {
    var users: seq<UserRecord>
    var profiles: seq<Doc>
    /** The object id the next inserted user receives. */
    var nextOid: nat

    ghost predicate Valid()
      reads this
    {
      && WellFormed(users)
      && OidsIncreasing(users, nextOid)
      && Profiles.OnePerUser(profiles)
    }

    constructor ()
      ensures Valid() && users == [] && profiles == []
    {
      users := [];
      profiles := [];
      nextOid := 0;
    }

    /** POST /api/register with body `{ userId, password }`. */
    method Register(userId: Option<string>, password: Option<string>) returns (r: Response)
      requires Valid()
      modifies this
      ensures Valid()
      ensures profiles == old(profiles)
      ensures !Truthy(userId) || !Truthy(password) ==>
        r == JsonStatus(ErrorBody("Missing required fields"), 400) && users == old(users) && nextOid == old(nextOid)
      ensures Truthy(userId) && Truthy(password) && (exists u :: u in old(users) && u.userId == userId.value) ==>
        r == JsonStatus(ErrorBody("User already exists"), 409) && users == old(users) && nextOid == old(nextOid)
      ensures Truthy(userId) && Truthy(password) && (forall u :: u in old(users) ==> u.userId != userId.value) ==>
        && r == Json(MessageBody("User registered successfully"))
        && users == old(users) + [UserRecord(old(nextOid), userId.value, password.value, DerivedEmail(userId.value))]
    {
      // `${userId}@abc.com` is formed before the check; a missing id renders as "undefined".
      var email := userId.GetOr("undefined") + EmailSuffix;

      if !Truthy(userId) || !Truthy(password) {
        return JsonStatus(ErrorBody("Missing required fields"), 400);
      }

      var existing := Collection.FindOne(users, Users.ByUserId(userId.value));
      if existing.Some? {
        return JsonStatus(ErrorBody("User already exists"), 409);
      }

      var record := UserRecord(nextOid, userId.value, password.value, email);
      AppendFreshKeepsWellFormed(users, record);
      users := users + [record];
      nextOid := nextOid + 1;
      r := Json(MessageBody("User registered successfully"));
    }

    /** POST /api/editProfile. `sessionUserId` is the session's resolved user id and `id`
        the generated unique id for an uploaded file's name. */
    method SaveProfile(sessionUserId: Option<string>, formData: seq<FormEntry>, id: string) returns (r: Response)
      requires Valid()
      modifies this
      ensures Valid()
      ensures users == old(users) && nextOid == old(nextOid)
      ensures !Truthy(sessionUserId) ==> r == JsonStatus(ErrorBody("Unauthorized"), 401) && profiles == old(profiles)
      ensures Truthy(sessionUserId) ==>
        var full := Profiles.FullProfile(formData, Profiles.ImagePath(formData, id), sessionUserId.value);
        && r == Json(SavedBody(true, full))
        && profiles == Profiles.Upsert(old(profiles), sessionUserId.value, full)
    {
      if !Truthy(sessionUserId) {
        return JsonStatus(ErrorBody("Unauthorized"), 401);
      }
      var userId := sessionUserId.value;

      var imagePath := UploadedImagePath(formData, id);
      var fullProfile := Profiles.FullProfile(formData, imagePath, userId);

      Profiles.UpsertOnePerUser(profiles, userId, fullProfile);
      profiles := Profiles.Upsert(profiles, userId, fullProfile);
      r := Json(SavedBody(true, fullProfile));
    }

    /** next-auth's `session` callback: attaches the user id of the first user whose email
        is the session's, and otherwise leaves the session as it was. */
    method ResolveSession(session: Session) returns (result: Session)
      modifies session
      ensures result == session
      ensures session.email == old(session.email)
      ensures session.userId == (if SessionUserId(users, session.email).Some?
                                 then SessionUserId(users, session.email) else old(session.userId))
    {
      var found := if session.email.Some? then Collection.FindOne(users, Users.ByEmail(session.email.value)) else None;
      if found.Some? {
        session.userId := Some(found.value.userId);
      }
      result := session;
    }
  }

  /** The avatar step of POST /api/editProfile: the path under which a non-empty uploaded
      `avatar` file is stored, or "" when the first `avatar` entry is no such file. */
  method UploadedImagePath(formData: seq<FormEntry>, id: string) returns (imagePath: string)
    ensures imagePath == Profiles.ImagePath(formData, id)
  {
    var avatar := FormGet(formData, "avatar");
    imagePath := "";
    if avatar.Some? && avatar.value.File? && avatar.value.file.size > 0 {
      // The file itself is written under public/uploads; only its path is modelled.
      var fileName := id + "-" + avatar.value.file.name;
      imagePath := "/uploads/" + fileName;
    }
  }

  /** Registering the same user id twice: the second attempt is a conflict, and the first
      succeeds when the id was new and both fields were given. */
  method RegisterTwice(store: AccountStore, userId: string, password: string) returns (first: Response, second: Response)
    requires store.Valid()
    modifies store
    ensures store.Valid()
    ensures userId != "" && password != "" && (forall u :: u in old(store.users) ==> u.userId != userId) ==>
      first.status == 200
    ensures userId != "" && password != "" ==> second == JsonStatus(ErrorBody("User already exists"), 409)
  {
    first := store.Register(Some(userId), Some(password));
    second := store.Register(Some(userId), Some(password));
  }

  /** Register then log in with the same pair: the login answers 200 with `userId@abc.com`
      and sets that email in the `userEmail` cookie; the session callback then resolves
      that email back to the same user id. */
  method RegisterThenLogin(store: AccountStore, userId: string, password: string, production: bool)
      returns (registered: Response, login: Response)
    requires store.Valid()
    modifies store
    ensures store.Valid()
    ensures registered.status == 200 ==>
      && login == Response(200, LoginBody("Login successful", DerivedEmail(userId)),
                           Some(EmailCookie(DerivedEmail(userId), production)))
      && SessionUserId(store.users, Some(login.body.email)) == Some(userId)
  {
    registered := store.Register(Some(userId), Some(password));
    login := Login(store.users, Some(userId), Some(password), production);
    if registered.status == 200 {
      LoginAfterRegister(old(store.users), old(store.nextOid), userId, password, production);
      LoginThenSession(store.users, userId, password, production);
    }
  }

  /** Save then read: GET /api/profile for the same session user returns the stored
      document, which carries every field the save wrote. */
  method SaveThenGet(store: AccountStore, userId: string, formData: seq<FormEntry>, id: string)
      returns (saved: Response, fetched: Response)
    requires store.Valid()
    requires userId != ""
    modifies store
    ensures store.Valid()
    ensures saved.status == 200 && saved.body.SavedBody?
    ensures fetched.status == 200 && fetched.body.ProfileBody? && fetched.body.profile.Some?
    ensures forall k :: k in saved.body.saved ==>
      k in fetched.body.profile.value && fetched.body.profile.value[k] == saved.body.saved[k]
  {
    saved := store.SaveProfile(Some(userId), formData, id);
    fetched := Profiles.GetProfile(store.profiles, Some(userId));
    var full := Profiles.FullProfile(formData, Profiles.ImagePath(formData, id), userId);
    Profiles.GetAfterSave(old(store.profiles), userId, full);
    Profiles.UpsertSetSemantics(old(store.profiles), userId, full);
  }

  /** The body the edit form sends for values that already hold a stored `avatar` path (the
      form is reset to the fetched profile) has that path as a text entry before the newly
      chosen file. `formData.get('avatar')` reads the first entry, the text, so the handler
      sees no upload: the file is not stored and the saved avatar is "". */
  lemma ResubmittedAvatarHidesUpload(values: Fields, file: Upload, id: string)
    requires Get(values, "avatar") != ""
    ensures var formData := EditProfileForm.TruthyEntries(values) + [FormEntry("avatar", File(file))];
      !Profiles.HasUpload(formData) && Profiles.ImagePath(formData, id) == ""
  {
    var front := EditProfileForm.TruthyEntries(values);
    var formData := front + [FormEntry("avatar", File(file))];
    var stored := FormEntry("avatar", Text(Get(values, "avatar")));
    assert stored in front;
    var i :| 0 <= i < |front| && front[i] == stored;
    assert formData[i] == stored;
    var first := FormGet(formData, "avatar");
    var k :| 0 <= k < |formData| && formData[k] == FormEntry("avatar", first.value) &&
             forall j :: 0 <= j < k ==> formData[j].key != "avatar";
    assert k <= i;
    assert formData[k] == front[k] && front[k] in front;
  }
}
