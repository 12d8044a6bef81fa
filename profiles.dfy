/** The `profiles` collection: the document a save builds (src/app/api/editProfile/route.ts),
    the `updateOne(..., { $set }, { upsert: true })` it performs, and the two read routes. */
module Profiles {
  import opened Wrappers
  import opened Documents
  import opened Http
  import Collection

  /** Filter `{ userId }`. */
  function ByUserId(userId: string): Doc -> bool {
    (d: Doc) => HasField(d, "userId", userId)
  }

  /** Filter `{ email }`. */
  function ByEmail(email: string): Doc -> bool {
    (d: Doc) => HasField(d, "email", email)
  }

  /** What every save keeps: each document carries a string `userId`, and no two share one. */
  ghost predicate OnePerUser(docs: seq<Doc>) {
    && (forall i :: 0 <= i < |docs| ==> "userId" in docs[i] && docs[i]["userId"].Scalar? && docs[i]["userId"].value.Text?)
    && (forall i, j :: 0 <= i < j < |docs| && "userId" in docs[i] && "userId" in docs[j] ==> docs[i]["userId"] != docs[j]["userId"])
  }

  /** The file of the multipart `avatar` entry, when it is a non-empty file
      (`avatar && avatar.size > 0`). A text entry has no `size`, so it never counts. */
  predicate HasUpload(formData: seq<FormEntry>) {
    var a := FormGet(formData, "avatar");
    a.Some? && a.value.File? && a.value.file.size > 0
  }

  /** The public path recorded for the avatar: `/uploads/<id>-<file name>` for a non-empty
      upload, where `id` is the generated unique id, and "" otherwise. */
  function ImagePath(formData: seq<FormEntry>, id: string): (path: string)
    ensures HasUpload(formData) ==> path == "/uploads/" + id + "-" + FormGet(formData, "avatar").value.file.name
    ensures !HasUpload(formData) ==> path == ""
    ensures path == "" || path[..9] == "/uploads/"
  {
    if HasUpload(formData) then "/uploads/" + id + "-" + FormGet(formData, "avatar").value.file.name else ""
  }

  /** Entry `i` is the last one with its key: the one `Object.fromEntries` keeps. */
  predicate IsLastEntry(formData: seq<FormEntry>, i: int) {
    0 <= i < |formData| && forall j :: i < j < |formData| ==> formData[j].key != formData[i].key
  }

  /** `fullProfile`: every submitted entry (last value per key), then `dob` as a date of the
      FIRST `dob` entry, `avatar` as the handler's path and `userId` as the session's id,
      which take precedence over any submitted entries of those names. */
  function FullProfile(formData: seq<FormEntry>, imagePath: string, userId: string): (doc: Doc)
    ensures doc.Keys == FromEntries(formData).Keys + {"dob", "avatar", "userId"}
    ensures HasField(doc, "userId", userId)
    ensures HasField(doc, "avatar", imagePath)
    ensures doc["dob"] == DateOf(FormGet(formData, "dob"))
    ensures forall k :: k in doc && k !in {"dob", "avatar", "userId"} ==>
      exists i :: IsLastEntry(formData, i) && formData[i].key == k && doc[k] == Scalar(formData[i].value)
  {
    var fields := FromEntries(formData);
    LastEntryOf(formData);
    fields["dob" := DateOf(FormGet(formData, "dob"))]["avatar" := Str(imagePath)]["userId" := Str(userId)]
  }

  /** Every key of the entries has a last entry, and `FromEntries` holds its value. */
  lemma {:induction false} LastEntryOf(formData: seq<FormEntry>)
    ensures forall k :: k in FromEntries(formData) ==>
      exists i :: IsLastEntry(formData, i) && formData[i].key == k && FromEntries(formData)[k] == Scalar(formData[i].value)
  {
    var m := FromEntries(formData);
    forall k | k in m
      ensures exists i :: IsLastEntry(formData, i) && formData[i].key == k && m[k] == Scalar(formData[i].value)
    {
      var i :| 0 <= i < |formData| && formData[i].key == k;
      while exists j :: i < j < |formData| && formData[j].key == k
        invariant 0 <= i < |formData| && formData[i].key == k
        decreases |formData| - i
      {
        var i' :| i < i' < |formData| && formData[i'].key == k;
        i := i';
      }
      assert IsLastEntry(formData, i);
    }
  }

  /** `updateOne({ userId }, { $set: changes }, { upsert: true })`: the first document with that
      `userId` gets the fields of `changes` written over its own; with none, `changes` is inserted. */
  function Upsert(docs: seq<Doc>, userId: string, changes: Doc): (r: seq<Doc>)
    ensures (forall j :: 0 <= j < |docs| ==> !HasField(docs[j], "userId", userId)) ==> r == docs + [changes]
    ensures forall i :: 0 <= i < |docs| && HasField(docs[i], "userId", userId) &&
                        (forall j :: 0 <= j < i ==> !HasField(docs[j], "userId", userId)) ==>
              |r| == |docs| && r[i] == docs[i] + changes && forall j :: 0 <= j < |docs| && j != i ==> r[j] == docs[j]
  {
    match Collection.FirstIndex(docs, ByUserId(userId))
    case Some(i) => docs[i := docs[i] + changes]
    case None => docs + [changes]
  }

  /** GET /api/profile: 401 without a session user id, else the first profile with that
      `userId`, or null. */
  function GetProfile(docs: seq<Doc>, sessionUserId: Option<string>): (r: Response)
    ensures !Truthy(sessionUserId) ==> r == JsonStatus(ErrorBody("Unauthorized"), 401)
    ensures Truthy(sessionUserId) ==> r.status == 200 && r.body.ProfileBody? && r.cookie.None?
    ensures Truthy(sessionUserId) ==>
      (r.body.profile.Some? <==> exists d :: d in docs && HasField(d, "userId", sessionUserId.value))
    ensures Truthy(sessionUserId) && r.body.profile.Some? ==>
      r.body.profile.value in docs && HasField(r.body.profile.value, "userId", sessionUserId.value)
    ensures Truthy(sessionUserId) && r.body.profile.Some? ==>
      exists i :: 0 <= i < |docs| && docs[i] == r.body.profile.value &&
                  forall j :: 0 <= j < i ==> !HasField(docs[j], "userId", sessionUserId.value)
  {
    if !Truthy(sessionUserId) then JsonStatus(ErrorBody("Unauthorized"), 401)
    else Json(ProfileBody(Collection.FindOne(docs, ByUserId(sessionUserId.value))))
  }

  /** GET /api/editProfile: 401 without a session email, else the first profile whose
      `email` FIELD equals the session email, or null. */
  function GetProfileByEmail(docs: seq<Doc>, sessionEmail: Option<string>): (r: Response)
    ensures !Truthy(sessionEmail) ==> r == JsonStatus(ErrorBody("Unauthorized"), 401)
    ensures Truthy(sessionEmail) ==> r.status == 200 && r.body.ProfileBody? && r.cookie.None?
    ensures Truthy(sessionEmail) ==>
      (r.body.profile.Some? <==> exists d :: d in docs && HasField(d, "email", sessionEmail.value))
    ensures Truthy(sessionEmail) && r.body.profile.Some? ==>
      r.body.profile.value in docs && HasField(r.body.profile.value, "email", sessionEmail.value)
    ensures Truthy(sessionEmail) && r.body.profile.Some? ==>
      exists i :: 0 <= i < |docs| && docs[i] == r.body.profile.value &&
                  forall j :: 0 <= j < i ==> !HasField(docs[j], "email", sessionEmail.value)
  {
    if !Truthy(sessionEmail) then JsonStatus(ErrorBody("Unauthorized"), 401)
    else Json(ProfileBody(Collection.FindOne(docs, ByEmail(sessionEmail.value))))
  }

  /** The document a save leaves for `userId`: the previous one with the new fields
      written over it, or the new fields alone. */
  function Merged(docs: seq<Doc>, userId: string, changes: Doc): Doc {
    match Collection.FindOne(docs, ByUserId(userId))
    case Some(prev) => prev + changes
    case None => changes
  }

  /** `$set` semantics of the upsert as seen through a later lookup by `userId`: the stored
      document has every written field with its new value, keeps every other field it had,
      and nothing else. Documents of other users stay where they were, unchanged, and the
      collection grows only when the user had no profile. */
  lemma {:induction false} UpsertSetSemantics(docs: seq<Doc>, userId: string, changes: Doc)
    requires HasField(changes, "userId", userId)
    ensures Collection.FindOne(Upsert(docs, userId, changes), ByUserId(userId)) == Some(Merged(docs, userId, changes))
    ensures forall k :: k in changes ==> k in Merged(docs, userId, changes) && Merged(docs, userId, changes)[k] == changes[k]
    ensures Collection.FindOne(docs, ByUserId(userId)).Some? ==>
      var prev := Collection.FindOne(docs, ByUserId(userId)).value;
      Merged(docs, userId, changes).Keys == prev.Keys + changes.Keys &&
      forall k :: k in prev && k !in changes ==> Merged(docs, userId, changes)[k] == prev[k]
    ensures Collection.FindOne(docs, ByUserId(userId)).None? ==> Merged(docs, userId, changes) == changes
    ensures |Upsert(docs, userId, changes)| == |docs| + (if Collection.FindOne(docs, ByUserId(userId)).Some? then 0 else 1)
    ensures forall j :: 0 <= j < |docs| && !HasField(docs[j], "userId", userId) ==> Upsert(docs, userId, changes)[j] == docs[j]
  {
    var p := ByUserId(userId);
    var r := Upsert(docs, userId, changes);
    match Collection.FirstIndex(docs, p)
    case Some(i) =>
      assert r == docs[i := docs[i] + changes];
      assert p(r[i]);
      Collection.FirstIndexIs(r, p, i);
    case None =>
      Collection.FirstIndexAppend(docs, changes, p);
  }

  /** A save keeps one document per user, and afterwards exactly one document carries the
      saving user's id. */
  lemma {:induction false} UpsertOnePerUser(docs: seq<Doc>, userId: string, changes: Doc)
    requires OnePerUser(docs)
    requires HasField(changes, "userId", userId)
    ensures OnePerUser(Upsert(docs, userId, changes))
    ensures var r := Upsert(docs, userId, changes);
      && (exists j :: 0 <= j < |r| && HasField(r[j], "userId", userId))
      && (forall j, k :: 0 <= j < k < |r| && HasField(r[j], "userId", userId) ==> !HasField(r[k], "userId", userId))
  {
    var p := ByUserId(userId);
    var r := Upsert(docs, userId, changes);
    match Collection.FirstIndex(docs, p)
    case Some(i) =>
      assert r == docs[i := docs[i] + changes];
      assert forall j :: 0 <= j < |r| ==> "userId" in r[j] && r[j]["userId"] == docs[j]["userId"];
      assert HasField(r[i], "userId", userId);
    case None =>
      assert r == docs + [changes];
      assert forall j :: 0 <= j < |docs| ==> r[j] == docs[j] && !p(docs[j]);
      assert HasField(r[|docs|], "userId", userId);
  }

  /** GET /api/profile after a save for the same user returns the stored document. */
  lemma GetAfterSave(docs: seq<Doc>, userId: string, changes: Doc)
    requires userId != ""
    requires HasField(changes, "userId", userId)
    ensures GetProfile(Upsert(docs, userId, changes), Some(userId)) == Json(ProfileBody(Some(Merged(docs, userId, changes))))
  {
    UpsertSetSemantics(docs, userId, changes);
  }

  /** What a save stores for the session's user: the session's `userId` whatever the form
      said, the handler's avatar path (so "" replaces an earlier avatar when no file is
      sent), `dob` as a date of the submitted value, and the last submitted value of every
      other field. */
  lemma SavedDocument(docs: seq<Doc>, userId: string, formData: seq<FormEntry>, id: string)
    ensures var d := Merged(docs, userId, FullProfile(formData, ImagePath(formData, id), userId));
      && HasField(d, "userId", userId)
      && HasField(d, "avatar", ImagePath(formData, id))
      && (!HasUpload(formData) ==> HasField(d, "avatar", ""))
      && d["dob"] == DateOf(FormGet(formData, "dob"))
      && forall i :: IsLastEntry(formData, i) && formData[i].key !in {"dob", "avatar", "userId"} ==>
           formData[i].key in d && d[formData[i].key] == Scalar(formData[i].value)
  {
    var full := FullProfile(formData, ImagePath(formData, id), userId);
    UpsertSetSemantics(docs, userId, full);
  }

  /** The two read routes use different keys: a profile saved for "alice" whose form gave
      another email is found by GET /api/profile but not by GET /api/editProfile for the
      session email "alice@abc.com". */
  lemma LookupKeysDiffer()
    ensures var docs := [FullProfile([FormEntry("email", Text("alice@home.test"))], "", "alice")];
      && GetProfile(docs, Some("alice")).body.profile.Some?
      && GetProfileByEmail(docs, Some("alice@abc.com")).body.profile.None?
  {
    var entries := [FormEntry("email", Text("alice@home.test"))];
    var d := FullProfile(entries, "", "alice");
    assert IsLastEntry(entries, 0);
    assert d["email"] == Str("alice@home.test");
    assert "alice@home.test" != "alice@abc.com" by {
      assert "alice@home.test"[6] != "alice@abc.com"[6];
    }
    assert !HasField(d, "email", "alice@abc.com");
    assert [d][0] == d;
  }
}

