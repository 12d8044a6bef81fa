# Account and profile web app — a Dafny model

A model of the logic inside a small Next.js account app. Users register with a user id and
a password, log in and keep a multi-tab personal profile, which may include an uploaded
avatar. The model has three parts:

- **Server state and route handlers.** The `users` and `profiles` collections of the
  document database are fields of the class `Store.AccountStore`. Each collection is a
  sequence of documents in natural order, and `findOne` returns the first document that
  matches (`Collection.FindOne`).
  - `Register` (POST /api/register) reads and writes `users`.
  - `SaveProfile` (POST /api/editProfile) reads and writes `profiles`.
  - `ResolveSession` (next-auth's `session` callback) sets a field of a `Store.Session`
    object in place.
  - The read-only handlers are pure functions over the collections: `Users.Login`,
    `Users.Authorize`, `Profiles.GetProfile` and `Profiles.GetProfileByEmail`.
  - `AccountStore.Valid()` is the store invariant. Every user id is unique and non-empty,
    every password is non-empty, and every email is `userId + "@abc.com"`. Each profile
    carries a string `userId`, and no two profiles share one.
- **The two profile views.** `EditProfileForm` holds the validation schema, the tab labels,
  the choice of section per tab, and the submit handler's body and tab advance. The
  handler lives in the class `EditForm`. `ProfileView` holds the visible tabs, the avatar
  or initials, the `'—'` defaults and which panels are rendered. The section shown depends
  on the pair (tab index, marital status), not on the index alone.
- **The registration page's submit handler** (`RegisterPage.Page.OnSubmit`). It covers the
  password confirmation, the request body, the error message it shows and the `loggedIn`
  cookie.

Things the code does that the model keeps as they are:

- The edit form posts to `/api/profile` (src/app/components/EditProfileForm.tsx:120).
  That route only handles GET. The only save handler is POST /api/editProfile, which is
  what `SaveProfile` models. The form's reaction to a reply is modelled with the reply as
  a parameter (`SaveOutcome`).
- GET /api/editProfile finds a profile by its `email` field. GET /api/profile finds it by
  `userId`. `Profiles.LookupKeysDiffer` gives a state where one route finds the profile
  and the other does not.
- A save merges fields with `$set`. It does not replace the whole document, so fields
  stored earlier and not sent again stay. A save without a file writes `avatar: ""`.
  Both follow the code.
- The save reply carries the document the handler built (`fullProfile`), not the merged
  stored document (src/app/api/editProfile/route.ts:51). The model follows the code.
- `authorize` does no emptiness check. `Users.AuthorizeAgreesWithLogin` shows it accepts
  the same pairs as the login route whenever the store invariant holds.
- Passwords are stored and compared as plain text, as in the code.
- When the marital status is not "Married", the form shows three tabs.

Behaviour that stays latent while the form posts to `/api/profile`, a route that exports
only GET (src/app/components/EditProfileForm.tsx:120, src/app/api/profile/route.ts:7): no
form body reaches POST /api/editProfile, and no reply to the form carries `success`. Were
the URL corrected:

- A form that was reset to a stored profile with an avatar would send that path as a text
  `avatar` entry (src/app/components/EditProfileForm.tsx:87, 109-113), and then the newly
  chosen file under the same key (116-118). `formData.get('avatar')` would read the first
  entry, the text one, so the server would ignore the upload and store `avatar: ""`.
  `Store.ResubmittedAvatarHidesUpload` states this for the body the form builds.
- A successful save on index 2 of a three-tab form would move to index 3. That index has
  no tab but still shows the preferences panel. `EditProfileForm.EditForm.OnSubmit` states
  the tab advance for a reply with `success`.

Parameters stand in for what the code takes from outside:

- the session user id or email that `getServerSession` yields;
- the generated uuid of an uploaded file;
- `NODE_ENV === 'production'`;
- the current year, the year JavaScript's `Date` reads from a date string, and the email
  test of the validation library (`EditProfileForm.Context`);
- the outcome of each `fetch` a page makes.

## Model

| member | source | states |
|---|---|---|
| `Collection.FindOne` | src/app/api/register/route.ts:19 | `findOne(filter)` finds a document exactly when one matches, and then it is the FIRST match in natural order |
| `Documents.FormGet` | src/app/api/editProfile/route.ts:21 | `formData.get(key)` is absent exactly when no entry has the key; when present, it is the value of the FIRST entry with that key |
| `Documents.FromEntries` | src/app/api/editProfile/route.ts:35 | the keys are exactly those of the entries, and each key holds the value of its last entry |
| `Users.DerivedEmail` | src/app/api/register/route.ts:8 | the email is the user id followed by `@abc.com`, 8 characters longer |
| `Users.EmailCookie` | src/app/api/login/route.ts:25-31 | cookie `userEmail` holding the email: path `/`, readable by scripts, `sameSite` lax, secure exactly in production, max age seven days in seconds |
| `Users.Login` | src/app/api/login/route.ts:4-38 | the status is 400, 401 or 200; 400 exactly when userId or password is missing or empty; 200 exactly when a stored record matches both exactly; on 200 the body has that record's email and a `userEmail` cookie with that email, path `/`, not httpOnly, lax, secure only in production, max age 604800 s |
| `Users.Authorize` | lib/auth.ts:13-29 | null without credentials; a user exactly when a record matches userId and password; the result carries that record's id and email |
| `Users.SessionUserId` | lib/auth.ts:37-43 | a user id exactly when some record has the session's email, and then it is that record's user id |
| `Users.DerivedEmailInjective` | src/app/api/register/route.ts:8 | two user ids with the same derived `@abc.com` email are equal |
| `Users.EmailIdentifiesUser` | src/app/api/register/route.ts:19-24 | in a well-formed users collection no two records share an email |
| `Users.LoginThenSession` | lib/auth.ts:34-46 | after a successful login, resolving a session by the returned email gives back the user id that logged in |
| `Users.AuthorizeAgreesWithLogin` | lib/auth.ts:18-23 | on a well-formed store, `authorize` accepts a pair exactly when the login route answers 200 |
| `Users.AuthorizeIdsDistinct` | lib/auth.ts:23-28 | while object ids increase in insertion order, two users authorized under different user ids get different session ids |
| `Users.AppendFreshKeepsWellFormed` | src/app/api/register/route.ts:19-24 | inserting a record for an id not yet present keeps user ids unique and records well-formed |
| `Users.LoginAfterRegister` | src/app/api/login/route.ts:16-31 | after registration appended the record for (u, p), login with (u, p) answers 200 with email `u@abc.com` and the 7-day cookie |
| `Profiles.ImagePath` | src/app/api/editProfile/route.ts:23-32 | `/uploads/<id>-<name>` for a non-empty uploaded `avatar` file, and "" otherwise |
| `Store.UploadedImagePath` | src/app/api/editProfile/route.ts:21-32 | the handler's imperative avatar step computes exactly `ImagePath` |
| `Store.ResubmittedAvatarHidesUpload` | src/app/api/editProfile/route.ts:21-24 | when the form's values already hold an `avatar` path, the body the form sends (that path as text, then the new file) counts as no upload, and the saved avatar path is "" |
| `Profiles.FullProfile` | src/app/api/editProfile/route.ts:34-39 | the keys are the submitted ones plus `dob`, `avatar` and `userId`; `userId` is the session's, overriding any submitted value; `avatar` is the handler's path; `dob` is the date of the submitted value; every other key holds its last submitted value |
| `Profiles.LastEntryOf` | src/app/api/editProfile/route.ts:35 | each key of `Object.fromEntries` holds the value of the last entry with that key |
| `Profiles.Upsert` | src/app/api/editProfile/route.ts:45-49 | with no document for the userId, the written fields are appended as a new document; otherwise the FIRST document with that userId gets the written fields over its own, and no other document changes |
| `Profiles.UpsertSetSemantics` | src/app/api/editProfile/route.ts:45-49 | after the upsert, the lookup by userId finds the merged document: written fields take their new values, the other stored fields keep theirs, a new profile is the written fields alone; other users' documents are unchanged; the collection grows only when the user had no profile |
| `Profiles.UpsertOnePerUser` | src/app/api/editProfile/route.ts:45-49 | the upsert keeps one profile per userId, and afterwards exactly one document has the saving user's id |
| `Profiles.SavedDocument` | src/app/api/editProfile/route.ts:23-39 | the stored profile has the session's userId, the handler's avatar path ("" when no file was sent, even over an earlier avatar), `dob` as a date, and the last submitted value of every other field |
| `Profiles.GetProfile` | src/app/api/profile/route.ts:7-20 | 401 without a session userId; otherwise 200 with a profile exactly when one has that userId, and the profile it returns is the first of those |
| `Profiles.GetAfterSave` | src/app/api/profile/route.ts:17-19 | after a save for u, GET with session userId u returns the merged stored document |
| `Profiles.GetProfileByEmail` | src/app/api/editProfile/route.ts:58-79 | 401 without a session email; otherwise 200 with a profile exactly when one has that `email` field, and the profile it returns is the first of those, which may belong to another user when emails repeat |
| `Profiles.LookupKeysDiffer` | src/app/api/editProfile/route.ts:72 | a stored profile can be found by userId (GET /api/profile) but not by the session's email (GET /api/editProfile) |
| `Store.AccountStore.Register` | src/app/api/register/route.ts:4-31 | 400 without a change when a field is missing or empty; 409 without a change when a record has that userId; otherwise exactly one record {userId, password, userId@abc.com} is appended; profiles never change; the invariant is kept |
| `Store.AccountStore.SaveProfile` | src/app/api/editProfile/route.ts:9-56 | 401 without a session userId and nothing written; otherwise 200 with the built document, and the profiles become the upsert of it keyed by the session's userId; users never change; the invariant is kept |
| `Store.AccountStore.ResolveSession` | lib/auth.ts:34-46 | the same session comes back; its email is unchanged; its userId becomes that of the user with its email, or stays as it was when there is none; the store is not modified |
| `Store.RegisterTwice` | src/app/api/register/route.ts:19-24 | registering the same valid pair twice gives 200 for a new id, and the second attempt always gives 409 |
| `Store.RegisterThenLogin` | src/app/api/login/route.ts:24-31 | after a successful registration, login answers 200 with `userId@abc.com` and its cookie, and that email resolves back to the user id |
| `Store.SaveThenGet` | src/app/api/profile/route.ts:7-19 | a save answers 200, and a following GET returns a profile holding every field the save wrote |
| `EditProfileForm.TabLabels` | src/app/components/EditProfileForm.tsx:160-163 | "Spouse Details" is listed exactly when the status is "Married"; 4 labels or 3; label i names the section that tab i shows |
| `EditProfileForm.SectionsShown` | src/app/components/EditProfileForm.tsx:179-318 | for tabs 0..3 exactly one section is shown: Basic, Additional, then Spouse if Married and Preferences otherwise, then Preferences; other tab values show none |
| `EditProfileForm.Passes` | src/app/components/EditProfileForm.tsx:37-52 | one rule of `Schema`, the schema's eight rules in order: a required rule fails exactly on an empty value; the email rule passes exactly when the value is empty (left to the required rule) or passes the email test; the age rule passes exactly when the current year minus the birth year is at least 17 |
| `EditProfileForm.InvalidFields` | src/app/components/EditProfileForm.tsx:37-52 | a field has an error exactly when one of its schema rules fails |
| `EditProfileForm.SchemaMeaning` | src/app/components/EditProfileForm.tsx:37-50 | every rule passes exactly when the six required fields are filled, the email passes the email test, and the current year minus the birth year is at least 17 (month and day do not count) |
| `EditProfileForm.SubmitEnabled` | src/app/components/EditProfileForm.tsx:321 | the submit button is enabled exactly when the form is valid, in the terms above |
| `EditProfileForm.TruthyEntries` | src/app/components/EditProfileForm.tsx:109-113 | the entries are exactly the text entries of the non-empty field values, never more than the fields; when the keys are an object's (distinct), no key is sent twice |
| `EditProfileForm.TruthyEntriesFromEntries` | src/app/components/EditProfileForm.tsx:109-113 | for an object's values, the server's `Object.fromEntries` of the body has a key exactly when that field is non-empty, holding its value as text |
| `EditProfileForm.EditForm.SelectTab` | src/app/components/EditProfileForm.tsx:155 | the tab becomes the selected index; the chosen file is unchanged |
| `EditProfileForm.EditForm.ChooseFile` | src/app/components/EditProfileForm.tsx:193-199 | the first selected file replaces the chosen one; choosing none keeps it |
| `EditProfileForm.EditForm.BuildFormData` | src/app/components/EditProfileForm.tsx:107-118 | the body is the truthy fields in key order, then the avatar file under `avatar` only when one was chosen |
| `EditProfileForm.EditForm.OnSubmit` | src/app/components/EditProfileForm.tsx:104-137 | sends that body; after a reply with `success` the tab becomes min(tab + 1, 3); otherwise it stays |
| `ProfileView.FilterTabs` | src/app/components/Profile.tsx:66-68 | every kept tab passes the condition, and the result is no longer than its input |
| `ProfileView.FilterTabsMembers` | src/app/components/Profile.tsx:66-68 | a tab is kept exactly when it is listed and passes the condition |
| `ProfileView.VisibleTabs` | src/app/components/Profile.tsx:29-68 | all four tabs when Married; otherwise the list with "Spouse Details" removed and the order kept; 4 or 3 entries; the same labels as the edit form |
| `ProfileView.Initials` | src/app/components/Profile.tsx:70 | "?" exactly when the first or last name is empty; otherwise their two first characters |
| `ProfileView.AvatarOf` | src/app/components/Profile.tsx:71-122 | an image source exactly when `avatar` is not empty, and then it is `avatar`; the initials are shown exactly when there is no image |
| `ProfileView.OrDash` | src/app/components/Profile.tsx:139 | never empty; a non-empty value is shown as it is, and an empty one as '—' |
| `ProfileView.Rows` | src/app/components/Profile.tsx:127-166 | one row per field in the panel's order; an optional field falls back to '—', any other shows its value |
| `ProfileView.LayoutFields` | src/app/components/Profile.tsx:127-165 | each panel shows only fields of the form's data, none twice, and falls back to '—' on exactly the fields the schema does not require |
| `ProfileView.EveryFieldShown` | src/app/components/Profile.tsx:127-165 | every field of the form's data is shown on some panel |
| `ProfileView.PanelsDisjoint` | src/app/components/Profile.tsx:127-165 | two different panels never show the same field |
| `ProfileView.DashedExactlyOptional` | src/app/components/Profile.tsx:139-165 | the '—' fallback applies to exactly the optional profile fields |
| `ProfileView.EmptyOptionalShowsDash` | src/app/components/Profile.tsx:139-165 | an empty optional field reads '—'; salutation, names, email, postal code and date of birth are shown as stored |
| `ProfileView.PanelSections` | src/app/components/Profile.tsx:112-159 | the page's panel guards select exactly the sections the edit form shows for the same tab and status |
| `ProfileView.Render` | src/app/components/Profile.tsx:62-168 | a null profile renders "Profile not found."; otherwise the visible tabs, and one panel per section the edit form would show, each with its rows; only the basic panel has the avatar |
| `RegisterPage.Page.OnSubmit` | src/app/register/page.tsx:29-62 | when the passwords differ: the mismatch message, no request, no cookie. Otherwise: one request with only userId and password; the error is the server's message or the fallback on failure or a throw; success navigates to `/login`; the `loggedIn` cookie is always set, for 365 days with keep-logged-in and for the session otherwise |

## Left out

- The database driver and its connection handle: collections are sequences, and `findOne`,
  `insertOne` and `updateOne` are functions over them. The ids the driver assigns to users
  come from a counter in the store. Profile documents get no `_id`.
- `updateOne` treats field names literally. A dotted name (`a.b`) would update a nested
  path in the real database; the model does not model this.
- Exceptions and the 500 replies: a body that is not JSON, driver failures,
  `console`/`alert` calls.
- next-auth itself (`getServerSession`, `signIn`, signed tokens). A session is the email
  and user id the handlers read.
- Store.AccountStore.SaveProfile: a stored profile in the real database has an immutable
  `_id`. The edit form, reset to the fetched profile, also posts `_id` as a text entry.
  `$set` of that string over an existing profile's `_id` then fails, and with the try/catch
  commented out (src/app/api/editProfile/route.ts:10, 52-55) the POST fails instead of
  answering 200. The model gives profiles no `_id`, stores a submitted `_id` entry as an
  ordinary field, and answers 200.
- ProfileView.Initials: strings here are sequences of Unicode scalar values. JavaScript
  indexes UTF-16 code units, so for a name beginning with a character outside the Basic
  Multilingual Plane (such as an emoji), `firstName[0]` (src/app/components/Profile.tsx:70)
  is a lone surrogate, while the model takes the whole character.
- Users.Authorize: `user._id.toString()` is returned as the numeric id itself. `email ||
  ""` is the stored email, because every record has a string email.
- Users.SessionUserId: a session with no email matches no record. The query `{ email:
  undefined }` is not modelled.
- Writing the uploaded file (`mkdir`, `writeFile`) and `uuidv4`: only the resulting path is
  modelled, with the id as a parameter. Old avatar files are never deleted. That is not
  modelled.
- Concurrent requests: requests run one at a time here. Two concurrent registrations of the
  same new user id can both pass the `findOne` check before either `insertOne`, since no
  unique index backs it (src/app/api/register/route.ts:19-24). That would store the id
  twice, so user-id uniqueness and `Users.WellFormed` hold only for one-at-a-time requests.
  Likewise, concurrent saves race and the last write wins.
- Multipart parsing and JavaScript `Date`: `dob` is stored as `DateOf(value)`, an
  uninterpreted date of the submitted value. Invalid dates are not modelled.
- JSON serialisation between a stored document and the client's view of it: the views
  receive string fields, and an absent field reads as "".
- Values sent in JSON that are not strings (numbers, objects) for userId or password.
- The email regular expression of the validation library: a parameter.
- EditProfileForm.InvalidFields: reports which fields have an error, not the error text
  shown for each.
- The initial profile fetch of both views and its loading state, React rendering, styling
  and screen orientation.
- The registration form's own required-field checks, made before `onSubmit` runs.
- The login page and the navigation drawer, and the page and layout wrappers: they contain
  no logic of their own.
