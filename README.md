# Profile document manager

A Dafny model of the profile routes of a small social-profile backend
(`routes/api/profile.js`): the logic the route handlers run before and after
their single store call. The store is three in-memory maps (users, profiles
keyed by user id, posts), held by a `Store` class whose methods are the
handlers.

What is modelled:

- **The field set** (`profileFields`). Each scalar field (`company`,
  `website`, `location`, `bio`, `status`, `githubusername`) is copied only
  when its input is truthy, so an absent field and an empty string are both
  left out. `skills` is split on `,` and every piece trimmed with
  ECMAScript's `trim`, empty pieces kept. `social` is rebuilt from this
  request's truthy social inputs alone. `BuildProfileFields` is the
  handler's step-by-step builder; `ProfileFields` is the same set as a value.
- **Create or update.** An existing profile gets `$set`: every key of the
  field set overwrites, other fields stay, and `social` is replaced whole. A
  missing profile is created with empty `experience` and `education` and
  empty skills when none were given.
- **Nested lists.** Adding uses `unshift`, so the new entry goes to the
  front. Removing takes the index of the id with `indexOf` and calls
  `splice(index, 1)`. When the id is absent, `indexOf` gives -1 and
  `splice(-1, 1)` removes the LAST entry; an empty list stays empty. The
  model keeps this behaviour and states it (`Subdocs.RemoveById`).
- **Cascade delete.** The user's posts are removed, then the profile, then
  the user, as three map updates.
- **Validation and errors.** The validators (`status` and `skills`;
  `title`, `company`, `from`; `school`, `degree`, `fieldofstudy`, `from`)
  reject a request whose body field is absent or empty, with the source's
  messages, before any lookup or change. Only the body is consulted (see
  "Left out"). The read routes answer "there is no profile for this
  user" or "profile not found". Adding to or removing from a missing profile
  makes `profile.experience` throw on `null`, and the handler's catch answers
  with a server error. These outcomes are `Result`/`Failure` values.

Two consequences of the code are worth stating plainly. Fields are written
when their input is truthy, not whenever the key is present. Adding to or
removing from a missing profile gets the catch block's server error, not a
not-found answer.

Inputs that the source gets from outside are parameters. The caller's user
id comes from the authentication middleware. The id of a new nested entry
is a parameter that must not already occur in that list; the store generates
it in the source.

Modules: `Js` (absent-or-string request fields, truthiness), `Strings`
(`trim`, `split`, `join`), `Subdocs` (nested entries, `indexOf`, `splice`),
`Validation` (the `not().isEmpty()` checks), `Profiles` (documents, field
set, `$set` and creation), `ProfileStore` (the store and the handlers).

## Model

| member | source | states |
|---|---|---|
| `Strings.Trim` | routes/api/profile.js:73 | a trimmed skill is never longer than its piece and neither starts nor ends with ECMAScript white space |
| `Strings.TrimIsSlice` | routes/api/profile.js:73 | the trimmed skill is a contiguous slice of its piece, with only white space cut off on either side |
| `Strings.TrimOfPadded` | routes/api/profile.js:73 | trimming is determined: any white-space padding around a string without surrounding space trims back to that string |
| `Strings.TrimIdempotent` | routes/api/profile.js:73 | trimming twice equals trimming once |
| `Strings.Split` | routes/api/profile.js:73 | splitting on `,` gives one piece more than there are commas, and no piece contains a comma |
| `Strings.JoinSplit` | routes/api/profile.js:73 | joining the pieces with `,` gives back the original string, so no character is lost and empty pieces are kept |
| `Strings.SplitJoin` | routes/api/profile.js:73 | splitting a comma-join of comma-free pieces gives back exactly those pieces |
| `Profiles.TrimAll` | routes/api/profile.js:73 | mapping `trim` over the pieces keeps their number and trims each piece in place |
| `Profiles.ParseSkills` | routes/api/profile.js:72-74 | the parsed skills number the commas plus one, and none contains a comma |
| `Profiles.SkillsArePieces` | routes/api/profile.js:73 | skill i is piece i of the comma split, trimmed |
| `Profiles.ParseJoined` | routes/api/profile.js:73 | parsing a comma-joined list of comma-free pieces gives those pieces trimmed, in order |
| `Validation.Errors` | routes/api/profile.js:43-46 | the validation errors are empty exactly when every required field is a non-empty string; every failing check's message is reported and only those |
| `Profiles.ProfileErrors` | routes/api/profile.js:37-46 | create-or-update is rejected exactly when `status` or `skills` is absent or empty |
| `Profiles.ExperienceErrors` | routes/api/profile.js:183-196 | add-experience is rejected exactly when `title`, `company` or `from` is absent or empty |
| `Profiles.EducationErrors` | routes/api/profile.js:256-270 | add-education is rejected exactly when `school`, `degree`, `fieldofstudy` or `from` is absent or empty |
| `Profiles.Kept` | routes/api/profile.js:66-71 | one `if (x) profileFields.x = x` step: the input is kept exactly when it is truthy, and then unchanged |
| `Profiles.ProfileFields` | routes/api/profile.js:64-82 | no contract; the field set as a value, whose properties are `Profiles.FieldSetScalars`, `Profiles.UpsertSkills` and `Profiles.UpsertSocial` |
| `Profiles.BuildProfileFields` | routes/api/profile.js:64-82 | the builder's successive assignments produce the field set of the truthy inputs, parsed skills and a fresh social object |
| `Profiles.FieldSetScalars` | routes/api/profile.js:64-71 | a scalar is in the field set exactly when its input is truthy, and then with the input's value |
| `Profiles.Overlay` | routes/api/profile.js:92-96 | `$set` on the scalar fields: each field of the set overwrites the stored one, and a field not in the set keeps its stored value |
| `Profiles.ApplySet` | routes/api/profile.js:92-96 | no contract; `$set` of the field set on a stored profile, whose properties are `Profiles.UpsertScalars`, `Profiles.UpsertSkills`, `Profiles.UpsertSocial` and `Profiles.UpsertLists` |
| `Profiles.NewProfile` | routes/api/profile.js:104-106 | no contract; a new document from the field set, whose properties are the create cases of `Profiles.UpsertScalars`, `Profiles.UpsertSkills` and `Profiles.UpsertLists` |
| `Profiles.Upserted` | routes/api/profile.js:85-108 | no contract; update when the lookup found a profile, create otherwise, whose properties are the `Profiles.Upsert*` lemmas |
| `Profiles.UpsertScalars` | routes/api/profile.js:64-108 | after an upsert the profile belongs to the caller; a truthy scalar input is stored; a falsy one keeps the stored value on update and leaves the field absent on create |
| `Profiles.UpsertSkills` | routes/api/profile.js:72-108 | truthy skills replace the stored list by their parse; otherwise the stored list stays on update and is empty on create |
| `Profiles.UpsertSocial` | routes/api/profile.js:77-96 | after any upsert `social` holds exactly this request's truthy social inputs; earlier keys not supplied again are gone |
| `Profiles.UpsertLists` | routes/api/profile.js:85-108 | creating starts with empty experience and education; updating leaves both lists unchanged |
| `Profiles.UpsertWellFormed` | routes/api/profile.js:85-108 | an upsert keeps the profile under its user and its entry ids distinct |
| `Profiles.SecondUpdateKeepsScalarDropsSocial` | routes/api/profile.js:64-96 | of two successive updates, a scalar only the first set survives while a social key only the first set is dropped |
| `Subdocs.Ids` | routes/api/profile.js:240 | `list.map(item => item.id)`: one id per entry, in the same order |
| `Subdocs.IndexOf` | routes/api/profile.js:240 | `indexOf` gives -1 exactly when the id is absent, and otherwise the first position holding it |
| `Subdocs.RemoveAt` | routes/api/profile.js:242 | removing position k shortens the list by one and keeps every other entry in its order |
| `Subdocs.SpliceOne` | routes/api/profile.js:242 | `splice(start, 1)` removes the entry at `start`, counts a negative `start` from the end (clamped at 0), removes nothing past the end, and leaves an empty list empty |
| `Subdocs.RemoveById` | routes/api/profile.js:240-242 | with the id present exactly its first entry is removed and the rest keep their order; with the id absent the last entry is removed and an empty list stays empty; distinct ids stay distinct and the removed id is gone |
| `Subdocs.UnshiftDistinct` | routes/api/profile.js:220 | putting an entry with a fresh id at the front keeps the list's ids distinct |
| `ProfileStore.Find` | routes/api/profile.js:85 | the lookup finds a profile exactly when the user has one, and returns it |
| `ProfileStore.PostsNotBy` | routes/api/profile.js:163 | after deleting a user's posts none of theirs remain, every other post is unchanged, and no post is added |
| `ProfileStore.Store.GetCurrentProfile` | routes/api/profile.js:18-24 | the caller's own profile is returned exactly when it exists; otherwise the answer is "there is no profile for this user" |
| `ProfileStore.Store.GetProfileByUser` | routes/api/profile.js:139-144 | the user's profile is returned exactly when it exists; otherwise the answer is "profile not found" |
| `ProfileStore.Store.CreateOrUpdate` | routes/api/profile.js:42-108 | a validation failure changes nothing and lists the messages; otherwise only the caller's profile changes, to the upsert of the field set, and it is returned |
| `ProfileStore.Store.AddExperience` | routes/api/profile.js:192-226 | a validation failure or a missing profile changes nothing; otherwise the new entry is put in front of the old list, and only that list changes |
| `ProfileStore.Store.RemoveExperience` | routes/api/profile.js:235-248 | a missing profile changes nothing and gives a server error; otherwise only the experience list changes, as `RemoveById` says |
| `ProfileStore.Store.AddEducation` | routes/api/profile.js:266-300 | a validation failure or a missing profile changes nothing; otherwise the new entry is put in front of the old list, and only that list changes |
| `ProfileStore.Store.RemoveEducation` | routes/api/profile.js:309-322 | a missing profile changes nothing and gives a server error; otherwise only the education list changes, as `RemoveById` says |
| `ProfileStore.Store.DeleteCascade` | routes/api/profile.js:159-172 | afterwards no post, profile or user of the caller is left, and all posts, profiles and users of other ids are unchanged |
| `ProfileStore.AddExperienceTwice` | routes/api/profile.js:219-222 | after two additions the second entry is at index 0 and the first at index 1, ahead of the older entries |
| `ProfileStore.RecreatedAfterDelete` | routes/api/profile.js:101-108 | a profile created after a cascade delete starts with empty experience and education, whatever existed before |

## Left out

- The GitHub repository passthrough (`routes/api/profile.js:329-350`): a network request and `JSON.parse`, no logic of its own.
- Listing all profiles (`routes/api/profile.js:122-130`): a single store query whose order the store decides.
- `ProfileStore.Store.GetCurrentProfile`, `ProfileStore.Store.GetProfileByUser`: return the stored profile without the `populate` join that adds the user's name and avatar.
- The `ObjectId` cast error branch of the read by user id (`routes/api/profile.js:147-150`): ids are plain strings here; that branch answers "profile not found" like the missing-profile case.
- Store failures: every store call is taken to succeed. Only the failure the code itself causes (dereferencing a missing profile on add or remove) is modelled, as `ServerError`.
- Non-string JSON values in the request body (numbers, arrays, objects): text fields are absent or strings, so e.g. `skills.split` on a non-string, which throws outside the handler's `try`, is not modelled. The `current` flag of an entry is absent or a boolean, stored as given; its casting by the schema is not modelled.
- `Profiles.ProfileErrors`, `Profiles.ExperienceErrors`, `Profiles.EducationErrors`: the validators look a field up in the body, cookies, headers, route parameters and query string, and pass when any of them holds a non-empty value. The model consults the body alone. For example, `POST /?status=dev&skills=x` with an empty body passes the source's validation (and builds a field set with neither field), and a `From:` request header satisfies the `from` check, while the model rejects both.
- Strings are sequences of Unicode scalar values. JavaScript strings are UTF-16 code units, so a lone surrogate (from a JSON `\uD800` escape) cannot be represented; `trim` and `split(',')` behave the same on all other strings.
- The profile, user and post schemas (`models/*.js` is not part of this model): defaults such as `current: false` and `date`, casting of `from` and `to` to dates, and schema-level required checks. Dates are kept as their input text.
- Generation of nested entry ids: a fresh id is a parameter.
- HTTP status codes, Express routing, the authentication middleware and console logging; handler answers are `Result` values.
- Concurrent read-modify-write races between requests, and partial failure between the three cascade-delete steps (no transactions are used).
- `routes/api/users.js` and `routes/api/auth.js`: registration and login wrap password hashing, avatar URLs, token signing and one lookup each.
