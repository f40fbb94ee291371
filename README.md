# sync-simulation-incremental, modelled in Dafny

This project models the in-memory core of a simulation platform written in TypeScript. It
covers:

- the **concepts**: session, saved-simulation storage, user, project, simulation type,
  renderer, simulation clock, camera, celestial body and API request log;
- the request-level helpers of the HTTP server: bearer tokens, session checks before an
  endpoint acts, and static paths and content types;
- the `.env` reader and the configuration defaults of the simple back-end;
- the browser-side simulation clock.

Each concept is a Dafny `class`. Its record map becomes a `map` field, and a `seq` of keys keeps
JavaScript `Map` insertion order wherever a result depends on it: first-match loops and query
order. The actions are `method`s with `modifies this`. They state the whole new state and the
exact error for each failing check, in the source's order. The queries are functions, or
methods where the source loops. Pure helpers are functions, and lemmas prove their properties:

- trimming, splitting and joining;
- the hex encoding of password digests;
- `parseInt`;
- last-one-wins `.env` assignment;
- the stable newest-first sort.

Each of the following becomes a parameter, and is not modelled:

- `Date.now()` is the `now` parameter, with `createdAt`/`updatedAt` where the source reads the
  clock twice.
- `crypto.randomUUID()` is the `token` parameter.
- The SHA-256 digest is the `digest` function given to the user store's constructor.
- The contents of `.env` are an `Option<string>`, with `None` meaning the file could not be read.
- The circular-orbit formula is the `circular` function parameter.

JavaScript numbers are `real`.

Files:

- `wrappers.dfy`: Option and Result.
- `text.dfy`: JavaScript string operations.
- `numerals.dfy`: printing and reading digits.
- `keyed.dfy`: insertion-ordered maps, filters and first-match search.
- `values.dfy`: JSON-like payloads, truthiness and object spread.
- One file per concept.
- `server.dfy`, `env_config.dfy` and `web_simulation.dfy`.

## Model

| member | source | states |
|---|---|---|
| Sessions.Verdict | concepts/SessionConcept.ts:32-54 | The checks of `validate` in order: missing gives "Session not found", inactive gives "Session is inactive", a token mismatch gives "Invalid token", and `now > expiresAt` gives "Session has expired". It succeeds exactly when the session is live. |
| Sessions.CreatedSessionLifetime | concepts/SessionConcept.ts:18-54 | A session stored by `create` validates until `now + duration*1000`, and is reported expired after that. |
| Sessions.SessionConcept.constructor | concepts/SessionConcept.ts:11 | The store starts empty. |
| Sessions.SessionConcept.Create | concepts/SessionConcept.ts:13-30 | An empty userId, an empty token or a duration ≤ 0 gives "Invalid session parameters" and no change. Otherwise it stores an active session with createdAt = now and expiresAt = now + duration*1000, replacing one with the same id, which keeps its position. |
| Sessions.SessionConcept.Validate | concepts/SessionConcept.ts:32-55 | Succeeds with `{id, userId}` exactly when the session is live, and otherwise returns the Verdict's error. Only the expired branch changes state, setting active to false. |
| Sessions.SessionConcept.Invalidate | concepts/SessionConcept.ts:57-70 | With a matching token it sets only `active := false`, whatever the flag was. Otherwise it gives "Session not found" or "Invalid token" and changes nothing. |
| Sessions.SessionConcept.Refresh | concepts/SessionConcept.ts:72-97 | A live session gets expiresAt = now + duration*1000. An expired one is deactivated instead. Every other case returns its Verdict error and changes nothing. |
| Sessions.SessionConcept.Cleanup | concepts/SessionConcept.ts:99-112 | Removes exactly the sessions with t > expiresAt, active or not. The others are kept unchanged and in order. |
| Sessions.SessionConcept.CollectExpired | concepts/SessionConcept.ts:100-107 | The first loop collects exactly the expired ids. |
| Sessions.SessionConcept.DeleteAll | concepts/SessionConcept.ts:109-111 | The second loop deletes exactly the collected ids. |
| Sessions.SessionConcept.GetById | concepts/SessionConcept.ts:115-126 | At most one session: the one stored under the id. |
| Sessions.SessionConcept.GetByToken | concepts/SessionConcept.ts:128-142 | At most one session: the first in insertion order holding the token. It is empty exactly when none holds it. |
| Sessions.SessionConcept.GetByUserId | concepts/SessionConcept.ts:144-161 | Exactly the active sessions of that user, in insertion order. |
| Sessions.SessionConcept.GetExpired | concepts/SessionConcept.ts:163-180 | Exactly the sessions with t > expiresAt, in insertion order. |
| Storage.ContentError | concepts/SimulationStorageConcept.ts:16-22 | A blank or all-white-space name gives "Simulation name cannot be empty". After that, falsy data gives "Simulation data cannot be empty". There is no error exactly when neither holds. |
| Storage.SimulationStorageConcept.constructor | concepts/SimulationStorageConcept.ts:13 | The store starts empty. |
| Storage.SimulationStorageConcept.Save | concepts/SimulationStorageConcept.ts:15-41 | The name and data checks come first, then an empty userId gives "User ID is required". An error stores nothing. Success stores the trimmed name, description defaulting to "", isPublic defaulting to false, and createdAt = updatedAt = now. |
| Storage.SimulationStorageConcept.Update | concepts/SimulationStorageConcept.ts:43-72 | "Simulation not found" comes first, then the ownership error, then the content checks, with no change on error. Success keeps id, userId and createdAt and sets updatedAt = now. |
| Storage.SimulationStorageConcept.Delete | concepts/SimulationStorageConcept.ts:74-86 | Not-found and ownership errors change nothing. Success removes exactly that id and keeps the rest in order. |
| Storage.SimulationStorageConcept.Load | concepts/SimulationStorageConcept.ts:88-106 | Succeeds exactly when the record exists and the caller owns it or it is public. It gives "Simulation not found" or "Access denied" otherwise, and reads only. |
| Storage.SimulationStorageConcept.Share | concepts/SimulationStorageConcept.ts:108-123 | Only the owner may share. Success changes only isPublic and updatedAt. Errors change nothing. |
| Storage.SimulationStorageConcept.GetById | concepts/SimulationStorageConcept.ts:126-139 | At most one record: the one stored under the id. |
| Storage.SimulationStorageConcept.GetByUserId | concepts/SimulationStorageConcept.ts:141-160 | Exactly the records of that owner, in insertion order. |
| Storage.SimulationStorageConcept.GetPublic | concepts/SimulationStorageConcept.ts:162-181 | Exactly the public records, in insertion order. |
| Storage.SimulationStorageConcept.SearchByName | concepts/SimulationStorageConcept.ts:183-203 | Exactly the public records whose lower-cased name contains the lower-cased term at some position. |
| Users.Hex | concepts/UserConcept.ts:20 | Two lower-case hex digits per digest byte. |
| Users.HexPair | concepts/UserConcept.ts:20 | `b.toString(16).padStart(2,'0')`: two hex digits, high digit first, whose value is b. |
| Users.UnhexHex | concepts/UserConcept.ts:15-21 | Decoding the hex string gives the digest back. |
| Users.HexInjective | concepts/UserConcept.ts:23-26 | Two stored hashes are equal exactly when the digests are, so `verifyPassword` compares digests. |
| Users.Conflict | concepts/UserConcept.ts:34-41 | The first user in insertion order that clashes decides the error: "Username already exists" exactly when that user's username matches, "Email already exists" exactly when it does not. There is no error exactly when no user clashes. |
| Users.RegisterConflict | concepts/UserConcept.ts:34-41 | The duplicate check of `register`, applied to the trimmed username and the trimmed lower-cased e-mail. It finds no conflict exactly when no stored user has either, and reports the username exactly when the first clashing user holds it. |
| Users.ProfileConflict | concepts/UserConcept.ts:113-122 | The same check in `updateProfile`, against users other than `id` only: no conflict exactly when no other user has either value, the username exactly when the first clashing other user holds it. |
| Users.RawRegisterConflict | concepts/UserConcept.ts:34-41 | The check as written, on the raw input: no conflict exactly when no stored user has the raw username or the raw e-mail. |
| Users.RawProfileConflict | concepts/UserConcept.ts:113-122 | The same for `updateProfile` as written, against users other than `id`. |
| Keyed.FirstMatchFound | concepts/UserConcept.ts:34-41 | A position that clashes, with no clash before it, is the one the loop stops at. |
| Users.ProfileError | concepts/UserConcept.ts:44-49 | The trimmed username must be at least 3 long ("Username must be at least 3 characters long"), then the e-mail must contain '@' ("Invalid email address"). |
| Users.StoreKeepsUnique | concepts/UserConcept.ts:54-66 | Storing a user whose username and e-mail no other user holds keeps usernames and e-mails unique. |
| Users.SameNamesKeepUnique | concepts/UserConcept.ts:89-94 | Replacing a user's other fields keeps usernames and e-mails unique. |
| Users.RawConflictAdmitsDuplicate | concepts/UserConcept.ts:34-66 | As written, `register(" alice")` next to a stored "alice" passes the duplicate check and the input checks, and would store "alice" a second time. |
| Users.ConflictRefusesDuplicate | concepts/UserConcept.ts:34-66 | The check on the normalised input refuses it with "Username already exists". |
| Users.RawProfileAdmitsDuplicate | concepts/UserConcept.ts:106-133 | As written, with "alice" and "bob" stored, `updateProfile` of bob to " alice" passes the duplicate check and the input checks, and would store "alice" twice. |
| Users.ProfileRefusesDuplicate | concepts/UserConcept.ts:106-133 | The check on the normalised input refuses that rename with "Username already exists". |
| Users.UserConcept.constructor | concepts/UserConcept.ts:13 | The store starts empty. |
| Users.UserConcept.Hash | concepts/UserConcept.ts:15-21 | The stored hash has two characters per digest byte. |
| Users.UserConcept.FindConflict | concepts/UserConcept.ts:34-41 | The conflict loop returns exactly what Conflict gives. |
| Users.UserConcept.Register | concepts/UserConcept.ts:32-67 | The duplicate check comes first, then username, e-mail and password (length ≥ 6) in order, each with its message. An error changes nothing. Success stores the trimmed username, the trimmed lower-cased e-mail, the hash and lastLogin = 0 under the id, and keeps usernames and e-mails unique. |
| Users.UserConcept.Login | concepts/UserConcept.ts:69-95 | Succeeds exactly when the user with that username has a matching hash. Otherwise it gives "Invalid username or password" and changes nothing. Success changes only that user's lastLogin and returns its id and the fresh token. |
| Users.UserConcept.Logout | concepts/UserConcept.ts:97-104 | An error ("User not found") exactly when the id is unknown. It changes nothing. |
| Users.UserConcept.UpdateProfile | concepts/UserConcept.ts:106-137 | "User not found" comes first, then conflicts with other users only, then the input checks. Success replaces only the username and e-mail, normalised. |
| Users.UserConcept.ChangePassword | concepts/UserConcept.ts:139-162 | The old hash must match ("Incorrect old password"), then the new password must have length ≥ 6. Success changes only passwordHash. |
| Users.UserConcept.GetById | concepts/UserConcept.ts:165-175 | At most one profile, with every field except the password hash. |
| Users.UserConcept.GetByUsername | concepts/UserConcept.ts:177-191 | Exactly the stored users with that username: at most one. |
| Users.UserConcept.GetByEmail | concepts/UserConcept.ts:193-206 | At most one profile, whose e-mail is the one asked for. It is empty exactly when no user has it. The profile is the stored user's id, username, e-mail and timestamps, without the hash. |
| Users.UserConcept.ValidateToken | concepts/UserConcept.ts:208-218 | The identity of a known id, whatever the token. |
| Values.Merge | concepts/ProjectConcept.ts:53 | `{...base, ...overlay}`: the keys of both, with overlay entries winning. |
| Values.MergeIdempotent | concepts/SimulationTypeConcept.ts:86-92 | Merging the same overlay twice is merging it once, and an empty overlay changes nothing. |
| Projects.Insert | concepts/ProjectConcept.ts:111 | One insertion step of the sort: the result is a permutation of the input plus the new project. |
| Projects.InsertNewestFirst | concepts/ProjectConcept.ts:111 | Insertion keeps a list sorted newest first. |
| Projects.SortRecent | concepts/ProjectConcept.ts:111 | Sorting by updatedAt gives a permutation of the input, newest first. |
| Projects.InsertStable | concepts/ProjectConcept.ts:111 | Insertion keeps the relative order of projects with equal updatedAt. |
| Projects.SortRecentStable | concepts/ProjectConcept.ts:111 | The sort is stable. |
| Projects.SliceTo | concepts/ProjectConcept.ts:112 | `slice(0, limit)`: a prefix of length min(limit, n) for limit ≥ 0, and counting back from the end for a negative limit. |
| Projects.RecentOf | concepts/ProjectConcept.ts:109-113 | The first `limit` projects of the sorted list are newest first and are taken from the input (as a multiset). No project left out is newer than one kept. They are all of the input when the limit reaches its length. |
| Projects.PrefixNewest | concepts/ProjectConcept.ts:109-113 | The front of a newest-first list is part of it, and nothing behind it is newer than anything in it. |
| Projects.ProjectConcept.constructor | concepts/ProjectConcept.ts:15 | The catalogue starts empty. |
| Projects.ProjectConcept.Create | concepts/ProjectConcept.ts:17-40 | Stores or overwrites a private project with thumbnail "", config defaulting to {}, and the two clock readings. |
| Projects.ProjectConcept.Update | concepts/ProjectConcept.ts:42-59 | An unknown id gives "Project not found" with no change. Otherwise it replaces name and description, merges the new config over the old one with new keys winning, and stamps updatedAt. |
| Projects.ProjectConcept.Delete | concepts/ProjectConcept.ts:61-72 | "Project not found", then "Permission denied" unless the caller is the owner. Success removes only that project. |
| Projects.ProjectConcept.SetPublic | concepts/ProjectConcept.ts:74-81 | Always returns `{id}`. A known project gets isPublic and updatedAt. An unknown id changes nothing. |
| Projects.ProjectConcept.UpdateThumbnail | concepts/ProjectConcept.ts:83-90 | The same, for the thumbnail. |
| Projects.ProjectConcept.GetById | concepts/ProjectConcept.ts:92-95 | At most one project: the one stored under the id. |
| Projects.ProjectConcept.GetByUser | concepts/ProjectConcept.ts:97-99 | Exactly the projects of that user. |
| Projects.ProjectConcept.GetByType | concepts/ProjectConcept.ts:101-103 | Exactly the projects of that type. |
| Projects.ProjectConcept.GetPublic | concepts/ProjectConcept.ts:105-107 | Exactly the public projects. |
| Projects.ProjectConcept.GetRecent | concepts/ProjectConcept.ts:109-113 | Newest first. Exactly min(limit, n) projects for limit ≥ 0, taken from the stored ones (as a multiset). No stored project left out is newer than one returned. All of them when the limit reaches n. |
| SimulationTypes.SimulationTypeConcept.constructor | concepts/SimulationTypeConcept.ts:15 | The catalogue starts empty. |
| SimulationTypes.SimulationTypeConcept.Register | concepts/SimulationTypeConcept.ts:17-43 | Stores or overwrites an active type, with defaultConfig and requirements defaulting to {}. |
| SimulationTypes.SimulationTypeConcept.Update | concepts/SimulationTypeConcept.ts:45-68 | Replaces the descriptive fields of a known type and keeps isActive. An unknown id changes nothing. It always returns `{id}`. |
| SimulationTypes.SimulationTypeConcept.SetActive | concepts/SimulationTypeConcept.ts:70-84 | `activate` and `deactivate` set only isActive. An unknown id changes nothing. |
| SimulationTypes.SimulationTypeConcept.UpdateDefaultConfig | concepts/SimulationTypeConcept.ts:86-92 | The incoming entries are merged over the stored config, with incoming keys winning. |
| SimulationTypes.SimulationTypeConcept.GetById | concepts/SimulationTypeConcept.ts:94-97 | At most one type: the one stored under the id. |
| SimulationTypes.SimulationTypeConcept.GetActive | concepts/SimulationTypeConcept.ts:99-101 | Exactly the active types. |
| SimulationTypes.SimulationTypeConcept.GetByCategory | concepts/SimulationTypeConcept.ts:103-105 | Exactly the types of that category. |
| SimulationTypes.SimulationTypeConcept.GetFeatured | concepts/SimulationTypeConcept.ts:107-110 | Equal to `_getActive`: exactly the active types. |
| SimulationTypes.UpdateDefaultConfigIdempotent | concepts/SimulationTypeConcept.ts:86-92 | Applying the same update twice equals applying it once. An empty update only turns a missing config into {}. |
| Numerals.Decimal | concepts/RendererConcept.ts:44 | `${n}`: a non-empty run of decimal digits. |
| Numerals.DigitsValueOfDecimal | concepts/RendererConcept.ts:44 | Reading the printed number back gives n. |
| Renderer.ObjectIdInjective | concepts/RendererConcept.ts:44 | `obj_${a}` equals `obj_${b}` exactly when a = b. |
| Renderer.RendererConcept.constructor | concepts/RendererConcept.ts:20-22 | No scenes, no objects, and the counter at 1. |
| Renderer.RendererConcept.CreateScene | concepts/RendererConcept.ts:24-41 | Stores or overwrites the scene. Objects and the counter are untouched. |
| Renderer.RendererConcept.AddBody | concepts/RendererConcept.ts:43-55 | The new id is `obj_` + counter and was not in use. The counter grows by exactly 1. The new object is visible, with the given scene, body and mesh, and nothing else changes. |
| Renderer.RendererConcept.RemoveBody | concepts/RendererConcept.ts:57-67 | Deletes the first object matching scene and body, and returns its id. It returns "" exactly when none matches, and then changes nothing. |
| Renderer.RendererConcept.UpdateBody | concepts/RendererConcept.ts:69-85 | The id of the first matching object, or "" exactly when there is none. It changes nothing. |
| Renderer.RendererConcept.SetVisible | concepts/RendererConcept.ts:93-103 | Changes only the visible flag of the first matching object, or nothing when none matches. |
| Renderer.RendererConcept.GetScene | concepts/RendererConcept.ts:105-108 | At most one scene: the one stored under the id. |
| Renderer.RendererConcept.GetObjects | concepts/RendererConcept.ts:110-112 | Exactly the objects of the scene. |
| Renderer.RendererConcept.GetBodyObject | concepts/RendererConcept.ts:114-117 | Exactly the objects of that scene and body. |
| Simulations.Stepped | concepts/SimulationConcept.ts:62-68 | A running clock advances by stepSize*speed. A paused one stays. No other field changes. |
| Simulations.StepsAdvance | concepts/SimulationConcept.ts:62-68 | n steps of a running clock advance it by n*stepSize*speed. |
| Simulations.SimulationConcept.constructor | concepts/SimulationConcept.ts:10 | No clocks. |
| Simulations.SimulationConcept.Create | concepts/SimulationConcept.ts:12-28 | Stores a running clock with the given time, speed and stepSize. |
| Simulations.SimulationConcept.SetTime | concepts/SimulationConcept.ts:30-36 | Changes only the time of a known clock. |
| Simulations.SimulationConcept.SetSpeed | concepts/SimulationConcept.ts:38-44 | Changes only the speed of a known clock. |
| Simulations.SimulationConcept.SetPaused | concepts/SimulationConcept.ts:46-60 | `pause` and `resume` set only the paused flag. |
| Simulations.SimulationConcept.Step | concepts/SimulationConcept.ts:62-68 | A known clock becomes Stepped. Every other clock stays as it was. |
| Simulations.SimulationConcept.Reset | concepts/SimulationConcept.ts:70-76 | Time goes back to 0. Speed, stepSize and paused are kept. |
| Simulations.SimulationConcept.GetById | concepts/SimulationConcept.ts:78-81 | At most one clock: the one stored under the id. |
| Simulations.SimulationConcept.GetActive | concepts/SimulationConcept.ts:83-86 | The clock, exactly when it exists and is not paused. |
| Cameras.Zoomed | concepts/CameraConcept.ts:85 | max(10, min(120, fov*factor)): always in [10, 120], and equal to fov*factor when that is in range. |
| Cameras.ZoomSettles | concepts/CameraConcept.ts:81-88 | Factor 1 keeps an in-range fov. Once pinned at a bound, zooming further in that direction stays there. |
| Cameras.CameraConcept.constructor | concepts/CameraConcept.ts:15 | No cameras. |
| Cameras.CameraConcept.Create | concepts/CameraConcept.ts:17-40 | Stores or overwrites the camera by id. |
| Cameras.CameraConcept.SetPosition | concepts/CameraConcept.ts:42-48 | Changes only the position of a known camera. It always returns `{id}`. |
| Cameras.CameraConcept.SetTarget | concepts/CameraConcept.ts:50-56 | Changes only the target of a known camera. |
| Cameras.CameraConcept.Follow | concepts/CameraConcept.ts:58-67 | The target becomes the origin. Position and fov are kept. |
| Cameras.CameraConcept.Zoom | concepts/CameraConcept.ts:81-88 | Changes only fov, to Zoomed, so afterwards 10 ≤ fov ≤ 120. |
| Cameras.CameraConcept.GetById | concepts/CameraConcept.ts:90-93 | At most one camera: the one stored under the id. |
| Cameras.CameraConcept.GetByScene | concepts/CameraConcept.ts:95-97 | Exactly the cameras of that scene. |
| CelestialBodies.Orbited | concepts/CelestialBodyConcept.ts:80-88 | The orbited body has y = 0 in position and velocity, and no field other than those two changes. |
| CelestialBodies.CelestialBodyConcept.constructor | concepts/CelestialBodyConcept.ts:23 | No bodies. |
| CelestialBodies.CelestialBodyConcept.Create | concepts/CelestialBodyConcept.ts:25-54 | Stores or overwrites a body at rest at the origin. |
| CelestialBodies.CelestialBodyConcept.UpdatePosition | concepts/CelestialBodyConcept.ts:56-62 | Replaces only the position of a known body. |
| CelestialBodies.CelestialBodyConcept.UpdateVelocity | concepts/CelestialBodyConcept.ts:64-70 | Replaces only the velocity of a known body. |
| CelestialBodies.CelestialBodyConcept.Orbit | concepts/CelestialBodyConcept.ts:72-91 | A missing body or an empty parent changes nothing. Otherwise only that body is orbited. |
| CelestialBodies.CelestialBodyConcept.GetById | concepts/CelestialBodyConcept.ts:93-96 | At most one body: the one stored under the id. |
| CelestialBodies.CelestialBodyConcept.GetByType | concepts/CelestialBodyConcept.ts:98-100 | Exactly the bodies of that type. |
| CelestialBodies.CelestialBodyConcept.GetChildren | concepts/CelestialBodyConcept.ts:102-104 | Exactly the bodies with that parent. |
| Api.APIConcept.constructor | concepts/APIConcept.ts:10 | No requests. |
| Api.APIConcept.Submit | concepts/APIConcept.ts:12-28 | Stores or resets the record, with output null, and returns the key. |
| Api.APIConcept.Respond | concepts/APIConcept.ts:30-36 | Sets only the output of a known request and leaves its method, path and input alone. An unknown key changes nothing. It always returns the key. |
| Api.APIConcept.Get | concepts/APIConcept.ts:38-41 | At most one record: the one stored under the key. |
| Keyed.Put | concepts/SessionConcept.ts:28 | `map.set(k, v)` on the key order: a new key goes last, an existing key keeps its place, and the keys stay distinct. |
| Keyed.Without | concepts/SessionConcept.ts:109-111 | `map.delete` on the key order: exactly the keys not deleted remain, still distinct. |
| Keyed.DeletePreservesOrder | concepts/SessionConcept.ts:109-111 | Deleting the same keys from the map and from its order keeps the two in step. |
| Keyed.DeleteKeys | concepts/SessionConcept.ts:109-111 | The delete loop removes exactly the listed keys from the map; the key order then loses the same keys. |
| Keyed.ValuesOf | concepts/ProjectConcept.ts:98 | `Array.from(m.values())`: one value per key, in key order. |
| Keyed.Select | concepts/ProjectConcept.ts:98 | `.filter(p)`: only values satisfying p, no more than there are keys. |
| Keyed.SelectMember | concepts/ProjectConcept.ts:98 | A value is kept exactly when it satisfies p and some listed key maps to it. |
| Keyed.SelectExactly | concepts/ProjectConcept.ts:98 | Over a whole map: exactly the stored values that satisfy p. |
| Keyed.FirstIndex | concepts/SessionConcept.ts:129-133 | Where a first-match loop stops: no earlier value matches, and the one it stops at does. |
| Keyed.NoneFound | concepts/SessionConcept.ts:129-141 | A search that runs off the end means no stored value matches. |
| Keyed.Scan | concepts/SessionConcept.ts:129-133 | The loop with an early return stops exactly at FirstIndex. |
| Keyed.Collect | concepts/SessionConcept.ts:147-160 | The push loop builds exactly the filtered values, in order. |
| Text.IndexOf | backend-server-simple.ts:20 | The position of a `c`, or the length when the scan reaches the end. |
| Text.Split | backend-server-simple.ts:15 | `split(c)` always gives at least one part. |
| Text.TrimSlice | backend-server-simple.ts:18 | `trim()` is the slice of the input after its leading white space, and only white space follows it. |
| Text.Trim | backend-server-simple.ts:18 | `trim()` is no longer than its input and neither starts nor ends with white space. |
| Text.TrimOf | backend-server-simple.ts:18 | Text without white space at its ends, padded with white space on both sides, trims back to itself. |
| Text.TrimStartSpaces | backend-server-simple.ts:18 | Leading white space does not change `trimStart`. |
| Text.TrimEndSpaces | backend-server-simple.ts:18 | Trailing white space does not change `trimEnd`. |
| Text.TrimAround | backend-server-simple.ts:18 | Any text is its trim with only white space before and after it. |
| Users.HexDigit | concepts/UserConcept.ts:20 | One lower-case hex digit for each value 0 to 15. |
| Text.TrimStart | concepts/UserConcept.ts:44 | Drops exactly the leading ECMAScript white space. |
| Text.TrimEnd | concepts/UserConcept.ts:44 | Drops exactly the trailing white space. |
| Text.TrimShape | backend-server-simple.ts:18 | `trim()` gives the slice of the input between its leading and trailing white space, and that slice neither starts nor ends with white space. |
| Text.TrimIdempotent | backend-server-simple.ts:18 | Trimming twice is trimming once. |
| Text.TrimEmptyIff | concepts/SimulationStorageConcept.ts:17 | The trim is empty exactly when every character is white space. |
| Text.Lower | concepts/SimulationStorageConcept.ts:185 | Lower-cases character by character, keeping the length. |
| Text.LowerIdempotent | server.ts:285 | Lower-casing twice is lower-casing once. |
| Text.Includes | concepts/SimulationStorageConcept.ts:188 | `includes` finds the term only where it occurs. |
| Text.IncludesComplete | concepts/SimulationStorageConcept.ts:188 | `includes` finds every occurrence. |
| Text.IncludesChar | concepts/UserConcept.ts:47 | `includes('@')` holds exactly when '@' is in the string. |
| Text.IndexOfFinds | backend-server-simple.ts:20 | The first `c`: none comes before it, and one is found exactly when there is one. |
| Text.SplitStep | backend-server-simple.ts:20 | `split(c)`: the first part runs to the first `c`, and there is more than one part exactly when there is a `c`. |
| Text.JoinSplit | backend-server-simple.ts:22 | Joining the parts of a split with the same separator gives the string back, so `=` inside values survives. |
| Text.SplitRest | backend-server-simple.ts:20-22 | The parts after the first are, joined, the text after the first `c`. |
| Text.LastPartIsLastOfSplit | server.ts:285 | The text after the last `c` is `split(c).pop()`. |
| Text.LastPartAfter | server.ts:285 | For any prefix, the last part of `s + c + t` is t when t has no `c`. |
| EnvConfig.StripQuotes | backend-server-simple.ts:24 | At most one leading and one trailing quote is dropped. Unquoted text is unchanged. |
| EnvConfig.StripQuotesOfQuoted | backend-server-simple.ts:24 | A value wrapped in a pair of quotes comes back as written. |
| EnvConfig.ParseLine | backend-server-simple.ts:18-26 | Blank lines, `#` lines, lines without `=` and lines whose key is empty (the trimmed line starts with `=`) set nothing. A setting has a non-empty, already trimmed key without `=`. |
| EnvConfig.KeyKeepsShape | backend-server-simple.ts:20-24 | The key cut from a trimmed line stays non-empty and free of `=` after trimming. |
| EnvConfig.ParseLineOf | backend-server-simple.ts:18-24 | A line `KEY=VALUE` with any white space around the key and the `=` reads as the bare KEY and the trimmed, unquoted VALUE, with any further `=` kept. |
| EnvConfig.PaddedLine | backend-server-simple.ts:18-24 | The same, with the value already cut into white space, its trim and white space. |
| EnvConfig.ParseQuotedLine | backend-server-simple.ts:18-24 | A padded `KEY="VALUE"` (or with single quotes) reads as the bare KEY and exactly VALUE. |
| EnvConfig.LastAssignmentWins | backend-server-simple.ts:17-26 | A key is set exactly when some line sets it, to the value of the last such line. |
| EnvConfig.ParseLines | backend-server-simple.ts:15-17 | One parse per line, in order. |
| EnvConfig.LastDefinitionWins | backend-server-simple.ts:15-26 | The same for the lines of a file. |
| EnvConfig.Store | backend-server-simple.ts:18-26 | The loop body applies one line's setting. |
| EnvConfig.LoadEnv | backend-server-simple.ts:10-35 | An unreadable file gives {}. Otherwise the loop builds exactly the last-one-wins environment of the file's lines. |
| EnvConfig.DigitPrefix | backend-server-simple.ts:64 | `parseInt` reads the longest run of digits. |
| EnvConfig.DigitPrefixOf | backend-server-simple.ts:64 | A run of digits followed by a non-digit is read as exactly that run. |
| EnvConfig.DecimalRun | backend-server-simple.ts:64 | A printed number has no hex prefix, and its digits are the run `parseInt` reads. |
| EnvConfig.UnsignedOfDecimal | backend-server-simple.ts:64 | Its digits read back as the number. |
| EnvConfig.ParseInt | backend-server-simple.ts:64 | `parseInt` of empty or white-space-only text, or of text whose first non-space character is neither a digit nor a sign, is NaN. |
| EnvConfig.NotANumber | backend-server-simple.ts:64 | Text that starts with neither a digit nor a sign is not a number. |
| EnvConfig.ParseIntSkipsSpace | backend-server-simple.ts:64 | Leading white space does not change what `parseInt` reads. |
| EnvConfig.ParseIntOfPrinted | backend-server-simple.ts:64 | A printed number on its own reads back as itself. |
| EnvConfig.ParseIntOfDigit | backend-server-simple.ts:64 | Text starting with a digit has no white space or sign to skip. |
| EnvConfig.ParseIntOfMinus | backend-server-simple.ts:64 | A minus sign negates the value. |
| EnvConfig.ParseIntOfDecimal | backend-server-simple.ts:64 | `parseInt` of a printed number, followed by anything that cannot continue it, is that number. |
| EnvConfig.ParseIntOfNegative | backend-server-simple.ts:64 | The same with a minus sign. |
| EnvConfig.Setting | backend-server-simple.ts:63-67 | `env.KEY \|\| fallback`: a stored, non-empty value is used; a missing or empty one gives the fallback. |
| EnvConfig.PortSetting | backend-server-simple.ts:64 | `parseInt(env.KEY) \|\| fallback`: a stored value that reads as a non-zero number is used; a missing entry, NaN or 0 gives the fallback. |
| EnvConfig.DbConfigOf | backend-server-simple.ts:62-68 | Each field is its own setting: DB_HOST or localhost, DB_PORT or 3306, DB_NAME or simulations, DB_USERNAME or root, DB_PASSWORD or "". Every one but the password is non-empty. |
| EnvConfig.ServerConfigOf | backend-server-simple.ts:116-119 | The port is SERVER_PORT or 3000 and the host SERVER_HOST or localhost, so the port is non-zero and the host non-empty. |
| EnvConfig.PortSettingOfDecimal | backend-server-simple.ts:64 | A port written as a positive decimal number is used as written. |
| Server.ExtractToken | server.ts:30-36 | Some exactly when the header starts with "Bearer ", and then the header is "Bearer " + token. |
| Server.BearerRoundTrip | server.ts:30-36 | extractToken("Bearer " + t) = t. It is usable exactly when t is non-empty. |
| Server.Holder | server.ts:43-47 | `_getByToken(token)[0]`: a stored session with that token. It is None exactly when none holds the token. |
| Server.Admitted | server.ts:39-63 | Admits a caller only with a token, a live session holding it, and an existing user. It returns that user's id and username. |
| Server.AdmittedIffLive | server.ts:39-63 | A caller is admitted exactly when the first session holding the token is live and its user exists. |
| Server.ValidateSession | server.ts:39-63 | Returns exactly Admitted. It ends the holder's session when that session is active but expired, and changes nothing else. |
| Server.Logout | server.ts:139-155 | Without a token it gives "No token provided" and no change. With one it succeeds and deactivates the first session holding it, if any. |
| Server.List | server.ts:220-242 | A missing userId or token gives "Authentication required". A caller who is not admitted as that very user gives "Access denied". Success returns exactly that user's simulations, in order. With a userId, checking the session ends the holder's session exactly when it has expired, and nothing else changes. |
| Server.StaticPath | server.ts:259-269 | "/" maps to "user-app.html". Any other path loses exactly one leading '/'. |
| Server.MimeType | server.ts:286-296 | Everything outside the eight listed extensions falls back to text/plain, and only jpg and jpeg give image/jpeg. |
| Server.ContentType | server.ts:284-297 | One of the eight listed types, and text/plain exactly when the lower-cased text after the last dot is not a listed extension. |
| Server.ContentTypeByExtension | server.ts:284-297 | The type of `name.ext` depends only on ext, in any case and whatever dots the name holds. A name without a dot is read as all extension. |
| WebSimulation.WebSimulationConcept.Snapshot | web/main.js:116-124 | What `_getById` reports, with paused = not running. |
| WebSimulation.WebSimulationConcept.constructor | web/main.js:68-75 | Running, time 0, speed 1, stepSize 0.01. |
| WebSimulation.WebSimulationConcept.Create | web/main.js:77-83 | Sets time, speed and stepSize. The running flag stays as it was. |
| WebSimulation.WebSimulationConcept.Step | web/main.js:85-90 | The clock moves exactly as a server-side clock with the same settings (Simulations.Stepped): by stepSize*speed only while running. |
| WebSimulation.WebSimulationConcept.Pause | web/main.js:92-96 | Only the running flag changes, to false. |
| WebSimulation.WebSimulationConcept.Resume | web/main.js:98-102 | Only the running flag changes, to true. |
| WebSimulation.WebSimulationConcept.SetSpeed | web/main.js:104-108 | Only the speed changes. |
| WebSimulation.WebSimulationConcept.Reset | web/main.js:110-114 | Only the time changes, to 0. |
| WebSimulation.WebSimulationConcept.GetById | web/main.js:116-124 | Always exactly one record, for any id, reporting the single shared clock. |

## Left out

- **Not modelled, from outside the core:**
  - The reactive synchronisation engine (`engine/mod.ts`) and the rules declared for it. engine/mod.ts is not part of this model.
  - The MySQL wrapper and the express-style server wrapper.
  - The user interface, Three.js rendering and the rest of web/main.js, including its other concepts.
- **Not modelled in server.ts:** the HTTP I/O, meaning serving, reading files, building responses, CORS headers, the cleanup timer and signal handling. Only the decisions of the logout and list endpoints are modelled. The other endpoints (register, login, save, load, public list) are not.
- **NaN and ±Infinity:** numbers are exact reals, so the model has no NaN, no Infinity and no rounding. `parseInt` returning NaN is `None`.
- **Time:** `Date.now()` is a parameter. Nothing is assumed about it increasing.
- Text.LowerChar: lower-cases ASCII letters only, while JavaScript `toLowerCase` covers all of Unicode.
- **Strings:** they are sequences of characters, not UTF-16 code units, so `length` and white space are counted per character.
- Text.IsSpace: lists the ECMAScript white-space and line-terminator characters explicitly.
- Users.UserConcept.Hash: SHA-256 itself is the `digest` parameter. Only its hex encoding is modelled.
- Users.UserConcept.Register and Users.UserConcept.UpdateProfile: these check for duplicates on the normalised input, not the raw input the source compares (see Findings).
- Cameras.CameraConcept: `orbit` (trigonometry) is left out.
- CelestialBodies.CelestialBodyConcept.Orbit: the position and velocity formulas are the `circular` parameter. Only the guard, the y = 0 plane and which body changes are modelled.
- Renderer.RendererConcept.Render: has no contract. It only returns the scene id and reads no state.
- Renderer.RendererConcept.UpdateBody: the position and scale it receives are unused, as in the source.
- Simulations.SimulationConcept.SetPaused and SimulationTypes.SimulationTypeConcept.SetActive: each is one method for the two actions that set the same flag (`pause`/`resume`, `activate`/`deactivate`).
- WebSimulation.WebSimulationConcept: the unused `simulations` map and the console logging are left out.
- EnvConfig.LoadEnv: reading `.env` is an `Option<string>` parameter. The log messages are left out.
- Projects.ProjectConcept.GetRecent: the sort is insertion sort. It is stable like `Array.prototype.sort`, and is not the engine's algorithm.

## Findings

| source | as written | input that shows it | evidently intended | confidence | as-written member | corrected member |
|---|---|---|---|---|---|---|
| concepts/UserConcept.ts:34-41, 56-57 | `register` compares the raw username and e-mail with stored values, but stores them trimmed and lower-cased | `register("u2", " alice", "b@x.org", "secret")` with "alice" stored: no conflict is found, and a second "alice" is stored | usernames and e-mails stay unique: the check compares the values about to be stored | not executed | Users.RawConflictAdmitsDuplicate | Users.ConflictRefusesDuplicate |
| concepts/UserConcept.ts:113-122, 132-133 | `updateProfile` makes the same raw comparison against the other users | with "alice" (u1) and "bob" (u2) stored, `updateProfile("u2", " alice", "b@x.org")`: no conflict is found, and u2 is renamed to a second "alice" | the check compares the values about to be stored | not executed | Users.RawProfileAdmitsDuplicate | Users.ProfileRefusesDuplicate |
