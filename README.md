# Superhero catalogue, modelled in Dafny

This project models the logic of a small superhero catalogue application.
An Express/MongoDB backend loads a public superhero data set, normalises it
into French hero records and seeds two collections. It serves the heroes and
user accounts behind role gates. A React frontend lists, filters, sorts,
shows, edits and deletes heroes.

There is one Dafny module per source file of the application's core:

- `DataTransformer`: `backend/src/utils/dataTransformer.ts`.
  - Power tags from six stats.
  - The publisher classified into Marvel, DC or Autre.
  - The description sentence and the image URL.
  - The loader that filters and transforms the file's entries.
- `Db`: `initializeDatabase` of `backend/src/config/db.ts`.
- `SeedDatabase`: `backend/src/utils/seedDatabase.ts`.
- `HeroController`: `backend/src/controllers/heroController.ts`.
  - The mock-data branch of `getHeroes`.
  - The query and sort documents built for MongoDB.
  - The `image` field of create and update.
- `AuthController`: `backend/src/controllers/authController.ts`.
  - `register`, the mock branch of `login`, and the validation rules.
  - Lengths counted as express-validator's `isLength` counts them: one per
    character, none for the variation selectors U+FE0E and U+FE0F.
- `RoleMiddleware`: `backend/src/middleware/roleMiddleware.ts`, and the gate
  each route of `backend/src/routes/heroRoutes.ts` uses.
- `AuthContext`: `frontend/src/context/AuthContext.tsx`.
  - The reducer, as functions.
  - The provider, as a class whose methods dispatch actions and update the
    stored token.
- `Dashboard`: `frontend/src/pages/Dashboard.tsx`, a class with the page's
  state.
- `HeroForm`: `frontend/src/components/HeroForm.tsx`.
  - The validation schema.
  - The powers text field and its parsing.
  - The `FormData` built on submission.
  - The image state, as a class.
- `HeroCard`: `frontend/src/components/HeroCard.tsx`.
- `HeroDetails`: `frontend/src/pages/HeroDetails.tsx`, with a class for the
  page state.

Four shared modules support them:

- `Common`: Option, JavaScript's `filter`, subsequences.
- `Strings`: the string methods the code calls.
- `HeroTypes`: universes, roles and the hero and user records.
- `Storage`: an in-memory stand-in for the two MongoDB collections.
  - The hero schema's casting (`trim`) and `required` validation, applied
    by `insertMany` to every document before any is written.
  - A store built as `flaky` may fail on any call.
  - A failed `insertMany` may leave a prefix of its documents stored.

Step-by-step code is written as methods with loops or assignments. Each such
method is either proved equal to a specification function, or given a
contract that fixes its result and the new state. The lemmas state the
source's promises about those functions and methods:

- power tags are duplicate-free, and the fallback tag is given exactly when
  every stat is at most 70;
- the loader gives one hero per admitted entry, in order, or `[]`;
- seeding writes only to empty collections;
- the powers field reads back what it shows;
- for a logged-in user, each UI action is offered exactly when its backend
  route's role gate admits that user.

Points of the code worth knowing:

- The transform of one entry throws when `powerstats`, `biography`, `work` or
  `images` is missing, and the loader then returns `[]` for the whole file.
  For example, the A-Bomb entry without `work` and `images` throws
  (`DataTransformer.ABombTransformed`).
- The placeholders are "Inconnu" and "Inconnue", and the description is in
  French ("A-Bomb est un heros de l'univers Marvel Comics.").
- `seedDatabase` creates two accounts, admin and editor, with plain-text
  passwords. `initializeDatabase` creates three, admin, editor and viewer,
  with hashed passwords.
- The DC test matches the substring "dc" anywhere in the lower-cased
  publisher.
- The hero schema trims `nom` and `alias` and requires every string field
  but `image`. One rejected document makes a whole `insertMany` throw, and
  the seeding routine then skips the accounts as well.
- The "add a hero" button is shown to anyone who is not a viewer, including
  a visitor who is not logged in.

## Model

| member | source | states |
|---|---|---|
| DataTransformer.Names | backend/src/utils/dataTransformer.ts:54-64 | the tag names of a rule table, one per rule, in table order |
| DataTransformer.PowerTags | backend/src/utils/dataTransformer.ts:51-67 | the earned base tags, then the earned extreme tags, or the fallback alone; `PowerTagsShape`, `FallbackIffAllLow` and `TagPresence` state its shape |
| DataTransformer.AllTagNames | backend/src/utils/dataTransformer.ts:54-64 | the nine tags that can be produced |
| DataTransformer.TagsOfOrdered | backend/src/utils/dataTransformer.ts:54-64 | the tags earned from a rule table are those rules' names with some left out, in order |
| DataTransformer.TagsOfAppend | backend/src/utils/dataTransformer.ts:54-64 | checking two lists of rules one after the other earns the first list's tags followed by the second's |
| DataTransformer.PushBaseTags | backend/src/utils/dataTransformer.ts:52-59 | the six base `push`es give exactly the base tags whose stat is above 70, in stat order |
| DataTransformer.PushExtremeTags | backend/src/utils/dataTransformer.ts:62-64 | the three extreme `push`es append exactly the extreme tags whose stat is at least 90 |
| DataTransformer.ExtractPowers | backend/src/utils/dataTransformer.ts:51-67 | `extractPowers` returns the base tags, then the extreme tags, or the single fallback when none was earned |
| DataTransformer.NoTagReached | backend/src/utils/dataTransformer.ts:54-64 | when no stat of a table reaches its threshold, the table contributes no tag |
| DataTransformer.FallbackIffAllLow | backend/src/utils/dataTransformer.ts:66 | the powers are `["Pouvoirs varies"]` exactly when every stat is at most 70, and the list is never empty |
| DataTransformer.NamesDistinct | backend/src/utils/dataTransformer.ts:54-66 | the nine tag names are pairwise distinct and differ from the fallback |
| DataTransformer.EarnedInOrder | backend/src/utils/dataTransformer.ts:54-64 | the earned tags come in the fixed order of the nine names |
| DataTransformer.PowerTagsShape | backend/src/utils/dataTransformer.ts:51-67 | the powers are duplicate-free and at most nine, and the fallback never appears beside another tag |
| DataTransformer.TagOfRule | backend/src/utils/dataTransformer.ts:54-64 | with distinct names, a rule's tag is present exactly when its stat reaches the tier |
| DataTransformer.TagPresence | backend/src/utils/dataTransformer.ts:54-64 | each base tag is present iff its stat is above 70, each extreme tag iff its stat is at least 90 |
| DataTransformer.VeryHighStatGivesBoth | backend/src/utils/dataTransformer.ts:54-64 | an intelligence, strength or speed of at least 90 earns both that stat's base tag and its extreme tag |
| DataTransformer.MarvelKeywordsLowered | backend/src/utils/dataTransformer.ts:73 | the lower-cased Marvel keywords |
| DataTransformer.DCKeywordsLowered | backend/src/utils/dataTransformer.ts:74 | the lower-cased DC keywords |
| DataTransformer.MarvelTest | backend/src/utils/dataTransformer.ts:76 | the Marvel `some` holds iff the text contains "marvel", "timely comics" or "atlas comics" |
| DataTransformer.DCTest | backend/src/utils/dataTransformer.ts:80 | the DC `some` holds iff the text contains "dc", "detective comics" or "all-american publications" |
| DataTransformer.UniverseClassification | backend/src/utils/dataTransformer.ts:70-85 | an empty or missing publisher is Autre; otherwise Marvel iff a Marvel keyword occurs, DC iff none does and a DC keyword does, Autre iff neither |
| DataTransformer.UniverseIgnoresCase | backend/src/utils/dataTransformer.ts:76-82 | lower-casing the publisher first does not change the universe |
| DataTransformer.NormalizeUniverse | backend/src/utils/dataTransformer.ts:70-85 | Autre for a falsy publisher, then Marvel before DC, else Autre; `UniverseClassification` states the cases |
| DataTransformer.CreateDescription | backend/src/utils/dataTransformer.ts:88-106 | the `let`/`+=` construction yields the description function's sentence |
| DataTransformer.DescriptionOf | backend/src/utils/dataTransformer.ts:88-106 | the opening sentence and the two optional clauses; `DescriptionShape` states when each clause is present |
| DataTransformer.OccupationClauseLeads | backend/src/utils/dataTransformer.ts:97-99 | the occupation clause starts with " Professionnellement, " |
| DataTransformer.OriginClauseNotOccupation | backend/src/utils/dataTransformer.ts:101-103 | the origin clause never starts like the occupation clause |
| DataTransformer.DescriptionShape | backend/src/utils/dataTransformer.ts:88-106 | the description opens with the fixed sentence; the occupation clause follows iff the occupation is truthy and not "-"; it ends with the origin clause when the place of birth is truthy and not "-", and otherwise stops after the occupation part |
| DataTransformer.OpeningOnly | backend/src/utils/dataTransformer.ts:95-105 | with both fields absent or "-", the description is the opening sentence alone |
| DataTransformer.TransformHeroData | backend/src/utils/dataTransformer.ts:109-130 | the transform succeeds exactly when the four sub-objects it dereferences are present |
| DataTransformer.TransformedFields | backend/src/utils/dataTransformer.ts:109-130 | `_id` reads back as the source id; `nom` is the name; the image is "" iff `md` and `lg` are both empty, else under the image host; a "-" place of birth is kept; origin, first appearance and description are non-empty; at least one power; the two timestamps |
| DataTransformer.ABombPowers | backend/src/utils/dataTransformer.ts:51-67 | A-Bomb's stats give "Super force", "Durabilite", "Force extreme", in that order |
| DataTransformer.ABombUniverse | backend/src/utils/dataTransformer.ts:70-78 | "Marvel Comics" is Marvel |
| DataTransformer.ABombDescription | backend/src/utils/dataTransformer.ts:88-106 | the A-Bomb description is the opening sentence alone |
| DataTransformer.ABombTransformed | backend/src/utils/dataTransformer.ts:109-130 | the A-Bomb entry transforms to a Marvel hero with those three tags and that description; without `work` and `images` it throws |
| DataTransformer.Kept | backend/src/utils/dataTransformer.ts:151 | every kept entry is non-null with a non-empty name and a non-zero id |
| DataTransformer.KeptEntries | backend/src/utils/dataTransformer.ts:151 | the filter keeps exactly the admitted entries, in file order |
| DataTransformer.MapEntriesSpec | backend/src/utils/dataTransformer.ts:152 | the `map` succeeds iff no entry throws, and then gives one hero per entry, in order, each with its own clock readings |
| DataTransformer.MapOutcome | backend/src/utils/dataTransformer.ts:150-160 | for a transform that throws exactly on entries lacking a sub-object, the map fails iff some entry lacks one, else maps each entry |
| DataTransformer.KeptOutcome | backend/src/utils/dataTransformer.ts:150-160 | the same for `transformHeroData` itself |
| DataTransformer.LoaderOutcome | backend/src/utils/dataTransformer.ts:133-161 | `[]` for a missing or unparsable file, for a missing or non-array `superheros`, or when a kept entry throws; otherwise one hero per kept entry, in source order |
| DataTransformer.LoadAndTransformHeroes | backend/src/utils/dataTransformer.ts:133-161 | `[]` on every guarded failure, otherwise the admitted entries transformed; `LoaderOutcome` and `LoadedHeroesComplete` state it |
| DataTransformer.LoadedHeroesComplete | backend/src/utils/dataTransformer.ts:133-161 | every loaded hero has a non-empty name, alias, description, origin and first appearance, and a non-zero decimal id |
| Db.OrDefault | backend/src/config/db.ts:25-32 | a non-empty value is kept and an empty one is replaced by the fallback |
| Db.FillDefaults | backend/src/config/db.ts:22-33 | the document inserted for a hero; `Db.FillDefaultsProperties` states what it keeps and fills |
| Db.FillDefaultsProperties | backend/src/config/db.ts:22-33 | filled fields are kept and the three text fields are never empty; the document is the hero without `_id` iff nothing was missing; the schema accepts it iff no name or alias is whitespace only |
| Db.HeroesForDb | backend/src/config/db.ts:22-33 | one document per transformed hero, in order |
| Db.HeroesForDbOfLoaded | backend/src/config/db.ts:8-33 | on the loader's output no default fires: each document is the hero without `_id`, and the schema accepts it iff its name and alias are not whitespace only |
| Db.HeroStepRejects | backend/src/config/db.ts:22-35 | there are heroes to insert and the schema rejects one of their documents |
| Db.DefaultUsersShape | backend/src/config/db.ts:48-70 | admin, editor, viewer in that order; role equals username; password is the username plus "123", hashed; usernames and emails distinct |
| Db.SaveDefaultUsers | backend/src/config/db.ts:72-74 | the three saves append the accounts in order and stop at the first failure, leaving a prefix |
| Db.InitializeDatabase | backend/src/config/db.ts:11-81 | heroes are written only to an empty collection and only when there are some, as the schema casts them; a rejected document fails the call with nothing written; users only to an empty collection; without storage failure it fails iff the schema rejects, and otherwise ends exactly in that state; with full collections nothing changes |
| SeedDatabase.SeedUsers | backend/src/utils/seedDatabase.ts:30-45 | two accounts, admin then editor, role equal to username, no viewer |
| SeedDatabase.SaveSeedUsers | backend/src/utils/seedDatabase.ts:47-48 | the two saves append the accounts in order and stop at the first failure |
| SeedDatabase.HeroStepRejects | backend/src/utils/seedDatabase.ts:16-17 | the file does not parse or holds a document the schema rejects |
| SeedDatabase.Seed | backend/src/utils/seedDatabase.ts:7-56 | a missing file skips only the hero step; on an empty hero collection, an unparsable file or a document the schema rejects fails with nothing written; writes go only to empty collections; with full collections nothing changes; without storage failure it fails iff that rejection happens, and otherwise ends in the target state |
| Storage.Store.CountHeroes | backend/src/config/db.ts:17 | a successful count is the number of heroes |
| Storage.Store.CountUsers | backend/src/config/db.ts:43 | a successful count is the number of users |
| Storage.Store.InsertMany | backend/src/config/db.ts:35 | a document the schema rejects fails the call with nothing written; otherwise success appends all cast documents, failure a prefix of them; a non-flaky store fails only on rejection; users untouched |
| Storage.Store.Save | backend/src/config/db.ts:72-74 | success appends the user, failure changes nothing |
| Storage.Cast | backend/src/models/Hero.ts:17-26 | the schema's `trim` on `nom` and `alias`; `Storage.CastProperties` states what it changes |
| Storage.SchemaValid | backend/src/models/Hero.ts:16-51 | every `required` string field is non-empty once cast |
| Storage.CastAll | backend/src/models/Hero.ts:16-51 | one cast document per document, in order |
| Storage.CastProperties | backend/src/models/Hero.ts:17-26 | casting trims the two names, keeps every other field, leaves validity unchanged, and does nothing a second time |
| Storage.Store.FindUser | backend/src/controllers/authController.ts:28-30 | a successful lookup returns the first stored user sharing the username or the email, or none iff there is none |
| Storage.FirstClash | backend/src/controllers/authController.ts:28-30 | none iff no user shares the username or the email; otherwise a stored user that does, with none before it |
| HeroController.GetHeroesMock | backend/src/controllers/heroController.ts:20-42 | the mock branch returns the filtered and sorted heroes (see `HeroQuery.FilterAndSortSpec`) |
| HeroController.BuildQuery | backend/src/controllers/heroController.ts:45-56 | `$or` with case-insensitive regexes on `nom` and `alias` iff there is a search; `univers` iff a universe is chosen |
| HeroController.BuildSortOptions | backend/src/controllers/heroController.ts:58-63 | `nom: 1` iff sorting by name, `createdAt: -1` iff by date, nothing otherwise |
| HeroController.CreateHeroData | backend/src/controllers/heroController.ts:89-98 | `image` is "/uploads/" plus the file name, or "" without a file, whatever the body said; other fields kept |
| HeroController.UpdateHeroData | backend/src/controllers/heroController.ts:115-124 | `image` is replaced only when a file came; otherwise the body is unchanged |
| HeroController.CreateAndUpdateAgree | backend/src/controllers/heroController.ts:98-124 | with a file both store the same data; without one create clears the image while update keeps the body's |
| HeroQuery.Selected | backend/src/controllers/heroController.ts:23-32 | a hero is selected iff it passes every active filter |
| HeroQuery.MatchesSearch | backend/src/controllers/heroController.ts:24-27 | the lower-cased name or alias contains the lower-cased search; `HeroQuery.Selected` and `SearchFindsOwnName` state it |
| HeroQuery.TwoStepsSelect | frontend/src/pages/Dashboard.tsx:41-51 | filtering by search and then by universe selects what both filters accept together |
| HeroQuery.NoFilterSelectsAll | backend/src/controllers/heroController.ts:21-32 | with no search and no universe, every hero is kept in order |
| HeroQuery.SearchFindsOwnName | backend/src/controllers/heroController.ts:24-27 | a hero's own name or alias, in any case, finds it |
| HeroQuery.Insert | backend/src/controllers/heroController.ts:34-38 | inserting adds exactly one occurrence of the element |
| HeroQuery.SortBy | backend/src/controllers/heroController.ts:34-38 | sorting permutes the heroes |
| HeroQuery.InsertSorted | backend/src/controllers/heroController.ts:34-38 | under a consistent comparator, inserting into an ordered list keeps it ordered |
| HeroQuery.SortBySorted | backend/src/controllers/heroController.ts:34-38 | under a consistent comparator, the sorted list is ordered |
| HeroQuery.SortOfSorted | backend/src/controllers/heroController.ts:34-38 | sorting an ordered list leaves it unchanged (stability) |
| HeroQuery.DateCmpTotal | backend/src/controllers/heroController.ts:37 | the newest-first date comparator is a total preorder |
| HeroQuery.NameCmpTotal | backend/src/controllers/heroController.ts:35 | the name comparator is a total preorder when `localeCompare` is one |
| HeroQuery.SortStep | frontend/src/pages/Dashboard.tsx:54-58 | sorts by name or date as `sortBy` asks, and otherwise leaves the list alone |
| HeroQuery.FilterAndSortSpec | frontend/src/pages/Dashboard.tsx:37-61 | the result holds each passing hero as often as the input; with no sort it is the input with the rest deleted; by date newest first; by name in `localeCompare` order |
| HeroQuery.FilterAndSort | frontend/src/pages/Dashboard.tsx:37-61 | the two filters, then the sort; `HeroQuery.FilterAndSortSpec` states the result |
| RoleMiddleware.RequireRole | backend/src/middleware/roleMiddleware.ts:4-18 | 401 iff no user; 403 iff the user's role is not listed; `next()` iff it is |
| RoleMiddleware.RequireAdmin | backend/src/middleware/roleMiddleware.ts:20 | the `admin` gate; `GateAdmission` states whom it admits |
| RoleMiddleware.RequireEditor | backend/src/middleware/roleMiddleware.ts:21 | the `admin`/`editor` gate; `GateAdmission` states whom it admits |
| RoleMiddleware.RequireViewer | backend/src/middleware/roleMiddleware.ts:22 | the gate listing all three roles; `GateAdmission` states whom it admits |
| RoleMiddleware.GateAdmission | backend/src/middleware/roleMiddleware.ts:20-22 | admin gate: admin only; editor gate: admin and editor; viewer gate: exactly the three roles |
| RoleMiddleware.GatesMonotone | backend/src/middleware/roleMiddleware.ts:20-22 | each gate admits everyone the stricter one does, and a viewer passes the viewer gate but not the editor gate |
| RoleMiddleware.EveryRoleIsViewer | backend/src/middleware/roleMiddleware.ts:22 | every account role passes the viewer gate |
| RoleMiddleware.RouteAccess | backend/src/routes/heroRoutes.ts:10-22 | reading is open to every role, create and update to admin and editor, delete to admin only |
| RoleMiddleware.RouteGate | backend/src/routes/heroRoutes.ts:10-22 | the role gate of each hero route; `RouteAccess` states whom each admits |
| AuthController.RoleOrViewer | backend/src/controllers/authController.ts:41 | the requested role when non-empty, else "viewer" |
| AuthController.IsLengthCount | backend/src/controllers/authController.ts:213-216 | the length `isLength` checks: at most the number of characters, equal to it iff no variation selector occurs, zero iff only variation selectors occur |
| AuthController.IsLengthCountAppend | backend/src/controllers/authController.ts:213-216 | the count of a concatenation is the sum of the counts; a variation selector counts 0 and any other character 1 |
| AuthController.RegisterValid | backend/src/controllers/authController.ts:212-218 | the length, e-mail and role rules of registration |
| AuthController.VariationSelectorNotCounted | backend/src/controllers/authController.ts:213 | "ab" followed by U+FE0F counts 2, so it is rejected as a username |
| AuthController.LoginValid | backend/src/controllers/authController.ts:220-223 | both fields non-empty |
| AuthController.RegisteredRole | backend/src/controllers/authController.ts:36-42 | a valid registration saves one of the three roles, viewer when none was asked |
| AuthController.Register | backend/src/controllers/authController.ts:16-66 | the validation-errors answer iff the input is invalid; 400 "User already exists" on an existing username or email; 201 iff the new user was appended, with the public user; 500 on storage failure; otherwise nothing changes |
| AuthController.FindByUsername | backend/src/controllers/authController.ts:81 | none iff no mock user has the name; otherwise a mock user that has it |
| AuthController.FindByUsernameFirst | backend/src/controllers/authController.ts:81 | `find` returns the first entry with that name |
| AuthController.MockLogin | backend/src/controllers/authController.ts:69-122 | the validation-errors answer (400) iff a field is empty; 200 iff the user exists and the password is accepted, with that user; otherwise 401 "Invalid credentials" |
| AuthController.MockAccepts | backend/src/controllers/authController.ts:88-96 | the default passwords of admin and editor, else `bcrypt.compare` for a bcrypt hash, else refusal; `DefaultPasswordsBypassHash` and `PlainHashNeverAccepted` state it |
| AuthController.DefaultPasswordsBypassHash | backend/src/controllers/authController.ts:89-92 | admin/admin123 and editor/editor123 are accepted whatever the stored hash |
| AuthController.PlainHashNeverAccepted | backend/src/controllers/authController.ts:88-101 | any other account whose stored password is not a bcrypt hash never logs in |
| AuthContext.InitialState | frontend/src/context/AuthContext.tsx:25-30 | the stored token is read; no user; not loading; not authenticated |
| AuthContext.AuthReducer | frontend/src/context/AuthContext.tsx:32-71 | the reducer's switch; `AuthContext.ReducerEffects` states what each case sets and keeps |
| AuthContext.ReducerEffects | frontend/src/context/AuthContext.tsx:32-71 | what each action sets and what it leaves alone; an unknown action changes nothing |
| AuthContext.ReducerKeepsConsistent | frontend/src/context/AuthContext.tsx:32-71 | every action keeps "authenticated implies a user" |
| AuthContext.ReduceAllConsistent | frontend/src/context/AuthContext.tsx:32-71 | the invariant survives any sequence of actions |
| AuthContext.ReachableConsistent | frontend/src/context/AuthContext.tsx:25-71 | it holds in every state reachable from the initial one |
| AuthContext.LogoutIdempotent | frontend/src/context/AuthContext.tsx:55-61 | logging out twice is logging out once |
| AuthContext.AuthRequestOutcome | frontend/src/context/AuthContext.tsx:107-141 | after a login or registration the state is consistent, not loading, and authenticated iff the call succeeded, with its user and token |
| AuthContext.AuthProvider.constructor | frontend/src/context/AuthContext.tsx:88 | the provider starts in the initial state, with the stored token |
| AuthContext.AuthProvider.Dispatch | frontend/src/context/AuthContext.tsx:88 | the state becomes the reducer's answer and the action is recorded |
| AuthContext.AuthProvider.Login | frontend/src/context/AuthContext.tsx:107-120 | LOGIN_START then LOGIN_SUCCESS or LOGIN_FAILURE; the token is stored on success; it throws iff the call failed |
| AuthContext.AuthProvider.Register | frontend/src/context/AuthContext.tsx:122-141 | the same sequence around the registration call |
| AuthContext.AuthProvider.DoLogout | frontend/src/context/AuthContext.tsx:143-146 | the token is removed and the state is logged out |
| AuthContext.AuthProvider.InitAuth | frontend/src/context/AuthContext.tsx:90-105 | without a truthy token nothing happens; otherwise SET_USER with the current user, or the token is dropped and LOGIN_FAILURE |
| Dashboard.DeleteKeepsOthers | frontend/src/pages/Dashboard.tsx:66 | after a delete, exactly the heroes with another `_id` remain, in order; an unknown `_id` changes nothing |
| Dashboard.ShowsAddHero | frontend/src/pages/Dashboard.tsx:107 | shown to anyone but a viewer, also when nobody is logged in; `AddHeroMatchesRoute` relates it to the route |
| Dashboard.CountOf | frontend/src/pages/Dashboard.tsx:73-80 | a universe's count never exceeds the number of heroes |
| Dashboard.CountPositive | frontend/src/pages/Dashboard.tsx:73-80 | a universe's count is positive iff some hero belongs to it |
| Dashboard.CountsSum | frontend/src/pages/Dashboard.tsx:73-80 | the three counts add up to the number of heroes |
| Dashboard.AddHeroMatchesRoute | frontend/src/pages/Dashboard.tsx:107 | for a logged-in user, the add button shows iff the create route admits them |
| Dashboard.Dashboard.constructor | frontend/src/pages/Dashboard.tsx:11-16 | empty lists, empty search, universe and sort |
| Dashboard.Dashboard.FilterAndSortHeroes | frontend/src/pages/Dashboard.tsx:37-61 | `filteredHeroes` becomes the filtered and sorted heroes; nothing else changes |
| Dashboard.Dashboard.HandleDeleteHero | frontend/src/pages/Dashboard.tsx:63-71 | on success the hero is filtered out; on failure the alert is raised and the heroes stay |
| Dashboard.Dashboard.GetUniversStats | frontend/src/pages/Dashboard.tsx:73-80 | a universe is a key iff some hero belongs to it, and each key holds that universe's count |
| HeroCard.GetImageSrc | frontend/src/components/HeroCard.tsx:16-22 | "" iff the image is empty; otherwise a loadable URL ending with the image |
| HeroCard.GetImageSrcCases | frontend/src/components/HeroCard.tsx:16-22 | empty stays empty, an absolute or rooted URL is kept, anything else goes under the image host |
| HeroCard.GetImageSrcIdempotent | frontend/src/components/HeroCard.tsx:16-22 | normalising twice is normalising once |
| HeroCard.TransformedImageShown | frontend/src/components/HeroCard.tsx:16-22 | the image URL the transformer produces is shown as it is |
| HeroCard.UploadedImageShown | frontend/src/components/HeroCard.tsx:19 | an uploaded "/uploads/..." image is shown as it is |
| HeroCard.UniversColor | frontend/src/components/HeroCard.tsx:38-47 | red iff Marvel, blue iff DC, gray iff neither |
| HeroCard.UniverseColorsDistinct | frontend/src/components/HeroCard.tsx:38-47 | the three universes get three different colours |
| HeroCard.PowerDisplayOf | frontend/src/components/HeroCard.tsx:79-91 | the first min(3, n) powers as chips; a "+k autres" note iff there are more than three, with k = n - 3 |
| HeroCard.ShowsEdit | frontend/src/components/HeroCard.tsx:109 | a logged-in admin or editor |
| HeroCard.ShowsDelete | frontend/src/components/HeroCard.tsx:119 | a logged-in admin |
| HeroCard.NoteCountsHidden | frontend/src/components/HeroCard.tsx:87-91 | the number in the note is exactly the number of powers not shown |
| HeroCard.ActionsMatchRoutes | frontend/src/components/HeroCard.tsx:109-127 | edit shows iff the update route admits the user, delete iff the delete route does; nobody logged in sees neither |
| HeroCard.DeleteRequest | frontend/src/components/HeroCard.tsx:30-36 | `onDelete` gets the hero's `_id` iff the user confirmed |
| HeroDetails.GetImageSrc | frontend/src/pages/HeroDetails.tsx:57-62 | the page's copy of the image rule agrees with the card's |
| HeroDetails.BadgeColor | frontend/src/pages/HeroDetails.tsx:46-55 | red iff Marvel, blue iff DC, gray iff neither |
| HeroDetails.BadgeFollowsCard | frontend/src/pages/HeroDetails.tsx:46-55 | the badge and the card label agree on which universe gets which colour |
| HeroDetails.ShowsEdit | frontend/src/pages/HeroDetails.tsx:135 | a logged-in admin or editor |
| HeroDetails.ShowsDelete | frontend/src/pages/HeroDetails.tsx:145 | a logged-in admin |
| HeroDetails.ShowsModified | frontend/src/pages/HeroDetails.tsx:216 | the two timestamps differ; `HeroDetails.ModifiedLine` relates it to the loader's clock readings |
| HeroDetails.ActionsAsOnCard | frontend/src/pages/HeroDetails.tsx:135-153 | the page offers edit and delete to the same users as the card |
| HeroDetails.ModifiedLine | frontend/src/pages/HeroDetails.tsx:216-218 | a hero fresh from the loader shows "Modifié le" iff its two clock readings differ, and its stored document keeps both readings |
| HeroDetails.HeroDetailsPage.constructor | frontend/src/pages/HeroDetails.tsx:10-12 | no hero, loading, no error |
| HeroDetails.HeroDetailsPage.View | frontend/src/pages/HeroDetails.tsx:70-89 | spinner iff loading; details iff loaded with no error and a hero; otherwise the error or "Héros non trouvé" |
| HeroDetails.HeroDetailsPage.Mount | frontend/src/pages/HeroDetails.tsx:16-31 | without a non-empty id nothing happens; with one, loading ends with the hero or the load error |
| HeroDetails.HeroDetailsPage.HandleDelete | frontend/src/pages/HeroDetails.tsx:33-44 | nothing without a hero or without confirmation; otherwise one delete call, then the dashboard or the alert |
| HeroForm.TrimAll | frontend/src/components/HeroForm.tsx:69 | each piece trimmed, count kept |
| HeroForm.ParsePowers | frontend/src/components/HeroForm.tsx:67-70 | split on commas, trim, drop empty pieces; `ParsedPowersClean`, `PowersRoundTrip` and `ParsePowersIdempotent` state it |
| HeroForm.ParsedPowersClean | frontend/src/components/HeroForm.tsx:67-70 | every parsed power is non-empty, trimmed and comma-free |
| HeroForm.SplitJoin | frontend/src/components/HeroForm.tsx:54 | joining clean powers with ", " and splitting on ',' gives them back once trimmed |
| HeroForm.PowersRoundTrip | frontend/src/components/HeroForm.tsx:54-70 | parsing the joined powers of a hero gives its powers back |
| HeroForm.ParsePowersIdempotent | frontend/src/components/HeroForm.tsx:67-70 | reading back what was sent changes nothing more |
| HeroForm.LengthError | frontend/src/components/HeroForm.tsx:20-27 | no error iff the string is non-empty and its length in UTF-16 units is within the bounds; otherwise the "required", "too short" or "too long" message, in that order |
| HeroForm.NomError | frontend/src/components/HeroForm.tsx:20-23 | required, 2 to 50 UTF-16 units, with the name messages |
| HeroForm.AliasError | frontend/src/components/HeroForm.tsx:24-27 | required, 2 to 50 UTF-16 units, with the alias messages |
| HeroForm.DescriptionError | frontend/src/components/HeroForm.tsx:38-40 | required, at least 10 UTF-16 units |
| HeroForm.OrigineError | frontend/src/components/HeroForm.tsx:41-43 | required, at least 2 UTF-16 units |
| HeroForm.PremiereError | frontend/src/components/HeroForm.tsx:44-46 | required, at least 2 UTF-16 units |
| HeroForm.AstralNameTooLong | frontend/src/components/HeroForm.tsx:20-23 | a name of 26 characters outside the Basic Multilingual Plane is 52 units long and gets the "too long" message |
| HeroForm.UniversError | frontend/src/components/HeroForm.tsx:28-30 | no error iff the value names one of the three universes |
| HeroForm.PouvoirsError | frontend/src/components/HeroForm.tsx:31-37 | no error iff the field yields at least one power |
| HeroForm.FieldRule | frontend/src/components/HeroForm.tsx:19-47 | each schema entry reports an error iff its rule fails |
| HeroForm.ErrorsIffRules | frontend/src/components/HeroForm.tsx:19-47 | a field is in the errors iff its rule fails, so no errors iff every rule holds |
| HeroForm.EmptyFormBreaksRules | frontend/src/components/HeroForm.tsx:49-58 | the empty form breaks every rule |
| HeroForm.InitialValues | frontend/src/components/HeroForm.tsx:49-58 | the hero's fields, its powers joined with ", ", or empty strings; `EmptyFormBreaksRules` and `StoredHeroPassesForm` state what they validate to |
| HeroForm.EmptyFormErrors | frontend/src/components/HeroForm.tsx:19-58 | the empty form reports every schema field, each as required |
| HeroForm.StoredHeroPassesForm | frontend/src/components/HeroForm.tsx:49-58 | a hero meeting the rules can be resubmitted unedited, with its powers unchanged |
| HeroForm.Keys | frontend/src/components/HeroForm.tsx:64 | `image` is a key iff it was set |
| HeroForm.FieldEntries | frontend/src/components/HeroForm.tsx:64-75 | one entry per key, in key order |
| HeroForm.BuildFormData | frontend/src/components/HeroForm.tsx:60-83 | the `forEach` and the final append build the form data |
| HeroForm.FormDataFields | frontend/src/components/HeroForm.tsx:72-74 | every schema field except the powers is sent under its name with its value |
| HeroForm.FormDataPowers | frontend/src/components/HeroForm.tsx:65-71 | the powers are sent as the parsed list, and no other list is sent |
| HeroForm.SentPowersClean | frontend/src/components/HeroForm.tsx:65-71 | every power sent is clean |
| HeroForm.FormDataFile | frontend/src/components/HeroForm.tsx:78-80 | a file is sent iff one is selected, and then last |
| HeroForm.FormDataImageText | frontend/src/components/HeroForm.tsx:64-75 | an `image` text entry is sent iff the image was removed, with its value |
| HeroForm.HeroFormState.constructor | frontend/src/components/HeroForm.tsx:14-17 | the values of the hero edited or empty; the preview is the hero's image when it has one; no file |
| HeroForm.HeroFormState.HandleImageChange | frontend/src/components/HeroForm.tsx:86-96 | a chosen file becomes the selection and its data URL the preview; no file changes nothing |
| HeroForm.HeroFormState.HandleImageRemove | frontend/src/components/HeroForm.tsx:98-102 | no preview, no file, `image` set to "" |
| HeroForm.HeroFormState.Submit | frontend/src/components/HeroForm.tsx:59-83 | the form data is built iff every rule holds |
| HeroTypes.UniverseNameRoundTrip | frontend/src/types/Hero.ts:5 | each universe name parses back to its universe |
| HeroTypes.ParseUniverseInverse | backend/src/models/Hero.ts:30 | only the three names parse, each to the universe it names |
| HeroTypes.RoleNameInjective | frontend/src/types/Hero.ts:20 | distinct roles have distinct names |
| Strings.ToLower | backend/src/utils/dataTransformer.ts:76 | same length; each ASCII capital lowered, everything else kept |
| Strings.ToLowerIdempotent | backend/src/utils/dataTransformer.ts:76 | lower-casing twice is lower-casing once |
| Strings.Trim | frontend/src/components/HeroForm.tsx:35 | no leading or trailing whitespace remains |
| Strings.TrimIsSlice | frontend/src/components/HeroForm.tsx:35 | `trim` gives a slice of the string with only whitespace before and after it, so it removes nothing else |
| Strings.TrimOfTrimmed | frontend/src/components/HeroForm.tsx:35 | a trimmed string is unchanged by `trim` |
| Strings.TrimIdempotent | backend/src/models/Hero.ts:20 | trimming twice is trimming once |
| Strings.Utf16Length | frontend/src/components/HeroForm.tsx:22 | JavaScript's `length`: between the number of characters and twice that, equal to it iff no character is astral |
| Strings.Utf16LengthOfChar | frontend/src/components/HeroForm.tsx:22 | one character is two code units if astral, one otherwise |
| Strings.Utf16LengthAppend | frontend/src/components/HeroForm.tsx:22 | the length of a concatenation is the sum of the lengths; with the single-character case this fixes every length |
| Strings.Split | frontend/src/components/HeroForm.tsx:35 | at least one piece, none containing the separator |
| Strings.SplitAtSeparator | frontend/src/components/HeroForm.tsx:35 | a separator splits the string into the part before it and the pieces after it |
| Strings.IntToStringRoundTrip | backend/src/utils/dataTransformer.ts:111 | `id.toString()` is decimal notation that parses back to the id |
| Strings.ContainsTransitive | backend/src/utils/dataTransformer.ts:76 | a text containing s contains whatever s contains |
| Common.Filter | frontend/src/pages/Dashboard.tsx:66 | `filter` keeps exactly the elements the callback accepts, all satisfying it, never more than the input |
| Common.FilterIsSubsequence | frontend/src/pages/Dashboard.tsx:66 | `filter` keeps the order of what it keeps |
| Common.FilterFilter | frontend/src/pages/Dashboard.tsx:41-51 | two filters in a row are one filter by both callbacks |

## Left out

- MongoDB itself is not modelled. The `$regex` search, `find`, `findById`, `findByIdAndUpdate` and `deleteOne` run in the database. `getHeroById`, `deleteHero` and the database branches of `getHeroes`, `createHero`, `updateHero` and `login` are only modelled as far as the documents they build.
- `getCurrentUser`: a lookup by `_id`, in the database or in `mockUsers`. It is not modelled.
- `getUsersCount` does not parse as written: the `catch` has no matching `try`. It is not modelled.
- `mockUsers` and `connectDB` are exported by `db.ts` but never defined there. The mock user list is a parameter of `AuthController.MockLogin`.
- `backend/src/models/User.ts` (the pre-save password hashing and `comparePassword`) is not part of this model. Hashing is a function parameter of `Db`, and `bcrypt.compare` is a parameter of `AuthController.MockLogin`. `isEmail` is a parameter too.
- JSON Web Tokens and the authentication middleware are not modelled: the role gates receive the already authenticated user. As written, `auth` in `backend/src/middleware/authMiddleware.ts` verifies the token but never sets `req.user` and never calls `next()`, so no hero route behind it reaches its role gate. `RoleMiddleware.RouteGate` models the gates as they would act once a user is set.
- File system calls are not modelled: `existsSync`, `readFileSync`, `JSON.parse` and `unlinkSync`. Their outcomes are inputs: `DataTransformer.SourceFile` and `SeedDatabase.HeroFile`. The deletion of the old image in `updateHero` is left out.
- `JSON.parse(heroData.pouvoirs)` in `createHero` and `updateHero` is not modelled. Request bodies are maps from field names to strings.
- `new Date()` readings are integers. The loader takes a clock function as the source of its successive readings. The frontend's ISO date strings are integers compared numerically.
- `toLowerCase` lowers ASCII letters only, and `trim` removes a fixed set of whitespace characters. Full Unicode case mapping is not modelled.
- `localeCompare` is the parameter `collate`. Name sorting is proved ordered only when `collate` is a total preorder.
- `Array.prototype.sort` sorts in place. The model sorts a copy with a stable insertion sort, because both callers sort a fresh copy, so no aliasing is lost.
- React rendering, effects scheduling, navigation and the image error fallback are not modelled. The page state is a class whose fields the handlers assign. The `FileReader` result, the confirmation dialog and API answers are method parameters.
- Yup reports one message per failing field, the first rule it breaks, in declaration order. The messages are modelled, but only "no error iff the rule holds" and the messages of the empty form are proved.
- `logger` and `console` output are not modelled.
- SeedDatabase.Seed: the parsed file is taken to be an array of hero documents with string fields and a valid `univers`. `Hero.insertMany` given any other JSON value is not modelled. That includes the `{ superheros: [...] }` object the loader reads from the file of the same name, which Mongoose would take as a single document and reject.
- Storage.SchemaValid: whether `required` rejects an empty `pouvoirs` array depends on the Mongoose version. The model accepts it. Transformed heroes always have at least one power.
- Storage.Store.InsertMany: Mongoose's `timestamps` fill in `createdAt` and `updatedAt` only where a document has none. Every modelled document carries both, so they are stored as given.
- The process-wide `mockHeroes` list is the loader's output, passed to `HeroController.GetHeroesMock` as a value.
