# Participant application lifecycle — a Dafny model

This project models the core of the portal for a hackathon: one participant's record as it
moves through three tables keyed by (event slug, participant id). The tables are the
in-progress **draft**, the submitted **application** and the **check-in**. Beside them are two
small tables: **emails**, keyed by participant id, and **schools**, keyed by school id.

Each table is a Dafny class whose `rows` field is a map from key to record, and each
record is stored under its own key (`DraftKeysConsistent`, `ApplicationKeysConsistent`,
`CheckInKeysConsistent`, `EmailKeysConsistent`, `SchoolKeysConsistent`, one per table). Its query
functions read the map; `save`, `mark`, `create` and `delete` are methods that reassign it.
The three GraphQL mutations are methods over the tables they touch:

- `saveApplication` loads or creates the caller's draft and applies a tri-state patch, one
  field at a time. It then upserts the draft.
- `submitApplication` refuses a second submission, promotes the draft and deletes it.
- `checkIn` resolves whom to check in and which role that needs. It then marks the target,
  but only when they have an accepted application.

The pure parts are functions with lemmas: the patch (`set_option!`), the promotion of a
complete draft, the `results!` envelope, the database names of the enums, and the
OpenTelemetry protocol parser.

Modules follow the source files: `Applications` (database/src/application.rs),
`DraftApplications` (database/src/draft_application.rs), `ApplicationStore` (the
application queries used by the mutations), `CheckIns`, `Emails`, `Schools`, `Mutation`
(graphql/src/mutation/mod.rs), `DraftApplicationMutation`, `ApplicationMutation`,
`CheckInMutation` and `Telemetry` (src/main.rs). `Wrappers` and `Types` hold `Option`,
`Result`, `i32`, timestamps, dates, keys and the store's error kinds.

Modelling choices:

- **Which fields a draft has.** `DraftApplication` (database/src/draft_application.rs) and `Application`
  (database/src/application.rs) hold a `links` list. The mutation instead patches `referrer`, `vcs_url`, `portfolio_url` and
  `devpost_url`. The model uses the stored structs' sixteen substantive fields. The input
  carries one tri-state `links` entry in place of those four.
- **The draft's substantive fields** are grouped in one `DraftContent` record. A save
  replaces that record wholesale.
- **`share_information`.** In the input it is `Option<bool>`, and `Some(b)` stores
  `Some(b)` in the draft. The source assigns a `bool` to the draft's `Option<bool>` field
  there.
- **Timestamps and clocks.** Both are opaque values passed in as `now`. The insert of
  `save` names no timestamp column, so a new draft row takes the database default (`now`)
  for both. The conflict update names neither, so an existing row keeps both.
- **`Application::exists`, `accepted_exists` and `from_draft`** are called, not defined, in
  graphql/src/mutation/application.rs, graphql/src/mutation/draft_application.rs and
  graphql/src/mutation/check_in.rs. `from_draft`
  is modelled as an insert of the selected draft row:
  - no draft row gives `RowNotFound`;
  - a draft with a null in a column that `Application` requires gives `NotNull` (SQLSTATE
    23502);
  - an application already stored under the key gives `Unique`;
  - otherwise the new row is `Pending`, not flagged, with empty notes (the field values of
    xtask/src/webhooks/examples.rs:48-50).
- **Re-checking in.** The conflict clause of `CheckIn::mark` sets only the key columns (database/src/check_in.rs:44-47), so the stored
  `at` is kept and returned. The model follows the code.
- **A lost unique race.** A unique violation during submission is not reported as "already
  submitted": `submit_application` sends every error other than 23502 or `RowNotFound` to
  an internal error (graphql/src/mutation/application.rs:44-63), and so does the model
  (`FromDraftFailure`).
- **Roles.** The roles and their order live in the `context` crate, which is not part of this
  model. The model assumes Participant < Sponsor < Organizer < Director. `has_role` means
  "holds exactly that role"; `has_at_least_role` means "holds that role or a higher one".
  A failed check is modelled as `Forbidden`.
- **`Email::create`** is a plain insert, modelled with participant id as the table's key.
  A second address for the same participant is a unique violation.
- **School ids** are the struct's `String`; the queries take a `Uuid`.

## Model

| member | source | states |
|---|---|---|
| Applications.ParseStatus | database/src/application.rs:51-59 | exactly four status names are accepted ("pending", "waitlisted", "rejected", "accepted"), each read back to the status it names |
| Applications.StatusRoundTrip | database/src/application.rs:53-59 | every status, stored under its lower-case name, is read back as itself |
| Applications.ParseGender | database/src/application.rs:3-11 | exactly the four kebab-case gender names are accepted, each the name of what it parses to |
| Applications.GenderRoundTrip | database/src/application.rs:5-11 | every gender is read back as itself from its stored name |
| Applications.ParseRaceEthnicity | database/src/application.rs:13-34 | an accepted name is the kebab-case name of the value it parses to |
| Applications.RaceEthnicityRoundTrip | database/src/application.rs:15-34 | every race/ethnicity value is read back as itself from its stored name |
| Applications.ParseEducation | database/src/application.rs:36-49 | an accepted name is the kebab-case name of the level it parses to |
| Applications.EducationRoundTrip | database/src/application.rs:38-49 | every education level is read back as itself from its stored name |
| DraftApplications.New | database/src/draft_application.rs:80-104 | the new draft has key (event, participant), every substantive field empty, both timestamps the current time |
| DraftApplications.Upsert | database/src/draft_application.rs:113-178 | after a save, the key's row has exactly the saved draft's sixteen substantive fields (replaced wholesale, not merged); an existing row keeps `created_at` and `updated_at`, a new one gets the database's time; no other key's row changes; rows stay under their own keys |
| DraftApplications.UpsertIdempotent | database/src/draft_application.rs:121-153 | saving the same draft twice leaves the same table as saving it once |
| DraftApplications.DraftTable.Exists | database/src/draft_application.rs:184-197 | `exists` is true exactly when `find` returns a row |
| DraftApplications.DraftTable.Find | database/src/draft_application.rs:199-225 | `find` returns the key's row when there is one, and nothing otherwise; the row it returns carries the key asked for |
| DraftApplications.DraftTable.Save | database/src/draft_application.rs:113-178 | the table after `save` is `Upsert` of the table before |
| DraftApplications.DraftTable.Delete | database/src/draft_application.rs:227-241 | removes the key's row, and only that row; absent is not an error; afterwards `exists` is false |
| ApplicationStore.Complete | database/src/application.rs:70-104 | a draft is complete exactly when some application has its content, i.e. when none of the eleven columns `Application` makes non-optional is empty |
| ApplicationStore.Content | database/src/application.rs:63-105 | the five fields that are optional in both an application and a draft keep their values when an application is seen as a draft |
| ApplicationStore.ContentComplete | database/src/application.rs:63-105 | an application's fields, seen as a draft, always form a complete draft |
| ApplicationStore.Promote | database/src/application.rs:63-117 | a complete draft becomes an application under the same key with the same substantive fields, status Pending, not flagged, no notes, both timestamps the submission time |
| ApplicationStore.FromDraftResult | graphql/src/mutation/application.rs:40-63 | no draft gives RowNotFound; a draft missing a required field gives NotNull; an existing application gives Unique; otherwise the result is the promoted draft, Pending, under the key |
| ApplicationStore.ApplicationTable.Exists | graphql/src/mutation/application.rs:31-38 | true exactly when an application is stored under the key; in a well-formed table, exactly when some stored row has that event and that participant id |
| ApplicationStore.ApplicationTable.AcceptedExists | graphql/src/mutation/check_in.rs:42-51 | true exactly when an application exists for the key and its status is Accepted; in a well-formed table, exactly when some stored row has that event, that participant id and status Accepted |
| ApplicationStore.ApplicationTable.FromDraft | graphql/src/mutation/application.rs:40-65 | returns `FromDraftResult`; stores the new application only on success; the draft table is left alone |
| CheckIns.Marked | database/src/check_in.rs:37-57 | the marked row has the key asked for; an existing row keeps its `at`, a new row gets the database's time |
| CheckIns.MarkIdempotent | database/src/check_in.rs:44-47 | marking an already marked key returns the stored row unchanged, whatever the time |
| CheckIns.CheckInTable.Exists | database/src/check_in.rs:22-33 | true exactly when a check-in row exists for the key; in a well-formed table, exactly when some stored row matches `participant_id = $1 AND event = $2` |
| CheckIns.CheckInTable.Mark | database/src/check_in.rs:37-57 | returns `Marked`; afterwards the key has exactly that one row, `exists` is true, and no other key changes |
| CheckIns.CheckInTable.Delete | database/src/check_in.rs:61-72 | removes the key's row, and only that row; absent is not an error; afterwards `exists` is false |
| Emails.EmailTable.Find | database/src/email.rs:19-30 | the participant's row, or nothing when there is none |
| Emails.EmailTable.Create | database/src/email.rs:34-46 | returns `Email { participant_id: id, address }` and stores it, after which `find(id)` returns it; no other participant's row changes; a participant that already has a row gets a unique violation and nothing is written |
| Schools.SchoolTable.Exists | database/src/school.rs:23-30 | `exists` is true exactly when `find` returns a school |
| Schools.SchoolTable.Find | database/src/school.rs:45-52 | the school with that id, or nothing |
| Schools.SchoolTable.All | database/src/school.rs:34-41 | every stored school appears, each exactly once, and nothing else |
| Schools.SchoolTable.Delete | database/src/school.rs:56-63 | removes that school only; absent is not an error; afterwards `exists` is false |
| Mutation.NewUserError | graphql/src/mutation/mod.rs:32-35 | the error keeps the field path and the message it was given |
| Mutation.FromValue | graphql/src/mutation/mod.rs:59-66 | a value becomes the payload of a result with no user errors |
| Mutation.FromUserError | graphql/src/mutation/mod.rs:68-75 | one user error becomes a result with no payload and exactly that error |
| Mutation.FromUserErrors | graphql/src/mutation/mod.rs:77-84 | a list of user errors becomes a result with no payload and exactly that list |
| Mutation.ConversionsExclusive | graphql/src/mutation/mod.rs:59-84 | a result built from a value never carries errors; one built from errors never carries a payload |
| Mutation.ParticipantScope | graphql/src/mutation/application.rs:23-28 | the caller must be authenticated, scoped to an event and a Participant, checked in that order, before any store access; on success the key is (event, caller id) |
| DraftApplicationMutation.SetOption | graphql/src/mutation/draft_application.rs:16-24 | a value sets the field to `Some(value)`, null clears it, an omitted entry leaves it unchanged |
| DraftApplicationMutation.SetOptionIdempotent | graphql/src/mutation/draft_application.rs:16-24 | setting a field twice with the same entry equals setting it once |
| DraftApplicationMutation.ApplyPatch | graphql/src/mutation/draft_application.rs:62-82 | an input that mentions nothing changes nothing; a set `share_information` stays set; clearing a required field makes the draft incomplete, and a complete draft stays complete under an input that clears no required field |
| DraftApplicationMutation.NoChangesIsIdentity | graphql/src/mutation/draft_application.rs:62-82 | an input that mentions no field leaves the draft unchanged |
| DraftApplicationMutation.PatchIdempotent | graphql/src/mutation/draft_application.rs:62-82 | applying the same input twice gives the same draft as applying it once |
| DraftApplicationMutation.ShareInformationNeverCleared | graphql/src/mutation/draft_application.rs:80-82 | sharing information is overwritten by `Some(b)` and kept otherwise, so once set it can never be cleared |
| DraftApplicationMutation.PatchCompose | graphql/src/mutation/draft_application.rs:62-82 | two saves in a row equal one save of the composed input, in which per field the later mention wins |
| DraftApplicationMutation.SessionsCompose | graphql/src/mutation/draft_application.rs:57-84 | any sequence of saves, each finished before the next starts, equals one save of their composition: no save's fields are lost to a later one |
| DraftApplicationMutation.UnmentionedFieldKept | graphql/src/mutation/draft_application.rs:62-82 | a field the input leaves out keeps its stored value after one save |
| DraftApplicationMutation.ComposeAllUnmentioned | graphql/src/mutation/draft_application.rs:62-82 | the composition of inputs that all leave a field out leaves that field out too |
| DraftApplicationMutation.UnmentionedFieldSurvives | graphql/src/mutation/draft_application.rs:62-82 | any field that no save mentions keeps its stored value across any number of saves |
| DraftApplicationMutation.UnmentionedMajorSurvives | graphql/src/mutation/draft_application.rs:68 | the major, when no save mentions it, keeps its stored value across any number of saves (the `major` instance of `UnmentionedFieldSurvives`) |
| DraftApplicationMutation.PatchedDraft | graphql/src/mutation/draft_application.rs:57-88 | the draft to save is the stored one, or a blank new one, with the input applied; its key is the caller's; after the upsert the stored row is exactly this draft |
| DraftApplicationMutation.OverlappingSavesKeepLast | database/src/draft_application.rs:113-178 | two saves that both read the row before either writes end with exactly the second save's draft, since each upsert rewrites every substantive column |
| DraftApplicationMutation.SaveApplication | graphql/src/mutation/draft_application.rs:33-89 | a caller who is not a Participant is refused with no write; an existing application gives "application already submitted" and no write; otherwise the patched draft is upserted and returned, and it is exactly the stored row |
| ApplicationMutation.FromDraftFailure | graphql/src/mutation/application.rs:40-65 | a not-null violation becomes "application is incomplete", a missing draft "could not find a draft application", both user errors; every other error is an internal error |
| ApplicationMutation.SubmitApplication | graphql/src/mutation/application.rs:22-72 | a non-Participant is refused before any store access; an existing application gives "application already submitted" and neither table changes; a failed promotion is classified by `FromDraftFailure` and neither table changes (the draft is kept); on success the application is stored and returned and the draft is deleted |
| ApplicationMutation.SubmitTwice | graphql/src/mutation/application.rs:31-71 | after a successful submission the application is Pending, stored under the caller's key and no draft is left; a second submission returns "application already submitted" |
| CheckInMutation.ResolveTarget | graphql/src/mutation/check_in.rs:26-37 | with no id the target is the caller, who must be a Participant; with the caller's own id the Participant role is required; with any other id at least Organizer is required |
| CheckInMutation.CheckInKey | graphql/src/mutation/check_in.rs:23-37 | the event scope is checked first, then authentication, then the role; on success the key is (event, target) |
| CheckInMutation.CheckIn | graphql/src/mutation/check_in.rs:22-58 | without an accepted application for the target, the result is a user error on `["id"]` and no row is written; with one, the target is marked and the returned time is the stored row's `at` |
| CheckInMutation.CheckInTwice | graphql/src/mutation/check_in.rs:40-57 | checking in an accepted target twice succeeds both times; the second call returns the time of the first, which is the stored `at` |
| Telemetry.ToLower | src/main.rs:59 | lower-casing keeps the length and lowers each ASCII letter in place |
| Telemetry.ToLowerIdempotent | src/main.rs:59 | lower-casing twice is lower-casing once |
| Telemetry.ParseProtocol | src/main.rs:58-65 | "grpc" parses to Grpc; "http" and "http/protobuf" parse to HttpBinary; any other string, after lower-casing, is the "invalid exporter protocol" error |
| Telemetry.ParseCaseInsensitive | src/main.rs:59-64 | an argument parses exactly as its lower-cased form does |
| Telemetry.DefaultParses | src/main.rs:37-43 | the default value "grpc" parses to Grpc |
| Telemetry.UpperCaseParses | src/main.rs:59-61 | "GRPC" parses to Grpc and "HTTP" to HttpBinary |

## Left out

- Transactions, isolation, unique-constraint races and cancellation: the store is sequential. `saveApplication` and `checkIn` run in a transaction; `submitApplication` runs its three store calls directly on the pool. The model runs every step in order and claims no rollback. Overlapping saves are not serialised by the source: `find` takes no lock and the connection keeps the default READ COMMITTED isolation, so two saves that both read before either writes lose the first one's fields, as `OverlappingSavesKeepLast` states; `SessionsCompose` holds only for saves that follow one another.
- Connection-level failures of individual store calls are not modelled. The source turns them into an internal server error. In-memory tables fail only where the data makes them fail: `from_draft`'s three conditions and `Email::create`'s unique violation. The mapping from every error kind to a response is stated by `FromDraftFailure`.
- Webhook dispatch (graphql/src/webhooks.rs) and email sending (mail/src/lib.rs) are fire-and-forget network I/O, and are not part of this model.
- Status transitions and `partial_update` of applications: none of graphql/src/mutation/application.rs, draft_application.rs or check_in.rs changes an application's status, flags or notes; no transition table is modelled.
- Authentication and role checks (`context::checks`) are external. The caller's id, role and event scope are inputs, and the refusals are the `ApiError` cases.
- Clocks: `Utc::now()` and the database defaults for `created_at`, `updated_at` and `at` are the `now` parameter. `saveApplication` reads the clock for a new draft and the database stamps the new row; the model uses one `now` for both.
- Database triggers: a trigger that maintains `updated_at` is not part of this model; the model keeps what the SQL of `DraftApplication::save` writes.
- Unicode lower-casing in `opentelemetry_protocol_parser` is modelled as ASCII lower-casing. No non-ASCII character lower-cases to a letter of "grpc", "http" or "http/protobuf", so both accept and reject the same strings.
- The enums' names outside the database (GraphQL, serde) and the `Referrer` enum that graphql/src/mutation/draft_application.rs imports but `DraftApplication` and `Application` do not hold.
- SQL text, the `impl_queries!` macro, `database::connect`, error logging, routing, state, schema building, the `Forbidden` mapping, the xtask tools and the `.env` loading in src/main.rs.
- DraftApplicationMutation.UnmentionedMajorSurvives: states the "omitted field survives" property for `major` only, as an example; `UnmentionedFieldSurvives` states it for every field.
