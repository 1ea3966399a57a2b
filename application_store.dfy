/** The application table and the promotion of a draft into an application, as
    `Application::exists`, `Application::accepted_exists` and `Application::from_draft` are
    used by graphql/src/mutation/application.rs and graphql/src/mutation/check_in.rs: an
    application row is keyed like its draft, and promotion copies a draft whose columns
    `Application` requires are all present. */
module ApplicationStore {
  import opened Wrappers
  import opened Types
  import opened Applications
  import opened DraftApplications

  /** The draft has every field that is nullable in a draft but not in an application:
      only such a draft can be copied into the application table without a not-null
      violation. `major`, the address lines 2 and 3, `locality` and `administrativeArea`
      may stay empty. A draft is complete exactly when some application has its content. */
  predicate Complete(c: DraftContent): (b: bool)
    ensures b <==> exists a: Application :: Content(a) == c
  {
    var b :=
      && c.gender.Some? && c.raceEthnicity.Some? && c.dateOfBirth.Some?
      && c.education.Some? && c.graduationYear.Some?
      && c.hackathonsAttended.Some? && c.links.Some?
      && c.addressLine1.Some? && c.postalCode.Some? && c.country.Some?
      && c.shareInformation.Some?;
    if b then
      var a := Application(
        "", 0,
        c.gender.value, c.raceEthnicity.value, c.dateOfBirth.value,
        c.education.value, c.graduationYear.value, c.major,
        c.hackathonsAttended.value, c.links.value,
        c.addressLine1.value, c.addressLine2, c.addressLine3, c.locality, c.administrativeArea,
        c.postalCode.value, c.country.value, c.shareInformation.value,
        Pending, false, "", 0, 0);
      assert Content(a) == c;
      true
    else
      false
  }

  /** Every application, viewed as a draft, is complete. */
  lemma ContentComplete(a: Application)
    ensures Complete(Content(a))
  {
  }

  /** The draft-shaped view of an application's substantive fields. */
  function Content(a: Application): (c: DraftContent)
    ensures c.major == a.major && c.addressLine2 == a.addressLine2
    ensures c.addressLine3 == a.addressLine3 && c.locality == a.locality
    ensures c.administrativeArea == a.administrativeArea
  {
    DraftContent(
      Some(a.gender), Some(a.raceEthnicity), Some(a.dateOfBirth),
      Some(a.education), Some(a.graduationYear), a.major,
      Some(a.hackathonsAttended), Some(a.links),
      Some(a.addressLine1), a.addressLine2, a.addressLine3, a.locality, a.administrativeArea,
      Some(a.postalCode), Some(a.country), Some(a.shareInformation))
  }

  /** The application a complete draft becomes: every substantive field copied, the status
      `Pending`, not flagged, no notes, both timestamps the time of submission. */
  function Promote(d: DraftApplication, now: Timestamp): (a: Application)
    requires Complete(d.content)
    ensures a.KeyOf() == d.KeyOf()
    ensures Content(a) == d.content
    ensures a.status == Pending && !a.flagged && a.notes == ""
    ensures a.createdAt == now && a.updatedAt == now
  {
    var c := d.content;
    Application(
      d.event, d.participantId,
      c.gender.value, c.raceEthnicity.value, c.dateOfBirth.value,
      c.education.value, c.graduationYear.value, c.major,
      c.hackathonsAttended.value, c.links.value,
      c.addressLine1.value, c.addressLine2, c.addressLine3, c.locality, c.administrativeArea,
      c.postalCode.value, c.country.value, c.shareInformation.value,
      Pending, false, "", now, now)
  }

  /** What `from_draft` reports for a key, as an insert of the selected draft row: no
      draft row means the query returned nothing; a null in a required column is a
      not-null violation; a second row for the key is a unique violation. */
  function FromDraftResult(
    apps: map<Key, Application>, drafts: map<Key, DraftApplication>, k: Key, now: Timestamp)
    : (r: Result<Application, DbError>)
    ensures r == Err(RowNotFound) <==> k !in drafts
    ensures r == Err(NotNull) <==> k in drafts && !Complete(drafts[k].content)
    ensures r == Err(Unique) <==> k in drafts && Complete(drafts[k].content) && k in apps
    ensures r.Ok? <==> k in drafts && Complete(drafts[k].content) && k !in apps
    ensures r.Ok? ==> Content(r.value) == drafts[k].content && r.value.status == Pending
    ensures r.Ok? && DraftKeysConsistent(drafts) ==> r.value.KeyOf() == k
  {
    if k !in drafts then Err(RowNotFound)
    else if !Complete(drafts[k].content) then Err(NotNull)
    else if k in apps then Err(Unique)
    else Ok(Promote(drafts[k], now))
  }

  predicate ApplicationKeysConsistent(rows: map<Key, Application>) {
    forall k | k in rows :: rows[k].KeyOf() == k
  }

  /** The application table. */
  class ApplicationTable {
    var rows: map<Key, Application>

    ghost predicate Valid()
      reads this
    {
      ApplicationKeysConsistent(rows)
    }

    constructor ()
      ensures Valid() && rows == map[]
    {
      rows := map[];
    }

    /** `Application::exists`. */
    function Exists(event: string, participantId: i32): (r: bool)
      reads this
      ensures r <==> Key(event, participantId) in rows
      ensures Valid() ==>
        (r <==> exists k | k in rows :: rows[k].event == event && rows[k].participantId == participantId)
    {
      Key(event, participantId) in rows
    }

    /** `Application::accepted_exists`: an application for the key exists and has been
        accepted. */
    function AcceptedExists(event: string, participantId: i32): (r: bool)
      reads this
      ensures r ==> Exists(event, participantId)
      ensures r <==> Exists(event, participantId) && rows[Key(event, participantId)].status == Accepted
      ensures Valid() ==>
        (r <==> exists k | k in rows ::
                  rows[k].event == event && rows[k].participantId == participantId
                  && rows[k].status == Accepted)
    {
      var k := Key(event, participantId);
      k in rows && rows[k].status == Accepted
    }

    /** `Application::from_draft`: copies the draft for the key into a new application
        row. On failure nothing is written; the draft is never touched. */
    method FromDraft(drafts: DraftTable, event: string, participantId: i32, now: Timestamp)
      returns (r: Result<Application, DbError>)
      requires Valid() && drafts.Valid()
      modifies this
      ensures Valid()
      ensures r == FromDraftResult(old(rows), drafts.rows, Key(event, participantId), now)
      ensures r.Ok? ==> rows == old(rows)[Key(event, participantId) := r.value]
      ensures r.Err? ==> rows == old(rows)
    {
      r := FromDraftResult(rows, drafts.rows, Key(event, participantId), now);
      if r.Ok? {
        rows := rows[Key(event, participantId) := r.value];
      }
    }
  }
}
