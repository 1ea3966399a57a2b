/** The draft table of database/src/draft_application.rs: an in-progress application per
    (event, participant), every substantive field nullable. */
module DraftApplications {
  import opened Wrappers
  import opened Types
  import opened Applications

  /** The sixteen substantive fields of a draft: everything but the key and the two
      timestamps. A save writes all of them at once. */
  datatype DraftContent = DraftContent(
    gender: Option<Gender>,
    raceEthnicity: Option<RaceEthnicity>,
    dateOfBirth: Option<NaiveDate>,
    education: Option<Education>,
    graduationYear: Option<i32>,
    major: Option<string>,
    hackathonsAttended: Option<i32>,
    links: Option<seq<string>>,
    addressLine1: Option<string>,
    addressLine2: Option<string>,
    addressLine3: Option<string>,
    locality: Option<string>,
    administrativeArea: Option<string>,
    postalCode: Option<string>,
    country: Option<string>,
    shareInformation: Option<bool>)

  /** True when no substantive field has been filled in. */
  predicate IsBlank(c: DraftContent) {
    && c.gender.None? && c.raceEthnicity.None? && c.dateOfBirth.None?
    && c.education.None? && c.graduationYear.None? && c.major.None?
    && c.hackathonsAttended.None? && c.links.None?
    && c.addressLine1.None? && c.addressLine2.None? && c.addressLine3.None?
    && c.locality.None? && c.administrativeArea.None?
    && c.postalCode.None? && c.country.None? && c.shareInformation.None?
  }

  datatype DraftApplication = DraftApplication(
    event: string,
    participantId: i32,
    content: DraftContent,
    createdAt: Timestamp,
    updatedAt: Timestamp)
  {
    function KeyOf(): Key {
      Key(event, participantId)
    }
  }

  /** `DraftApplication::new`: a draft for the key with nothing filled in, stamped with
      the current time. */
  function New(event: string, participantId: i32, now: Timestamp): (d: DraftApplication)
    ensures d.KeyOf() == Key(event, participantId)
    ensures IsBlank(d.content)
    ensures d.createdAt == now && d.updatedAt == now
  {
    var blank := DraftContent(None, None, None, None, None, None, None, None,
                              None, None, None, None, None, None, None, None);
    DraftApplication(event, participantId, blank, now, now)
  }

  /** Every row is stored under its own key. */
  predicate DraftKeysConsistent(rows: map<Key, DraftApplication>) {
    forall k | k in rows :: rows[k].KeyOf() == k
  }

  /** The table after `save(d)`: an insert whose conflict clause updates the sixteen
      substantive columns. A new row takes both timestamps from the database default
      (`now`); an existing row keeps the timestamps it had, since the update list names
      neither of them. */
  function Upsert(rows: map<Key, DraftApplication>, d: DraftApplication, now: Timestamp)
    : (r: map<Key, DraftApplication>)
    ensures d.KeyOf() in r && r[d.KeyOf()].KeyOf() == d.KeyOf()
    ensures r[d.KeyOf()].content == d.content
    ensures d.KeyOf() in rows ==>
              r[d.KeyOf()].createdAt == rows[d.KeyOf()].createdAt
              && r[d.KeyOf()].updatedAt == rows[d.KeyOf()].updatedAt
    ensures d.KeyOf() !in rows ==> r[d.KeyOf()].createdAt == now && r[d.KeyOf()].updatedAt == now
    ensures r.Keys == rows.Keys + {d.KeyOf()}
    ensures forall k | k in rows && k != d.KeyOf() :: r[k] == rows[k]
    ensures DraftKeysConsistent(rows) ==> DraftKeysConsistent(r)
  {
    var k := d.KeyOf();
    if k in rows then
      rows[k := DraftApplication(d.event, d.participantId, d.content, rows[k].createdAt, rows[k].updatedAt)]
    else
      rows[k := DraftApplication(d.event, d.participantId, d.content, now, now)]
  }

  /** Saving the same draft a second time changes nothing, whatever the clock says. */
  lemma UpsertIdempotent(rows: map<Key, DraftApplication>, d: DraftApplication, now: Timestamp, later: Timestamp)
    ensures Upsert(Upsert(rows, d, now), d, later) == Upsert(rows, d, now)
  {
  }

  /** The draft table. */
  class DraftTable {
    var rows: map<Key, DraftApplication>

    ghost predicate Valid()
      reads this
    {
      DraftKeysConsistent(rows)
    }

    constructor ()
      ensures Valid() && rows == map[]
    {
      rows := map[];
    }

    /** `DraftApplication::exists`. */
    function Exists(event: string, participantId: i32): (r: bool)
      reads this
      ensures r <==> Find(event, participantId).Some?
    {
      Key(event, participantId) in rows
    }

    /** `DraftApplication::find`: the row for the key, or nothing. */
    function Find(event: string, participantId: i32): (r: Option<DraftApplication>)
      reads this
      ensures Valid() && r.Some? ==> r.value.KeyOf() == Key(event, participantId)
      ensures r.Some? <==> Key(event, participantId) in rows
      ensures r.Some? ==> r.value == rows[Key(event, participantId)]
    {
      var k := Key(event, participantId);
      if k in rows then Some(rows[k]) else None
    }

    /** `DraftApplication::save`. */
    method Save(d: DraftApplication, now: Timestamp)
      requires Valid()
      modifies this
      ensures Valid()
      ensures rows == Upsert(old(rows), d, now)
    {
      rows := Upsert(rows, d, now);
    }

    /** `DraftApplication::delete`: removes the row if there is one, and is not an error
        when there is none. */
    method Delete(event: string, participantId: i32)
      requires Valid()
      modifies this
      ensures Valid()
      ensures rows == old(rows) - {Key(event, participantId)}
      ensures !Exists(event, participantId)
    {
      rows := rows - {Key(event, participantId)};
    }
  }
}
