/** The email table of database/src/email.rs: at most one address per participant. */
module Emails {
  import opened Wrappers
  import opened Types

  datatype Email = Email(participantId: i32, address: string)

  predicate EmailKeysConsistent(rows: map<i32, Email>) {
    forall id | id in rows :: rows[id].participantId == id
  }

  /** The email table, keyed by participant id. */
  class EmailTable {
    var rows: map<i32, Email>

    ghost predicate Valid()
      reads this
    {
      EmailKeysConsistent(rows)
    }

    constructor ()
      ensures Valid() && rows == map[]
    {
      rows := map[];
    }

    /** `Email::find`: the participant's row, or nothing. */
    function Find(id: i32): (r: Option<Email>)
      reads this
      ensures r.Some? <==> id in rows
      ensures r.Some? ==> r.value == rows[id]
      ensures Valid() && r.Some? ==> r.value.participantId == id
    {
      if id in rows then Some(rows[id]) else None
    }

    /** `Email::create`: a plain insert, so a participant that already has a row is a
        unique violation and nothing is written. */
    method Create(id: i32, address: string) returns (r: Result<Email, DbError>)
      requires Valid()
      modifies this
      ensures Valid()
      ensures id in old(rows) ==> r == Err(Unique) && rows == old(rows)
      ensures id !in old(rows) ==> r == Ok(Email(id, address)) && rows == old(rows)[id := r.value]
      ensures r.Ok? ==> Find(id) == Some(r.value)
    {
      if id in rows {
        r := Err(Unique);
      } else {
        r := Ok(Email(id, address));
        rows := rows[id := r.value];
      }
    }
  }
}
