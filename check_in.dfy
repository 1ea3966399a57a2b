/** The check-in table of database/src/check_in.rs. */
module CheckIns {
  import opened Wrappers
  import opened Types

  /** A participant has been checked in to an event at `at`. */
  datatype CheckIn = CheckIn(event: string, participantId: i32, at: Timestamp) {
    function KeyOf(): Key {
      Key(event, participantId)
    }
  }

  predicate CheckInKeysConsistent(rows: map<Key, CheckIn>) {
    forall k | k in rows :: rows[k].KeyOf() == k
  }

  /** The row `mark` leaves for the key and returns. The insert names only the two key
      columns, so a new row takes `at` from the database default (`now`); on conflict the
      update sets only the key columns to themselves, so an existing row keeps its `at`. */
  function Marked(rows: map<Key, CheckIn>, k: Key, now: Timestamp): (c: CheckIn)
    ensures c.KeyOf() == k
    ensures k in rows ==> c.at == rows[k].at
    ensures k !in rows ==> c.at == now
    ensures CheckInKeysConsistent(rows) && k in rows ==> c == rows[k]
  {
    CheckIn(k.event, k.participantId, if k in rows then rows[k].at else now)
  }

  /** Marking a key that is already marked returns the stored row unchanged, whatever
      the clock says. */
  lemma MarkIdempotent(rows: map<Key, CheckIn>, k: Key, now: Timestamp, later: Timestamp)
    ensures var c := Marked(rows, k, now);
            Marked(rows[k := c], k, later) == c
  {
  }

  /** The check-in table. */
  class CheckInTable {
    var rows: map<Key, CheckIn>

    ghost predicate Valid()
      reads this
    {
      CheckInKeysConsistent(rows)
    }

    constructor ()
      ensures Valid() && rows == map[]
    {
      rows := map[];
    }

    /** `CheckIn::exists`. */
    function Exists(event: string, participantId: i32): (r: bool)
      reads this
      ensures r <==> Key(event, participantId) in rows
      ensures Valid() ==>
        (r <==> exists k | k in rows :: rows[k].event == event && rows[k].participantId == participantId)
    {
      Key(event, participantId) in rows
    }

    /** `CheckIn::mark`: an upsert that returns the row. There is one row for the key
        afterwards, whether or not there was one before. */
    method Mark(event: string, participantId: i32, now: Timestamp) returns (c: CheckIn)
      requires Valid()
      modifies this
      ensures Valid()
      ensures c == Marked(old(rows), Key(event, participantId), now)
      ensures rows == old(rows)[Key(event, participantId) := c]
      ensures Exists(event, participantId)
    {
      c := Marked(rows, Key(event, participantId), now);
      rows := rows[Key(event, participantId) := c];
    }

    /** `CheckIn::delete`: removes the row if there is one, and is not an error when
        there is none. */
    method Delete(event: string, participantId: i32)
      requires Valid()
      modifies this
      ensures Valid()
      ensures rows == old(rows) - {Key(event, participantId)}
      ensures !Exists(event, participantId)
    {
      rows := rows - {Key(event, participantId)};
    }
  }
}
