/** The school table of database/src/school.rs. */
module Schools {
  import opened Wrappers

  /** A verified school; `id` is its unique id. */
  datatype School = School(id: string, name: string)

  predicate SchoolKeysConsistent(rows: map<string, School>) {
    forall id | id in rows :: rows[id].id == id
  }

  /** The school table, keyed by school id. */
  class SchoolTable {
    var rows: map<string, School>

    ghost predicate Valid()
      reads this
    {
      SchoolKeysConsistent(rows)
    }

    constructor ()
      ensures Valid() && rows == map[]
    {
      rows := map[];
    }

    /** `School::exists`. */
    function Exists(id: string): (r: bool)
      reads this
      ensures r <==> Find(id).Some?
    {
      id in rows
    }

    /** `School::find`: the school with the id, or nothing. */
    function Find(id: string): (r: Option<School>)
      reads this
      ensures r.Some? <==> id in rows
      ensures r.Some? ==> r.value == rows[id]
      ensures Valid() && r.Some? ==> r.value.id == id
    {
      if id in rows then Some(rows[id]) else None
    }

    /** `School::all`: every stored school, each once, collected row by row in no
        particular order. */
    method All() returns (r: seq<School>)
      requires Valid()
      ensures forall i | 0 <= i < |r| :: r[i].id in rows && rows[r[i].id] == r[i]
      ensures forall id | id in rows :: rows[id] in r
      ensures forall i, j | 0 <= i < j < |r| :: r[i].id != r[j].id
      ensures |r| == |rows|
    {
      r := [];
      var remaining := rows.Keys;
      while remaining != {}
        invariant remaining <= rows.Keys
        invariant |r| + |remaining| == |rows.Keys|
        invariant forall i | 0 <= i < |r| :: r[i].id in rows && rows[r[i].id] == r[i] && r[i].id !in remaining
        invariant forall id | id in rows && id !in remaining :: rows[id] in r
        invariant forall i, j | 0 <= i < j < |r| :: r[i].id != r[j].id
        decreases remaining
      {
        var id :| id in remaining;
        r := r + [rows[id]];
        remaining := remaining - {id};
      }
    }

    /** `School::delete`: removes that school only, and is not an error when it is
        absent. */
    method Delete(id: string)
      requires Valid()
      modifies this
      ensures Valid()
      ensures rows == old(rows) - {id}
      ensures !Exists(id)
    {
      rows := rows - {id};
    }
  }
}
