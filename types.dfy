/** Scalar types shared by every table of the store. */
module Types {

  /** Rust's `i32`, the type of participant ids, graduation years and hackathon counts. */
  newtype i32 = x: int | -0x8000_0000 <= x < 0x8000_0000

  /** A `DateTime<Utc>` instant. Instants come from the environment (the clock or a
      database default) and are only stored, compared and returned, never computed. */
  type Timestamp = int

  /** A `NaiveDate` (a calendar date without time zone), kept as its three components. */
  datatype NaiveDate = NaiveDate(year: int, month: int, day: int)

  /** The key of the draft, application and check-in tables: (event slug, participant id). */
  datatype Key = Key(event: string, participantId: i32)

  /** The condition that a failed store call reports. The SQLSTATE codes the code looks at
      are 23502 (a not-null violation) and 23505 (a unique violation); `RowNotFound` is the
      driver's "query returned no row"; `Other` is every other failure. */
  datatype DbError = NotNull | RowNotFound | Unique | Other
}
