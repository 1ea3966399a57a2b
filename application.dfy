/** The enums and the submitted application record of database/src/application.rs,
    with the database names the enums are stored under. */
module Applications {
  import opened Wrappers
  import opened Types

  datatype Gender = Male | Female | NonBinary | Other

  datatype RaceEthnicity =
    | AsianIndian | Black | Chinese | Filipino | Guamanian | Hispanic | Japanese | Korean
    | MiddleEastern | NativeAmerican | NativeHawaiian | Samoan | Vietnamese | White
    | OtherAsian | OtherPacificIslander | Other

  datatype Education =
    | BelowSecondary | Secondary | UndergraduateTwoYear | UndergraduateThreeYearPlus
    | Graduate | Bootcamp | Vocational | Other | NonStudent

  /** The review status of a submitted application. */
  datatype ApplicationStatus = Pending | Waitlisted | Rejected | Accepted

  /** A submitted application. The fields that are optional in a draft but plain here
      are the ones a draft must have filled in before it can be promoted. */
  datatype Application = Application(
    event: string,
    participantId: i32,
    gender: Gender,
    raceEthnicity: RaceEthnicity,
    dateOfBirth: NaiveDate,
    education: Education,
    graduationYear: i32,
    major: Option<string>,
    hackathonsAttended: i32,
    links: seq<string>,
    addressLine1: string,
    addressLine2: Option<string>,
    addressLine3: Option<string>,
    locality: Option<string>,
    administrativeArea: Option<string>,
    postalCode: string,
    country: string,
    shareInformation: bool,
    status: ApplicationStatus,
    flagged: bool,
    notes: string,
    createdAt: Timestamp,
    updatedAt: Timestamp)
  {
    /** The application's row key; the same key as the draft it came from. */
    function KeyOf(): Key {
      Key(event, participantId)
    }
  }

  // The database names: `application_status` is stored lower-case, the other three
  // enums in kebab-case.

  function StatusName(s: ApplicationStatus): (name: string)
  {
    match s
    case Pending => "pending"
    case Waitlisted => "waitlisted"
    case Rejected => "rejected"
    case Accepted => "accepted"
  }

  /** Reads an `application_status` value; exactly four names are accepted. */
  function ParseStatus(name: string): (r: Option<ApplicationStatus>)
    ensures r.Some? <==> name in {"pending", "waitlisted", "rejected", "accepted"}
    ensures r.Some? ==> StatusName(r.value) == name
  {
    match name
    case "pending" => Some(Pending)
    case "waitlisted" => Some(Waitlisted)
    case "rejected" => Some(Rejected)
    case "accepted" => Some(Accepted)
    case _ => None
  }

  function GenderName(g: Gender): (name: string)
  {
    match g
    case Male => "male"
    case Female => "female"
    case NonBinary => "non-binary"
    case Other => "other"
  }

  function ParseGender(name: string): (r: Option<Gender>)
    ensures r.Some? <==> name in {"male", "female", "non-binary", "other"}
    ensures r.Some? ==> GenderName(r.value) == name
  {
    match name
    case "male" => Some(Male)
    case "female" => Some(Female)
    case "non-binary" => Some(NonBinary)
    case "other" => Some(Gender.Other)
    case _ => None
  }

  function RaceEthnicityName(r: RaceEthnicity): (name: string)
  {
    match r
    case AsianIndian => "asian-indian"
    case Black => "black"
    case Chinese => "chinese"
    case Filipino => "filipino"
    case Guamanian => "guamanian"
    case Hispanic => "hispanic"
    case Japanese => "japanese"
    case Korean => "korean"
    case MiddleEastern => "middle-eastern"
    case NativeAmerican => "native-american"
    case NativeHawaiian => "native-hawaiian"
    case Samoan => "samoan"
    case Vietnamese => "vietnamese"
    case White => "white"
    case OtherAsian => "other-asian"
    case OtherPacificIslander => "other-pacific-islander"
    case Other => "other"
  }

  function ParseRaceEthnicity(name: string): (r: Option<RaceEthnicity>)
    ensures r.Some? ==> RaceEthnicityName(r.value) == name
  {
    match name
    case "asian-indian" => Some(AsianIndian)
    case "black" => Some(Black)
    case "chinese" => Some(Chinese)
    case "filipino" => Some(Filipino)
    case "guamanian" => Some(Guamanian)
    case "hispanic" => Some(Hispanic)
    case "japanese" => Some(Japanese)
    case "korean" => Some(Korean)
    case "middle-eastern" => Some(MiddleEastern)
    case "native-american" => Some(NativeAmerican)
    case "native-hawaiian" => Some(NativeHawaiian)
    case "samoan" => Some(Samoan)
    case "vietnamese" => Some(Vietnamese)
    case "white" => Some(White)
    case "other-asian" => Some(OtherAsian)
    case "other-pacific-islander" => Some(OtherPacificIslander)
    case "other" => Some(RaceEthnicity.Other)
    case _ => None
  }

  function EducationName(e: Education): (name: string)
  {
    match e
    case BelowSecondary => "below-secondary"
    case Secondary => "secondary"
    case UndergraduateTwoYear => "undergraduate-two-year"
    case UndergraduateThreeYearPlus => "undergraduate-three-year-plus"
    case Graduate => "graduate"
    case Bootcamp => "bootcamp"
    case Vocational => "vocational"
    case Other => "other"
    case NonStudent => "non-student"
  }

  function ParseEducation(name: string): (r: Option<Education>)
    ensures r.Some? ==> EducationName(r.value) == name
  {
    match name
    case "below-secondary" => Some(BelowSecondary)
    case "secondary" => Some(Secondary)
    case "undergraduate-two-year" => Some(UndergraduateTwoYear)
    case "undergraduate-three-year-plus" => Some(UndergraduateThreeYearPlus)
    case "graduate" => Some(Graduate)
    case "bootcamp" => Some(Bootcamp)
    case "vocational" => Some(Vocational)
    case "other" => Some(Education.Other)
    case "non-student" => Some(NonStudent)
    case _ => None
  }

  /** Every status is read back as itself from the name it is stored under. */
  lemma StatusRoundTrip(s: ApplicationStatus)
    ensures ParseStatus(StatusName(s)) == Some(s)
  {
  }

  lemma GenderRoundTrip(g: Gender)
    ensures ParseGender(GenderName(g)) == Some(g)
  {
  }

  lemma RaceEthnicityRoundTrip(r: RaceEthnicity)
    ensures ParseRaceEthnicity(RaceEthnicityName(r)) == Some(r)
  {
  }

  lemma EducationRoundTrip(e: Education)
    ensures ParseEducation(EducationName(e)) == Some(e)
  {
  }
}
