/** The `saveApplication` mutation of graphql/src/mutation/draft_application.rs: a
    tri-state patch applied field by field to the caller's draft, which is then saved. */
module DraftApplicationMutation {
  import opened Wrappers
  import opened Types
  import opened Applications
  import opened DraftApplications
  import opened ApplicationStore
  import opened Mutation

  /** A patch entry: the field was left out of the input (`Undefined`), given as null
      (`Null`), or given a value. */
  datatype MaybeUndefined<T> = Undefined | Null | Value(value: T)

  /** `set_option!`: a value sets the field, null clears it, an omitted field keeps what
      it had. */
  function SetOption<T>(p: MaybeUndefined<T>, current: Option<T>): (r: Option<T>)
    ensures p.Value? ==> r == Some(p.value)
    ensures p.Null? ==> r == None
    ensures p.Undefined? ==> r == current
  {
    match p
    case Value(v) => Some(v)
    case Null => None
    case Undefined => current
  }

  /** Setting a field with the same entry a second time changes nothing more. */
  lemma SetOptionIdempotent<T>(p: MaybeUndefined<T>, current: Option<T>)
    ensures SetOption(p, SetOption(p, current)) == SetOption(p, current)
  {
  }

  /** `SaveApplicationInput`. Sharing information is two-state: it can be set but not
      cleared. */
  datatype SaveApplicationInput = SaveApplicationInput(
    gender: MaybeUndefined<Gender>,
    raceEthnicity: MaybeUndefined<RaceEthnicity>,
    dateOfBirth: MaybeUndefined<NaiveDate>,
    education: MaybeUndefined<Education>,
    graduationYear: MaybeUndefined<i32>,
    major: MaybeUndefined<string>,
    hackathonsAttended: MaybeUndefined<i32>,
    links: MaybeUndefined<seq<string>>,
    addressLine1: MaybeUndefined<string>,
    addressLine2: MaybeUndefined<string>,
    addressLine3: MaybeUndefined<string>,
    locality: MaybeUndefined<string>,
    administrativeArea: MaybeUndefined<string>,
    postalCode: MaybeUndefined<string>,
    country: MaybeUndefined<string>,
    shareInformation: Option<bool>)

  /** The input that mentions no field. */
  const NoChanges := SaveApplicationInput(
    Undefined, Undefined, Undefined, Undefined, Undefined, Undefined, Undefined, Undefined,
    Undefined, Undefined, Undefined, Undefined, Undefined, Undefined, Undefined, None)

  /** The input clears a field that an application requires. */
  predicate ClearsRequired(p: SaveApplicationInput) {
    || p.gender.Null? || p.raceEthnicity.Null? || p.dateOfBirth.Null?
    || p.education.Null? || p.graduationYear.Null?
    || p.hackathonsAttended.Null? || p.links.Null?
    || p.addressLine1.Null? || p.postalCode.Null? || p.country.Null?
  }

  /** The draft content once every entry of the input has been applied. An input that
      mentions nothing changes nothing; sharing information, once set, stays set; clearing a
      required field leaves the draft incomplete, and a complete draft stays complete under
      any input that clears none. */
  function ApplyPatch(c: DraftContent, p: SaveApplicationInput): (r: DraftContent)
    ensures p == NoChanges ==> r == c
    ensures c.shareInformation.Some? ==> r.shareInformation.Some?
    ensures ClearsRequired(p) ==> !Complete(r)
    ensures Complete(c) && !ClearsRequired(p) ==> Complete(r)
  {
    DraftContent(
      SetOption(p.gender, c.gender),
      SetOption(p.raceEthnicity, c.raceEthnicity),
      SetOption(p.dateOfBirth, c.dateOfBirth),
      SetOption(p.education, c.education),
      SetOption(p.graduationYear, c.graduationYear),
      SetOption(p.major, c.major),
      SetOption(p.hackathonsAttended, c.hackathonsAttended),
      SetOption(p.links, c.links),
      SetOption(p.addressLine1, c.addressLine1),
      SetOption(p.addressLine2, c.addressLine2),
      SetOption(p.addressLine3, c.addressLine3),
      SetOption(p.locality, c.locality),
      SetOption(p.administrativeArea, c.administrativeArea),
      SetOption(p.postalCode, c.postalCode),
      SetOption(p.country, c.country),
      if p.shareInformation.Some? then Some(p.shareInformation.value) else c.shareInformation)
  }

  /** An input that mentions no field leaves the draft as it was. */
  lemma NoChangesIsIdentity(c: DraftContent)
    ensures ApplyPatch(c, NoChanges) == c
  {
  }

  /** Applying the same input twice gives the same draft as applying it once. */
  lemma PatchIdempotent(c: DraftContent, p: SaveApplicationInput)
    ensures ApplyPatch(ApplyPatch(c, p), p) == ApplyPatch(c, p)
  {
  }

  /** Sharing information is never cleared by a patch: an omitted entry keeps the stored
      value and a given one overwrites it. */
  lemma ShareInformationNeverCleared(c: DraftContent, p: SaveApplicationInput)
    ensures p.shareInformation.None? ==> ApplyPatch(c, p).shareInformation == c.shareInformation
    ensures p.shareInformation.Some? ==> ApplyPatch(c, p).shareInformation == Some(p.shareInformation.value)
    ensures c.shareInformation.Some? ==> ApplyPatch(c, p).shareInformation.Some?
  {
  }

  /** One entry that does what `first` and then `second` do. */
  function Then<T>(first: MaybeUndefined<T>, second: MaybeUndefined<T>): MaybeUndefined<T> {
    if second.Undefined? then first else second
  }

  /** One input that does what `first` and then `second` do: per field, the later entry
      that mentions it wins. */
  function Compose(first: SaveApplicationInput, second: SaveApplicationInput): SaveApplicationInput {
    SaveApplicationInput(
      Then(first.gender, second.gender),
      Then(first.raceEthnicity, second.raceEthnicity),
      Then(first.dateOfBirth, second.dateOfBirth),
      Then(first.education, second.education),
      Then(first.graduationYear, second.graduationYear),
      Then(first.major, second.major),
      Then(first.hackathonsAttended, second.hackathonsAttended),
      Then(first.links, second.links),
      Then(first.addressLine1, second.addressLine1),
      Then(first.addressLine2, second.addressLine2),
      Then(first.addressLine3, second.addressLine3),
      Then(first.locality, second.locality),
      Then(first.administrativeArea, second.administrativeArea),
      Then(first.postalCode, second.postalCode),
      Then(first.country, second.country),
      if second.shareInformation.Some? then second.shareInformation else first.shareInformation)
  }

  /** Two saves in a row are one save of the composed input. */
  lemma PatchCompose(c: DraftContent, first: SaveApplicationInput, second: SaveApplicationInput)
    ensures ApplyPatch(ApplyPatch(c, first), second) == ApplyPatch(c, Compose(first, second))
  {
  }

  /** The draft after several sessions have each saved one input, in order. */
  function ApplyAll(c: DraftContent, inputs: seq<SaveApplicationInput>): DraftContent
    decreases |inputs|
  {
    if inputs == [] then c else ApplyAll(ApplyPatch(c, inputs[0]), inputs[1..])
  }

  /** The single input equivalent to a sequence of inputs. */
  function ComposeAll(inputs: seq<SaveApplicationInput>): SaveApplicationInput
    decreases |inputs|
  {
    if inputs == [] then NoChanges else Compose(inputs[0], ComposeAll(inputs[1..]))
  }

  /** Saves that follow one another, each finished before the next starts, lose nothing:
      together they are one save of the composed input, in which each field takes the last
      entry that mentions it. */
  lemma {:induction false} SessionsCompose(c: DraftContent, inputs: seq<SaveApplicationInput>)
    ensures ApplyAll(c, inputs) == ApplyPatch(c, ComposeAll(inputs))
    decreases |inputs|
  {
    if inputs == [] {
      NoChangesIsIdentity(c);
    } else {
      SessionsCompose(ApplyPatch(c, inputs[0]), inputs[1..]);
      PatchCompose(c, inputs[0], ComposeAll(inputs[1..]));
    }
  }

  /** The major, for one: a major of "CS" stays "CS" while later saves fill in the
      address. */
  lemma UnmentionedMajorSurvives(c: DraftContent, inputs: seq<SaveApplicationInput>)
    requires forall i | 0 <= i < |inputs| :: inputs[i].major.Undefined?
    ensures ApplyAll(c, inputs).major == c.major
  {
    UnmentionedFieldSurvives(c, inputs, MajorField);
  }

  /** The sixteen substantive fields of a draft, by name. */
  datatype Field =
    GenderField | RaceEthnicityField | DateOfBirthField | EducationField |
    GraduationYearField | MajorField | HackathonsAttendedField | LinksField |
    AddressLine1Field | AddressLine2Field | AddressLine3Field | LocalityField |
    AdministrativeAreaField | PostalCodeField | CountryField | ShareInformationField

  /** The input has an entry for the field: a value or null; for sharing information, a
      `Some`. */
  predicate Mentions(p: SaveApplicationInput, f: Field) {
    match f
    case GenderField => !p.gender.Undefined?
    case RaceEthnicityField => !p.raceEthnicity.Undefined?
    case DateOfBirthField => !p.dateOfBirth.Undefined?
    case EducationField => !p.education.Undefined?
    case GraduationYearField => !p.graduationYear.Undefined?
    case MajorField => !p.major.Undefined?
    case HackathonsAttendedField => !p.hackathonsAttended.Undefined?
    case LinksField => !p.links.Undefined?
    case AddressLine1Field => !p.addressLine1.Undefined?
    case AddressLine2Field => !p.addressLine2.Undefined?
    case AddressLine3Field => !p.addressLine3.Undefined?
    case LocalityField => !p.locality.Undefined?
    case AdministrativeAreaField => !p.administrativeArea.Undefined?
    case PostalCodeField => !p.postalCode.Undefined?
    case CountryField => !p.country.Undefined?
    case ShareInformationField => p.shareInformation.Some?
  }

  /** The two contents hold the same value in the field. */
  predicate SameField(a: DraftContent, b: DraftContent, f: Field) {
    match f
    case GenderField => a.gender == b.gender
    case RaceEthnicityField => a.raceEthnicity == b.raceEthnicity
    case DateOfBirthField => a.dateOfBirth == b.dateOfBirth
    case EducationField => a.education == b.education
    case GraduationYearField => a.graduationYear == b.graduationYear
    case MajorField => a.major == b.major
    case HackathonsAttendedField => a.hackathonsAttended == b.hackathonsAttended
    case LinksField => a.links == b.links
    case AddressLine1Field => a.addressLine1 == b.addressLine1
    case AddressLine2Field => a.addressLine2 == b.addressLine2
    case AddressLine3Field => a.addressLine3 == b.addressLine3
    case LocalityField => a.locality == b.locality
    case AdministrativeAreaField => a.administrativeArea == b.administrativeArea
    case PostalCodeField => a.postalCode == b.postalCode
    case CountryField => a.country == b.country
    case ShareInformationField => a.shareInformation == b.shareInformation
  }

  /** A field the input does not mention keeps its stored value. */
  lemma UnmentionedFieldKept(c: DraftContent, p: SaveApplicationInput, f: Field)
    requires !Mentions(p, f)
    ensures SameField(ApplyPatch(c, p), c, f)
  {
  }

  /** The composition of inputs that all leave a field out leaves it out too. */
  lemma {:induction false} ComposeAllUnmentioned(inputs: seq<SaveApplicationInput>, f: Field)
    requires forall i | 0 <= i < |inputs| :: !Mentions(inputs[i], f)
    ensures !Mentions(ComposeAll(inputs), f)
    decreases |inputs|
  {
    if inputs != [] {
      ComposeAllUnmentioned(inputs[1..], f);
    }
  }

  /** Any field that no session mentions keeps its stored value, however many sessions
      save. */
  lemma {:induction false} UnmentionedFieldSurvives(
    c: DraftContent, inputs: seq<SaveApplicationInput>, f: Field)
    requires forall i | 0 <= i < |inputs| :: !Mentions(inputs[i], f)
    ensures SameField(ApplyAll(c, inputs), c, f)
  {
    SessionsCompose(c, inputs);
    ComposeAllUnmentioned(inputs, f);
    UnmentionedFieldKept(c, ComposeAll(inputs), f);
  }

  /** The draft the mutation saves and returns for the key: the stored draft, or a new
      one when there is none, with the input applied. Its timestamps are the stored
      ones, or `now`, which is also what the database stamps a new row with. */
  function PatchedDraft(rows: map<Key, DraftApplication>, k: Key, p: SaveApplicationInput, now: Timestamp)
    : (d: DraftApplication)
    ensures DraftKeysConsistent(rows) ==> d.KeyOf() == k
    ensures k in rows ==> d.content == ApplyPatch(rows[k].content, p)
    ensures k !in rows ==> d.content == ApplyPatch(New(k.event, k.participantId, now).content, p)
    ensures DraftKeysConsistent(rows) ==> Upsert(rows, d, now)[k] == d
  {
    var base := if k in rows then rows[k] else New(k.event, k.participantId, now);
    base.(content := ApplyPatch(base.content, p))
  }

  const AlreadySubmitted := UserError(["saveApplication"], "application already submitted")

  /** Two saves that overlap, both reading the row before either writes it: each
      rewrites every column from the copy it read, so the row ends as the second save
      left its copy, and whatever only the first save set is lost. */
  lemma OverlappingSavesKeepLast(
    rows: map<Key, DraftApplication>, k: Key, first: SaveApplicationInput,
    second: SaveApplicationInput, now: Timestamp)
    requires DraftKeysConsistent(rows)
    ensures
      var a := PatchedDraft(rows, k, first, now);
      var b := PatchedDraft(rows, k, second, now);
      Upsert(Upsert(rows, a, now), b, now)[k] == b
  {
  }

  /** `Mutation::save_application`. `now` is the time the environment supplies both to a
      new draft and to the database default of a new row. */
  method SaveApplication(
    ctx: Context, input: SaveApplicationInput, now: Timestamp,
    apps: ApplicationTable, drafts: DraftTable)
    returns (response: Response<DraftApplication>)
    requires apps.Valid() && drafts.Valid()
    modifies drafts
    ensures drafts.Valid()
    ensures ParticipantScope(ctx).Err? ==>
              response == Failed(ParticipantScope(ctx).error) && drafts.rows == old(drafts.rows)
    ensures ParticipantScope(ctx).Ok? && ParticipantScope(ctx).value in apps.rows ==>
              response == Resolved(FromUserError(AlreadySubmitted)) && drafts.rows == old(drafts.rows)
    ensures ParticipantScope(ctx).Ok? && ParticipantScope(ctx).value !in apps.rows ==>
              var k := ParticipantScope(ctx).value;
              var d := PatchedDraft(old(drafts.rows), k, input, now);
              && response == Resolved(FromValue(d))
              && drafts.rows == Upsert(old(drafts.rows), d, now)
              && drafts.rows[k] == d
  {
    var scope := ParticipantScope(ctx);
    if scope.Err? {
      return Failed(scope.error);
    }
    var event, id := scope.value.event, scope.value.participantId;

    if apps.Exists(event, id) {
      return Resolved(FromUserError(AlreadySubmitted));
    }

    var found := drafts.Find(event, id);
    var draft := if found.Some? then found.value else New(event, id, now);

    draft := draft.(content := draft.content.(gender := SetOption(input.gender, draft.content.gender)));
    draft := draft.(content := draft.content.(raceEthnicity := SetOption(input.raceEthnicity, draft.content.raceEthnicity)));
    draft := draft.(content := draft.content.(dateOfBirth := SetOption(input.dateOfBirth, draft.content.dateOfBirth)));
    draft := draft.(content := draft.content.(education := SetOption(input.education, draft.content.education)));
    draft := draft.(content := draft.content.(graduationYear := SetOption(input.graduationYear, draft.content.graduationYear)));
    draft := draft.(content := draft.content.(major := SetOption(input.major, draft.content.major)));
    draft := draft.(content := draft.content.(hackathonsAttended := SetOption(input.hackathonsAttended, draft.content.hackathonsAttended)));
    draft := draft.(content := draft.content.(links := SetOption(input.links, draft.content.links)));
    draft := draft.(content := draft.content.(addressLine1 := SetOption(input.addressLine1, draft.content.addressLine1)));
    draft := draft.(content := draft.content.(addressLine2 := SetOption(input.addressLine2, draft.content.addressLine2)));
    draft := draft.(content := draft.content.(addressLine3 := SetOption(input.addressLine3, draft.content.addressLine3)));
    draft := draft.(content := draft.content.(locality := SetOption(input.locality, draft.content.locality)));
    draft := draft.(content := draft.content.(administrativeArea := SetOption(input.administrativeArea, draft.content.administrativeArea)));
    draft := draft.(content := draft.content.(postalCode := SetOption(input.postalCode, draft.content.postalCode)));
    draft := draft.(content := draft.content.(country := SetOption(input.country, draft.content.country)));
    if input.shareInformation.Some? {
      draft := draft.(content := draft.content.(shareInformation := Some(input.shareInformation.value)));
    }

    drafts.Save(draft, now);
    response := Resolved(FromValue(draft));
  }
}
