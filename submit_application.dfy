/** The `submitApplication` mutation of graphql/src/mutation/application.rs: three store
    calls in sequence, with no transaction around them. */
module ApplicationMutation {
  import opened Wrappers
  import opened Types
  import opened Applications
  import opened DraftApplications
  import opened ApplicationStore
  import opened Mutation

  const AlreadySubmitted := UserError(["submitApplication"], "application already submitted")
  const Incomplete := UserError(["submitApplication"], "application is incomplete")
  const NoDraft := UserError(["submitApplication"], "could not find a draft application")

  /** How a failed `from_draft` reaches the caller: a not-null violation (a required field
      left empty) and a missing draft are user errors; anything else is an internal
      error. */
  function FromDraftFailure(e: DbError): (r: Response<Application>)
    ensures e == NotNull <==> r == Resolved(FromUserError(Incomplete))
    ensures e == RowNotFound <==> r == Resolved(FromUserError(NoDraft))
    ensures r.Failed? <==> e != NotNull && e != RowNotFound
    ensures r.Failed? ==> r.error == InternalServerError
  {
    match e
    case NotNull => Resolved(FromUserError(Incomplete))
    case RowNotFound => Resolved(FromUserError(NoDraft))
    case _ => Failed(InternalServerError)
  }

  /** `Mutation::submit_application`: refuses a second submission, promotes the draft,
      then deletes it. Nothing is written when a step refuses. */
  method SubmitApplication(ctx: Context, now: Timestamp, apps: ApplicationTable, drafts: DraftTable)
    returns (response: Response<Application>)
    requires apps.Valid() && drafts.Valid()
    modifies apps, drafts
    ensures apps.Valid() && drafts.Valid()
    ensures ParticipantScope(ctx).Err? ==>
              && response == Failed(ParticipantScope(ctx).error)
              && apps.rows == old(apps.rows) && drafts.rows == old(drafts.rows)
    ensures ParticipantScope(ctx).Ok? && ParticipantScope(ctx).value in old(apps.rows) ==>
              && response == Resolved(FromUserError(AlreadySubmitted))
              && apps.rows == old(apps.rows) && drafts.rows == old(drafts.rows)
    ensures ParticipantScope(ctx).Ok? && ParticipantScope(ctx).value !in old(apps.rows) ==>
              var k := ParticipantScope(ctx).value;
              var created := FromDraftResult(old(apps.rows), old(drafts.rows), k, now);
              && (created.Err? ==>
                    && response == FromDraftFailure(created.error)
                    && apps.rows == old(apps.rows) && drafts.rows == old(drafts.rows))
              && (created.Ok? ==>
                    && response == Resolved(FromValue(created.value))
                    && apps.rows == old(apps.rows)[k := created.value]
                    && drafts.rows == old(drafts.rows) - {k})
  {
    var scope := ParticipantScope(ctx);
    if scope.Err? {
      return Failed(scope.error);
    }
    var event, id := scope.value.event, scope.value.participantId;

    if apps.Exists(event, id) {
      return Resolved(FromUserError(AlreadySubmitted));
    }

    var created := apps.FromDraft(drafts, event, id, now);
    if created.Err? {
      return FromDraftFailure(created.error);
    }

    drafts.Delete(event, id);
    response := Resolved(FromValue(created.value));
  }

  /** A successful submission is stored under the caller's key, is pending, and leaves no
      draft behind; submitting again is refused and changes neither table. */
  method SubmitTwice(ctx: Context, now: Timestamp, later: Timestamp, apps: ApplicationTable, drafts: DraftTable)
    returns (first: Response<Application>, second: Response<Application>)
    requires apps.Valid() && drafts.Valid()
    requires ParticipantScope(ctx).Ok?
    modifies apps, drafts
    ensures first.Resolved? && Succeeded(first.result) ==>
              var k := ParticipantScope(ctx).value;
              && first.result.payload.value.status == Pending
              && first.result.payload.value.KeyOf() == k
              && k in apps.rows && apps.rows[k] == first.result.payload.value
              && !drafts.Exists(k.event, k.participantId)
    ensures first.Resolved? && Succeeded(first.result) ==>
              second == Resolved(FromUserError(AlreadySubmitted))
  {
    first := SubmitApplication(ctx, now, apps, drafts);
    ghost var k := ParticipantScope(ctx).value;
    ghost var appsAfterFirst, draftsAfterFirst := apps.rows, drafts.rows;
    second := SubmitApplication(ctx, later, apps, drafts);
    if first.Resolved? && Succeeded(first.result) {
      assert apps.rows == appsAfterFirst && drafts.rows == draftsAfterFirst;
    }
  }
}
