/** The `checkIn` mutation of graphql/src/mutation/check_in.rs: whom to check in, whether
    the caller may, and the accepted-application gate. */
module CheckInMutation {
  import opened Wrappers
  import opened Types
  import opened Applications
  import opened ApplicationStore
  import opened CheckIns
  import opened Mutation

  const NotAccepted := UserError(["id"], "only participants with accepted applications can check in")

  /** The participant to check in, and the role that requires: a participant checks
      themself in (no id, or their own id); checking in anyone else needs at least the
      Organizer role. */
  function ResolveTarget(user: User, id: Option<i32>): (r: Result<i32, ApiError>)
    ensures id.None? ==> (r.Ok? <==> HasRole(user, Participant)) && (r.Ok? ==> r.value == user.id)
    ensures id.Some? && id.value == user.id ==> (r.Ok? <==> HasRole(user, Participant))
    ensures id.Some? && id.value != user.id ==> (r.Ok? <==> HasAtLeastRole(user, Organizer))
    ensures id.Some? && r.Ok? ==> r.value == id.value
    ensures r.Err? ==> r.error == Forbidden
  {
    match id
    case Some(target) =>
      if user.id == target then
        (if HasRole(user, Participant) then Ok(target) else Err(Forbidden))
      else
        (if HasAtLeastRole(user, Organizer) then Ok(target) else Err(Forbidden))
    case None =>
      if HasRole(user, Participant) then Ok(user.id) else Err(Forbidden)
  }

  /** The key the mutation checks in, once the event scope, the caller and the role
      checks have passed, in that order. */
  function CheckInKey(ctx: Context, id: Option<i32>): (r: Result<Key, ApiError>)
    ensures ctx.event.None? ==> r == Err(NoEventScope)
    ensures ctx.event.Some? && ctx.user.None? ==> r == Err(Unauthenticated)
    ensures ctx.event.Some? && ctx.user.Some? ==>
              var target := ResolveTarget(ctx.user.value, id);
              && (target.Err? ==> r == Err(target.error))
              && (target.Ok? ==> r == Ok(Key(ctx.event.value, target.value)))
  {
    if ctx.event.None? then Err(NoEventScope)
    else if ctx.user.None? then Err(Unauthenticated)
    else
      var target := ResolveTarget(ctx.user.value, id);
      if target.Err? then Err(target.error) else Ok(Key(ctx.event.value, target.value))
  }

  /** `Mutation::check_in`. Only a target with an accepted application is marked; the
      returned time is that of the stored row, which a repeated check-in keeps. */
  method CheckIn(ctx: Context, id: Option<i32>, now: Timestamp, apps: ApplicationTable, checkIns: CheckInTable)
    returns (response: Response<Timestamp>)
    requires apps.Valid() && checkIns.Valid()
    modifies checkIns
    ensures checkIns.Valid()
    ensures CheckInKey(ctx, id).Err? ==>
              response == Failed(CheckInKey(ctx, id).error) && checkIns.rows == old(checkIns.rows)
    ensures CheckInKey(ctx, id).Ok? ==>
              var k := CheckInKey(ctx, id).value;
              && (!apps.AcceptedExists(k.event, k.participantId) ==>
                    response == Resolved(FromUserError(NotAccepted)) && checkIns.rows == old(checkIns.rows))
              && (apps.AcceptedExists(k.event, k.participantId) ==>
                    var c := Marked(old(checkIns.rows), k, now);
                    response == Resolved(FromValue(c.at)) && checkIns.rows == old(checkIns.rows)[k := c])
  {
    var key := CheckInKey(ctx, id);
    if key.Err? {
      return Failed(key.error);
    }
    var event, target := key.value.event, key.value.participantId;

    if !apps.AcceptedExists(event, target) {
      return Resolved(FromUserError(NotAccepted));
    }

    var checkIn := checkIns.Mark(event, target, now);
    response := Resolved(FromValue(checkIn.at));
  }

  /** Checking in an accepted participant twice succeeds both times, and the second call
      returns the time of the first. */
  method CheckInTwice(ctx: Context, id: Option<i32>, now: Timestamp, later: Timestamp,
                      apps: ApplicationTable, checkIns: CheckInTable)
    returns (first: Response<Timestamp>, second: Response<Timestamp>)
    requires apps.Valid() && checkIns.Valid()
    requires CheckInKey(ctx, id).Ok?
    requires apps.AcceptedExists(CheckInKey(ctx, id).value.event, CheckInKey(ctx, id).value.participantId)
    modifies checkIns
    ensures first.Resolved? && Succeeded(first.result)
    ensures second.Resolved? && Succeeded(second.result)
    ensures second.result.payload == first.result.payload
    ensures var k := CheckInKey(ctx, id).value;
            k in checkIns.rows && Some(checkIns.rows[k].at) == first.result.payload
  {
    first := CheckIn(ctx, id, now, apps, checkIns);
    second := CheckIn(ctx, id, later, apps, checkIns);
  }
}
