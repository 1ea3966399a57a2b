/** The user-error envelope of graphql/src/mutation/mod.rs, and the caller context the
    mutations consume. */
module Mutation {
  import opened Wrappers
  import opened Types

  /** An error in a mutation's input: the path to the offending input field and a message. */
  datatype UserError = UserError(field: seq<string>, message: string)

  /** `UserError::new`. */
  function NewUserError(field: seq<string>, message: string): (e: UserError)
    ensures e.field == field && e.message == message
  {
    UserError(field, message)
  }

  /** The result object `results!` generates for each mutation: an optional payload and
      the user errors that occurred. */
  datatype MutationResult<T> = MutationResult(payload: Option<T>, userErrors: seq<UserError>)

  /** A result that carries a payload and no errors. */
  predicate Succeeded<T>(r: MutationResult<T>) {
    r.payload.Some? && r.userErrors == []
  }

  /** A result that carries errors and no payload. */
  predicate Refused<T>(r: MutationResult<T>) {
    r.payload.None? && r.userErrors != []
  }

  /** `From<T>`: the value becomes the payload. */
  function FromValue<T>(value: T): (r: MutationResult<T>)
    ensures Succeeded(r) && r.payload.value == value
  {
    MutationResult(Some(value), [])
  }

  /** `From<UserError>`: no payload and exactly that error. */
  function FromUserError<T>(e: UserError): (r: MutationResult<T>)
    ensures Refused(r) && r.userErrors == [e]
  {
    MutationResult(None, [e])
  }

  /** `From<Vec<UserError>>`: no payload and exactly those errors, in order. */
  function FromUserErrors<T>(es: seq<UserError>): (r: MutationResult<T>)
    ensures r.payload.None? && r.userErrors == es
    ensures es != [] ==> Refused(r)
  {
    MutationResult(None, es)
  }

  /** No conversion yields a result that both succeeded and was refused. */
  lemma ConversionsExclusive<T>(v: T, e: UserError, es: seq<UserError>)
    ensures !Refused(FromValue(v))
    ensures !Succeeded(FromUserError<T>(e)) && !Succeeded(FromUserErrors<T>(es))
  {
  }

  /** A GraphQL-level failure: the mutation returns `Err` instead of a result object. The
      first three stand for the refusals of the authentication and authorisation checks,
      which this model takes as inputs; `InternalServerError` is what an unexpected
      store failure becomes. */
  datatype ApiError = Unauthenticated | NoEventScope | Forbidden | InternalServerError

  /** What a mutation returns: a result object, or a GraphQL error. */
  datatype Response<T> = Resolved(result: MutationResult<T>) | Failed(error: ApiError)

  /** The caller's role. Roles are ordered by rank for "at least" checks. */
  datatype UserRole = Participant | Sponsor | Organizer | Director

  function Rank(r: UserRole): nat {
    match r
    case Participant => 0
    case Sponsor => 1
    case Organizer => 2
    case Director => 3
  }

  /** The authenticated caller: an id and, within the event, possibly a role. */
  datatype User = User(id: i32, role: Option<UserRole>)

  /** What the request context supplies: the caller, if authenticated, and the event
      slug, if the request is scoped to an event. */
  datatype Context = Context(user: Option<User>, event: Option<string>)

  /** The caller holds exactly `role`. */
  predicate HasRole(user: User, role: UserRole) {
    user.role == Some(role)
  }

  /** The caller holds `role` or one ranked above it. */
  predicate HasAtLeastRole(user: User, role: UserRole) {
    user.role.Some? && Rank(user.role.value) >= Rank(role)
  }

  /** The checks that open the two participant mutations: authenticated, then scoped to an
      event, then a Participant. On success, the caller's own key. */
  function ParticipantScope(ctx: Context): (r: Result<Key, ApiError>)
    ensures r.Ok? <==> ctx.user.Some? && ctx.event.Some? && HasRole(ctx.user.value, Participant)
    ensures r.Ok? ==> r.value == Key(ctx.event.value, ctx.user.value.id)
    ensures ctx.user.None? ==> r == Err(Unauthenticated)
    ensures ctx.user.Some? && ctx.event.None? ==> r == Err(NoEventScope)
    ensures ctx.user.Some? && ctx.event.Some? && !HasRole(ctx.user.value, Participant) ==> r == Err(Forbidden)
  {
    if ctx.user.None? then Err(Unauthenticated)
    else if ctx.event.None? then Err(NoEventScope)
    else if ctx.user.value.role != Some(Participant) then Err(Forbidden)
    else Ok(Key(ctx.event.value, ctx.user.value.id))
  }
}
