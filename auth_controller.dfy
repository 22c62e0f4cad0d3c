/**
 * The HTTP surface of the service: which status a success gets and how each
 * handler turns what the service threw into what the client receives.
 */
module Controller {
  import opened Wrappers
  import opened Jwt
  import opened Auth

  const CredentialsIncorrect := "Credentials incorrect"
  const SomethingWentWrong := "Something went wrong. Please try again later"

  const StatusOk: nat := 200
  const StatusCreated: nat := 201
  const StatusForbidden: nat := 403
  const StatusInternalServerError: nat := 500

  /**
   * How a call into the service ended: it returned a promise, which settles with a
   * value or a rejection, or it threw before returning. The service's operations are
   * `async`, so calls into them always return.
   */
  datatype Call<T> = Returned(outcome: Result<T, Error>) | Threw(thrown: Error)

  /** What a handler produces: a body with its status code, or a thrown error. */
  datatype Reply<T> = Reply(status: nat, body: T) | Raised(error: Error)

  predicate IsUniqueViolation(e: Error) {
    e.PrismaKnownRequest? && e.code == UniqueViolation
  }

  /** The catch block of both local handlers. */
  function MapError(e: Error): (m: Error)
    ensures IsUniqueViolation(e) ==> m == Forbidden(CredentialsIncorrect)
    ensures !IsUniqueViolation(e) ==> m == InternalServerError(SomethingWentWrong)
  {
    if IsUniqueViolation(e) then Forbidden(CredentialsIncorrect) else InternalServerError(SomethingWentWrong)
  }

  /** The status the framework answers with for a thrown error; anything that is not an HTTP exception is a 500. */
  function StatusOf(e: Error): (s: nat)
    ensures s == StatusForbidden <==> e.Forbidden?
    ensures s == StatusInternalServerError <==> !e.Forbidden?
  {
    match e
    case Forbidden(_) => StatusForbidden
    case _ => StatusInternalServerError
  }

  /**
   * signUpLocal: `return await` inside `try`, so a rejection and a synchronous throw
   * both reach the catch. Success answers 201 with the service's tokens unchanged; an
   * error is always an HTTP exception, Forbidden("Credentials incorrect") exactly for
   * a unique-constraint violation and the generic 500 otherwise.
   */
  function SignUpReply(call: Call<Tokens>): (r: Reply<Tokens>)
    ensures call.Returned? && call.outcome.Success? <==> r.Reply?
    ensures r.Reply? ==> r == Reply(StatusCreated, call.outcome.value)
    ensures r.Raised? ==>
      var e := if call.Returned? then call.outcome.error else call.thrown;
      (IsUniqueViolation(e) ==> r.error == Forbidden(CredentialsIncorrect) && StatusOf(r.error) == StatusForbidden) &&
      (!IsUniqueViolation(e) ==> r.error == InternalServerError(SomethingWentWrong) && StatusOf(r.error) == StatusInternalServerError)
  {
    match call
    case Returned(Success(tokens)) => Reply(StatusCreated, tokens)
    case Returned(Failure(e)) => Raised(MapError(e))
    case Threw(e) => Raised(MapError(e))
  }

  /**
   * signInLocal: `return` without `await` inside `try`, so only a synchronous throw
   * reaches the catch. Calls into the `async` service always return a promise, whose
   * outcome the handler answers exactly as plain delegation does: 200 with the
   * tokens, or the rejection unmapped.
   */
  function SignInReply(call: Call<Tokens>): (r: Reply<Tokens>)
    ensures call.Returned? ==> r == DelegateReply(call.outcome)
    ensures call.Threw? ==> r == Raised(MapError(call.thrown))
  {
    match call
    case Returned(Success(tokens)) => Reply(StatusOk, tokens)
    case Returned(Failure(e)) => Raised(e)
    case Threw(e) => Raised(MapError(e))
  }

  /** logout and refreshTokens: the service's promise is returned as it is. */
  function DelegateReply<T>(outcome: Result<T, Error>): (r: Reply<T>)
    ensures outcome.Success? <==> r.Reply?
    ensures outcome.Success? ==> r.status == StatusOk && r.body == outcome.value
    ensures outcome.Failure? ==> r.error == outcome.error
  {
    match outcome
    case Success(v) => Reply(StatusOk, v)
    case Failure(e) => Raised(e)
  }

  /**
   * Where the two local handlers differ on a rejected service promise. Sign-in lets
   * every error through as it is, so a Forbidden keeps its 403 (invalid credentials
   * answer 403) and any other error answers 500 with its own message. Sign-up maps a
   * Forbidden and every error other than a unique-constraint violation to the
   * generic 500.
   */
  lemma SignInVersusSignUpErrors(e: Error)
    ensures SignInReply(Returned(Failure(e))) == Raised(e)
    ensures StatusOf(e) == (if e.Forbidden? then StatusForbidden else StatusInternalServerError)
    ensures !IsUniqueViolation(e) ==>
      SignUpReply(Returned(Failure(e))) == Raised(InternalServerError(SomethingWentWrong))
    ensures StatusOf(Forbidden(InvalidCredentials)) == StatusForbidden
  {
  }

  /** The controller: each handler passes its arguments to the service and shapes the reply. */
  class AuthController {
    const authService: AuthService

    constructor (authService: AuthService)
      ensures this.authService == authService
    {
      this.authService := authService;
    }

    /** POST auth/local/signup, public, 201. */
    method SignUpLocal(dto: AuthDto, now: nat) returns (reply: Reply<Tokens>)
      requires authService.Valid()
      modifies authService
      ensures authService.Valid()
      ensures reply.Reply? <==> !EmailTaken(old(authService.users), dto.email)
      ensures reply.Reply? ==>
        reply.status == StatusCreated &&
        reply.body == authService.Issued(old(authService.nextId), dto.email, now) &&
        SignedUp(old(authService.users), authService.users, old(authService.nextId), dto.email, dto.password, reply.body.refreshToken)
      ensures reply.Raised? ==>
        reply.error == Forbidden(CredentialsIncorrect) && authService.users == old(authService.users)
    {
      var outcome := authService.SignUpLocal(dto, now);
      reply := SignUpReply(Returned(outcome));
    }

    /** POST auth/local/signin, public, 200. */
    method SignInLocal(dto: AuthDto, now: nat) returns (reply: Reply<Tokens>)
      requires authService.Valid()
      modifies authService`users
      ensures authService.Valid()
      ensures reply.Reply? <==> CredentialsMatch(old(authService.users), dto.email, dto.password)
      ensures reply.Reply? ==>
        var id := OwnerOf(old(authService.users), dto.email);
        reply.status == StatusOk &&
        reply.body == authService.Issued(id, dto.email, now) &&
        RtRotated(old(authService.users), authService.users, id, reply.body.refreshToken)
      ensures reply.Raised? ==>
        reply.error == Forbidden(InvalidCredentials) && authService.users == old(authService.users)
    {
      var outcome := authService.SignInLocal(dto, now);
      reply := SignInReply(Returned(outcome));
    }

    /** POST auth/logout, access-token guarded, 200; `userId` is the authenticated user's. */
    method Logout(userId: UserId) returns (reply: Reply<()>)
      requires authService.Valid()
      modifies authService`users
      ensures authService.Valid()
      ensures reply == Reply(StatusOk, ())
      ensures authService.users == LoggedOut(old(authService.users), userId)
    {
      authService.Logout(userId);
      reply := DelegateReply(Success(()));
    }

    /** POST auth/refresh, refresh-token guarded, 200; `userId` and `refreshToken` come from the request's user. */
    method RefreshTokens(userId: UserId, refreshToken: Token, now: nat) returns (reply: Reply<Tokens>)
      requires authService.Valid()
      modifies authService`users
      ensures authService.Valid()
      ensures reply.Reply? <==> RefreshAccepted(old(authService.users), userId, refreshToken)
      ensures reply.Reply? ==>
        reply.status == StatusOk &&
        reply.body == authService.Issued(userId, old(authService.users)[userId].email, now) &&
        RtRotated(old(authService.users), authService.users, userId, reply.body.refreshToken)
      ensures reply.Raised? ==>
        reply.error == Forbidden(AccessDenied) && authService.users == old(authService.users)
    {
      var outcome := authService.RefreshTokens(userId, refreshToken, now);
      reply := DelegateReply(outcome);
    }
  }
}
