/**
 * The authentication service: sign-up, sign-in, logout and refresh-token rotation
 * over the user table.
 *
 * Each user is in one of two session states: no session (`hashRT` is None) or an
 * active session (`hashRT` holds the hash of the most recently issued refresh token).
 */
module Auth {
  import opened Wrappers
  import opened Argon
  import opened Jwt

  /** Identifier the store assigns to a user at creation. */
  type UserId = nat

  /** The payload the service signs into both tokens: `{ sub: userId, email }`. */
  datatype Claims = Claims(sub: UserId, email: string)

  /** One row of the user table. */
  datatype User = User(email: string, hash: Hashed, hashRT: Option<Hashed>)

  /** The request body of sign-up and sign-in. */
  datatype AuthDto = AuthDto(email: string, password: string)

  /** The token pair handed to the client: `{ access_token, refresh_token }`. */
  datatype Tokens = Tokens(accessToken: Token, refreshToken: Token)

  /** What an operation can throw. */
  datatype Error =
    | Forbidden(message: string)             // ForbiddenException, HTTP 403
    | InternalServerError(message: string)   // InternalServerErrorException, HTTP 500
    | PrismaKnownRequest(code: string)       // PrismaClientKnownRequestError with its error code
    | Unclassified                           // any other thrown value

  const InvalidCredentials := "Invalid credentials"
  const AccessDenied := "Access denied"

  /** Prisma's error code for a violated unique constraint. */
  const UniqueViolation := "P2002"

  type Store = map<UserId, User>

  // ----- The session state machine, stated on the user table -----

  /** The unique index on `email`: no two users share one. */
  ghost predicate EmailsUnique(users: Store) {
    forall a, b :: a in users && b in users && users[a].email == users[b].email ==> a == b
  }

  predicate EmailTaken(users: Store, email: string) {
    exists id :: id in users && users[id].email == email
  }

  /** The user registered with `email`; unique when EmailsUnique holds. */
  ghost function OwnerOf(users: Store, email: string): (id: UserId)
    requires EmailTaken(users, email)
    ensures id in users && users[id].email == email
  {
    var id :| id in users && users[id].email == email; id
  }

  /** Some user is registered with `email` and its password hash verifies `password`. */
  ghost predicate CredentialsMatch(users: Store, email: string, password: string) {
    exists id :: id in users && users[id].email == email && Verify(users[id].hash, password)
  }

  /** A refresh by user `id` presenting `rt` passes every check of the service. */
  predicate RefreshAccepted(users: Store, id: UserId, rt: Token) {
    id in users && users[id].hashRT.Some? && Verify(users[id].hashRT.value, rt)
  }

  /**
   * `after` is `before` with only the `hashRT` of user `id` replaced, by a hash that
   * verifies `rt`: email, password hash and every other user are untouched.
   */
  ghost predicate RtRotated(before: Store, after: Store, id: UserId, rt: Token) {
    id in before && id in after &&
    after == before[id := before[id].(hashRT := after[id].hashRT)] &&
    after[id].hashRT.Some? && Verify(after[id].hashRT.value, rt)
  }

  /**
   * `after` is `before` plus one new user `id` with the given email, a password hash
   * verifying `password` and an active session for `rt`.
   */
  ghost predicate SignedUp(before: Store, after: Store, id: UserId, email: string, password: string, rt: Token) {
    id !in before && id in after &&
    after == before[id := after[id]] &&
    after[id].email == email && Verify(after[id].hash, password) &&
    after[id].hashRT.Some? && Verify(after[id].hashRT.value, rt)
  }

  /** The table after `logout(id)`: the session is cleared if there is one. */
  function LoggedOut(users: Store, id: UserId): (after: Store)
    ensures after.Keys == users.Keys
    ensures id in users ==> after[id].hashRT.None?
    ensures id in users ==> after[id].email == users[id].email && after[id].hash == users[id].hash
    ensures forall other :: other in users && other != id ==> after[other] == users[other]
  {
    if id in users && users[id].hashRT.Some? then users[id := users[id].(hashRT := None)] else users
  }

  /** Logging out twice is logging out once. */
  lemma LogoutIdempotent(users: Store, id: UserId)
    ensures LoggedOut(LoggedOut(users, id), id) == LoggedOut(users, id)
  {
  }

  /** After logout no refresh token of that user is accepted. */
  lemma LogoutRevokes(users: Store, id: UserId, t: Token)
    ensures !RefreshAccepted(LoggedOut(users, id), id, t)
  {
  }

  /** After a rotation to `rt`, a refresh by that user is accepted for `rt` and for no other token. */
  lemma RotationAcceptsOnlyIssued(before: Store, after: Store, id: UserId, rt: Token, t: Token)
    requires RtRotated(before, after, id, rt)
    ensures RefreshAccepted(after, id, t) <==> t == rt
  {
  }

  /** A rotation for one user leaves what every other user's refresh accepts. */
  lemma RotationKeepsOthers(before: Store, after: Store, id: UserId, rt: Token, other: UserId, t: Token)
    requires RtRotated(before, after, id, rt)
    requires other != id
    ensures RefreshAccepted(after, other, t) <==> RefreshAccepted(before, other, t)
  {
    assert other in after <==> other in before;
    if other in before {
      assert after[other] == before[other];
    }
  }

  /**
   * Reuse of a refresh token is rejected once it has been rotated away, provided the
   * newly issued token differs from it (two tokens signed with the same claims in the
   * same second may coincide).
   */
  lemma ReplayRejected(before: Store, after: Store, id: UserId, presented: Token, issued: Token)
    requires RefreshAccepted(before, id, presented)
    requires RtRotated(before, after, id, issued)
    requires presented != issued
    ensures !RefreshAccepted(after, id, presented)
  {
    RotationAcceptsOnlyIssued(before, after, id, issued, presented);
  }

  /** Right after sign-up the new user's refresh accepts the returned refresh token and no other. */
  lemma SignUpOpensSession(before: Store, after: Store, id: UserId, email: string, password: string, rt: Token, t: Token)
    requires SignedUp(before, after, id, email, password, rt)
    ensures RefreshAccepted(after, id, t) <==> t == rt
  {
  }

  /** A user who has signed up can sign in with the same email and password. */
  lemma SignedUpCanSignIn(before: Store, after: Store, id: UserId, email: string, password: string, rt: Token)
    requires SignedUp(before, after, id, email, password, rt)
    ensures CredentialsMatch(after, email, password)
  {
    assert id in after && after[id].email == email && Verify(after[id].hash, password);
  }

  /** A successful rotation keeps the table's invariant. */
  lemma RotationKeepsEmailsUnique(before: Store, after: Store, id: UserId, rt: Token)
    requires RtRotated(before, after, id, rt)
    requires EmailsUnique(before)
    ensures EmailsUnique(after)
    ensures after.Keys == before.Keys
  {
    forall a, b | a in after && b in after && after[a].email == after[b].email
      ensures a == b
    {
      assert after[a].email == before[a].email && after[b].email == before[b].email;
    }
  }

  // ----- The service -----

  class AuthService {
    /** The user table. */
    var users: Store
    /** The next identifier the table hands out. */
    var nextId: UserId

    /** The injected JWT signer and the two configured secrets. */
    const sign: Signer<Claims>
    const atSecret: string
    const rtSecret: string

    ghost predicate Valid()
      reads this
    {
      (forall id :: id in users ==> id < nextId) && EmailsUnique(users)
    }

    constructor (sign: Signer<Claims>, atSecret: string, rtSecret: string)
      ensures Valid()
      ensures users == map[] && nextId == 0
      ensures this.sign == sign && this.atSecret == atSecret && this.rtSecret == rtSecret
    {
      this.sign := sign;
      this.atSecret := atSecret;
      this.rtSecret := rtSecret;
      users := map[];
      nextId := 0;
    }

    /** The token pair issued to a user at second `now`. */
    function Issued(userId: UserId, email: string, now: nat): Tokens {
      Tokens(sign(Claims(userId, email), atSecret, AccessTtl, now),
             sign(Claims(userId, email), rtSecret, RefreshTtl, now))
    }

    /** hashData: argon2 with a fresh random salt; only verification is promised. */
    method HashData(data: string) returns (h: Hashed)
      ensures Verify(h, data)
    {
      var salt: nat :| true;
      h := Hash(data, salt);
    }

    /**
     * generateAuthTokens: both tokens carry `{ sub: userId, email }`; the access token
     * is signed with the access secret for 15 minutes, the refresh token with the
     * refresh secret for 7 days. The two signings are sequential here.
     */
    method GenerateAuthTokens(userId: UserId, email: string, now: nat) returns (t: Tokens)
      ensures t.accessToken == sign(Claims(userId, email), atSecret, AccessTtl, now)
      ensures t.refreshToken == sign(Claims(userId, email), rtSecret, RefreshTtl, now)
      ensures t == Issued(userId, email, now)
    {
      var claims := Claims(userId, email);
      var rt := sign(claims, rtSecret, RefreshTtl, now);
      var at := sign(claims, atSecret, AccessTtl, now);
      t := Tokens(at, rt);
    }

    /** findFirst({ where: { email } }). */
    method FindByEmail(email: string) returns (found: Option<UserId>)
      requires Valid()
      ensures found.Some? <==> EmailTaken(users, email)
      ensures found.Some? ==> found.value in users && users[found.value].email == email
      ensures found.Some? ==> found.value == OwnerOf(users, email)
    {
      if EmailTaken(users, email) {
        var id :| id in users && users[id].email == email;
        found := Some(id);
      } else {
        found := None;
      }
    }

    /**
     * updateRtHash: stores the hash of `rt` as the user's `hashRT`. A missing id leaves
     * the table as it is (Prisma's update rejects it); every caller passes an id it
     * has just created or read.
     */
    method UpdateRtHash(userId: UserId, rt: Token) returns (found: bool)
      requires Valid()
      modifies this`users
      ensures Valid()
      ensures found == (userId in old(users))
      ensures found ==> RtRotated(old(users), users, userId, rt)
      ensures !found ==> users == old(users)
    {
      var hash := HashData(rt);
      found := userId in users;
      if found {
        users := users[userId := users[userId].(hashRT := Some(hash))];
        RotationKeepsEmailsUnique(old(users), users, userId, rt);
      }
    }

    /**
     * signUpLocal: hash the password, create the user (rejected with P2002 when the
     * email is already registered), issue a token pair and store its refresh hash.
     */
    method SignUpLocal(dto: AuthDto, now: nat) returns (r: Result<Tokens, Error>)
      requires Valid()
      modifies this
      ensures Valid()
      ensures r.Failure? <==> EmailTaken(old(users), dto.email)
      ensures r.Failure? ==> r.error == PrismaKnownRequest(UniqueViolation)
      ensures r.Failure? ==> users == old(users) && nextId == old(nextId)
      ensures r.Success? ==> r.value == Issued(old(nextId), dto.email, now)
      ensures r.Success? ==> SignedUp(old(users), users, old(nextId), dto.email, dto.password, r.value.refreshToken)
    {
      var hash := HashData(dto.password);
      if EmailTaken(users, dto.email) {
        return Failure(PrismaKnownRequest(UniqueViolation));
      }
      var id := nextId;
      users := users[id := User(dto.email, hash, None)];
      nextId := nextId + 1;
      ghost var created := users;
      var tokens := GenerateAuthTokens(id, dto.email, now);
      var found := UpdateRtHash(id, tokens.refreshToken);
      assert found;
      assert users == old(users)[id := users[id]] by {
        assert created == old(users)[id := created[id]];
      }
      r := Success(tokens);
    }

    /**
     * signInLocal: look the user up by email and verify the password; both failures
     * throw the same Forbidden("Invalid credentials"). On success only that user's
     * refresh hash changes.
     */
    method SignInLocal(dto: AuthDto, now: nat) returns (r: Result<Tokens, Error>)
      requires Valid()
      modifies this`users
      ensures Valid()
      ensures r.Failure? <==> !CredentialsMatch(old(users), dto.email, dto.password)
      ensures r.Failure? ==> r.error == Forbidden(InvalidCredentials) && users == old(users)
      ensures r.Success? ==> EmailTaken(old(users), dto.email)
      ensures r.Success? ==>
        var id := OwnerOf(old(users), dto.email);
        r.value == Issued(id, dto.email, now) && RtRotated(old(users), users, id, r.value.refreshToken)
    {
      var user := FindByEmail(dto.email);
      if user.None? {
        return Failure(Forbidden(InvalidCredentials));
      }
      var id := user.value;
      var passwordMatch := Verify(users[id].hash, dto.password);
      if !passwordMatch {
        return Failure(Forbidden(InvalidCredentials));
      }
      var tokens := GenerateAuthTokens(id, users[id].email, now);
      var found := UpdateRtHash(id, tokens.refreshToken);
      r := Success(tokens);
    }

    /** logout: clears `hashRT` where the id matches and a session is active; never fails. */
    method Logout(userId: UserId)
      requires Valid()
      modifies this`users
      ensures Valid()
      ensures users == LoggedOut(old(users), userId)
    {
      if userId in users && users[userId].hashRT.Some? {
        users := users[userId := users[userId].(hashRT := None)];
        assert forall a :: a in users ==> users[a].email == old(users)[a].email;
      }
    }

    /**
     * refreshTokens: Forbidden("Access denied") unless the user exists, has an active
     * session and the presented token verifies against the stored hash; on success a
     * new pair is issued and the stored hash rotated to the new refresh token.
     */
    method RefreshTokens(userId: UserId, rt: Token, now: nat) returns (r: Result<Tokens, Error>)
      requires Valid()
      modifies this`users
      ensures Valid()
      ensures r.Failure? <==> !RefreshAccepted(old(users), userId, rt)
      ensures r.Failure? ==> r.error == Forbidden(AccessDenied) && users == old(users)
      ensures r.Success? ==> userId in old(users)
      ensures r.Success? ==>
        r.value == Issued(userId, old(users)[userId].email, now) &&
        RtRotated(old(users), users, userId, r.value.refreshToken)
    {
      if userId !in users || users[userId].hashRT.None? {
        return Failure(Forbidden(AccessDenied));
      }
      var rtMatches := Verify(users[userId].hashRT.value, rt);
      if !rtMatches {
        return Failure(Forbidden(AccessDenied));
      }
      var user := users[userId];
      var tokens := GenerateAuthTokens(userId, user.email, now);
      var found := UpdateRtHash(userId, tokens.refreshToken);
      r := Success(tokens);
    }
  }
}
