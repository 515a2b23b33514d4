/** The HTTP handlers for registration, login and logout: each turns a service
    outcome into a status and a JSON body. The status of a failure is chosen by
    looking for a fixed phrase in the error message. */
module AuthController {
  import opened Wrappers
  import opened Strings
  import opened Json
  import opened Users
  import opened AuthService

  const ConflictPhrase: string := "already exists"
  const UnauthorizedPhrase: string := "Invalid"

  /** `{message, error}`: a generic message and the raw error text. */
  function ErrorBody(message: string, error: string): (r: Json)
  {
    JObject([Member("message", JString(message)), Member("error", JString(error))])
  }

  /** Answer to a registration: 201 with the new account, 409 when the error
      speaks of an existing account, 500 with the raw message otherwise. */
  function RegisterReply(outcome: Result<PublicUser>): (r: Response)
    ensures r.status == Created <==> outcome.Success?
    ensures outcome.Success? ==>
      r.body == JObject([Member("user", UserJson(outcome.value)), Member("message", JString("User created successfully"))])
    ensures outcome.Failure? ==> (r.status == Conflict <==> Contains(outcome.error, ConflictPhrase))
    ensures r.status == Conflict ==> r.body == MessageBody(outcome.error)
    ensures outcome.Failure? && r.status != Conflict ==>
      r == Response(InternalServerError, ErrorBody("An error occurred during registration", outcome.error))
    ensures !Mentions(r.body, "password")
  {
    match outcome
    case Success(user) =>
      Response(Created, JObject([Member("user", UserJson(user)), Member("message", JString("User created successfully"))]))
    case Failure(message) =>
      if Includes(message, ConflictPhrase) then Response(Conflict, MessageBody(message))
      else Response(InternalServerError, ErrorBody("An error occurred during registration", message))
  }

  /** Answer to a login: 200 with the account and token, 401 when the error
      calls something invalid, 500 with the raw message otherwise. */
  function LoginReply(outcome: Result<Session>): (r: Response)
    ensures r.status == Ok <==> outcome.Success?
    ensures outcome.Success? ==>
      r.body == JObject([Member("user", UserJson(outcome.value.user)),
                         Member("token", JString(outcome.value.token)),
                         Member("message", JString("Login successful"))])
    ensures outcome.Failure? ==> (r.status == Unauthorized <==> Contains(outcome.error, UnauthorizedPhrase))
    ensures r.status == Unauthorized ==> r.body == MessageBody(outcome.error)
    ensures outcome.Failure? && r.status != Unauthorized ==>
      r == Response(InternalServerError, ErrorBody("An error occurred during login", outcome.error))
    ensures !Mentions(r.body, "password")
  {
    match outcome
    case Success(session) =>
      Response(Ok, JObject([Member("user", UserJson(session.user)),
                            Member("token", JString(session.token)),
                            Member("message", JString("Login successful"))]))
    case Failure(message) =>
      if Includes(message, UnauthorizedPhrase) then Response(Unauthorized, MessageBody(message))
      else Response(InternalServerError, ErrorBody("An error occurred during login", message))
  }

  /** The registration endpoint: the request body goes to the service as it
      is; the store the service leaves behind is the endpoint's effect. */
  function RegisterEndpoint(store: Store, body: NewUser, hash: string -> string, id: string, defaultRole: Role): (r: (Response, Store))
    ensures r.1 == Register(store, body, hash, id, defaultRole).store
    ensures r.0.status in {Created, Conflict, InternalServerError}
  {
    var o := Register(store, body, hash, id, defaultRole);
    (RegisterReply(o.result), o.store)
  }

  /** A login request body: the two credential fields and whatever else the
      client sent. */
  datatype LoginBody = LoginBody(email: string, password: string, others: seq<Member>)

  /** The login endpoint: only `email` and `password` reach the service. */
  function LoginEndpoint(store: Store, body: LoginBody, crypto: Crypto, secret: Option<string>): (r: Response)
    ensures r.status in {Ok, Unauthorized, InternalServerError}
    ensures r.status == Ok <==> Login(store, Credentials(body.email, body.password), crypto, secret).result.Success?
  {
    LoginReply(Login(store, Credentials(body.email, body.password), crypto, secret).result)
  }

  /** The logout endpoint: tokens are stateless, so there is nothing to
      invalidate; it answers 200 and touches nothing. */
  function Logout(store: Store): (r: (Response, Store))
    ensures r.0.status == Ok
    ensures r.0.body == MessageBody("Successfully logged out")
    ensures r.1 == store
  {
    (Response(Ok, MessageBody("Successfully logged out")), store)
  }

  // ---------------------------------------------------------------------------
  // The handlers composed with the service
  // ---------------------------------------------------------------------------

  /** The duplicate-account message carries the conflict phrase. */
  lemma DuplicateMessageIsConflict()
    ensures Includes(DuplicateEmail, ConflictPhrase)
  {
    assert OccursAt(DuplicateEmail, ConflictPhrase, 21);
  }

  /** The bad-credentials message carries the unauthorized phrase. */
  lemma InvalidMessageIsUnauthorized()
    ensures Includes(InvalidCredentials, UnauthorizedPhrase)
  {
    assert OccursAt(InvalidCredentials, UnauthorizedPhrase, 0);
  }

  /** The configuration message does not: it holds no capital `I`. */
  lemma ConfigurationMessageIsNotUnauthorized()
    ensures !Includes(ConfigurationError, UnauthorizedPhrase)
  {
    MissingFirstCharExcludes(ConfigurationError, UnauthorizedPhrase);
  }

  /** Registering a taken email answers 409 with the service's message and
      leaves the store alone. */
  lemma DuplicateRegistrationConflicts(store: Store, body: NewUser, hash: string -> string, id: string, defaultRole: Role)
    requires body.email in store
    ensures RegisterEndpoint(store, body, hash, id, defaultRole) == (Response(Conflict, MessageBody(DuplicateEmail)), store)
  {
    DuplicateMessageIsConflict();
  }

  /** A registration that goes through answers 201 with the stored record minus
      its password. */
  lemma FreshRegistrationCreated(store: Store, body: NewUser, hash: string -> string, id: string, defaultRole: Role)
    requires body.email !in store
    ensures var (r, s') := RegisterEndpoint(store, body, hash, id, defaultRole);
            r.status == Created && r.body.members[0] == Member("user", UserJson(WithoutPassword(s'[body.email])))
  {
  }

  /** An unknown email and a wrong password get the same answer, 401 with the
      same message, whatever the secret: the response does not tell which. */
  lemma UnknownEmailAndWrongPasswordAgree(store: Store, unknown: LoginBody, wrong: LoginBody, crypto: Crypto,
                                          secret: Option<string>, secret': Option<string>)
    requires unknown.email !in store
    requires wrong.email in store && !crypto.compare(wrong.password, store[wrong.email].password)
    ensures LoginEndpoint(store, unknown, crypto, secret) == LoginEndpoint(store, wrong, crypto, secret')
    ensures LoginEndpoint(store, unknown, crypto, secret) == Response(Unauthorized, MessageBody(InvalidCredentials))
  {
    InvalidMessageIsUnauthorized();
  }

  /** Valid credentials without a usable secret answer 500, not 401: the
      configuration message holds no "Invalid". */
  lemma MissingSecretIsServerError(store: Store, body: LoginBody, crypto: Crypto, secret: Option<string>)
    requires body.email in store && crypto.compare(body.password, store[body.email].password)
    requires !Configured(secret)
    ensures LoginEndpoint(store, body, crypto, secret) ==
            Response(InternalServerError, ErrorBody("An error occurred during login", ConfigurationError))
  {
    ConfigurationMessageIsNotUnauthorized();
  }

  /** Fields of the login body other than `email` and `password` make no
      difference to the answer. */
  lemma LoginIgnoresOtherFields(store: Store, a: LoginBody, b: LoginBody, crypto: Crypto, secret: Option<string>)
    requires a.email == b.email && a.password == b.password
    ensures LoginEndpoint(store, a, crypto, secret) == LoginEndpoint(store, b, crypto, secret)
  {
  }

  /** Register, then log in with the same credentials: 200, carrying the
      registered account and a token signed over its id and role. */
  lemma RegisterThenLoginEndpoint(store: Store, body: NewUser, crypto: Crypto, id: string, defaultRole: Role,
                                  secret: Option<string>, extra: seq<Member>)
    requires CompareAcceptsHash(crypto)
    requires body.email !in store
    requires Configured(secret)
    ensures var (_, s') := RegisterEndpoint(store, body, crypto.hash, id, defaultRole);
            var u := WithoutPassword(s'[body.email]);
            LoginEndpoint(s', LoginBody(body.email, body.password, extra), crypto, secret) ==
              Response(Ok, JObject([Member("user", UserJson(u)),
                                    Member("token", JString(crypto.sign(Claims(id, u.role), secret.value))),
                                    Member("message", JString("Login successful"))]))
  {
    RegisterThenLogin(store, body, crypto, id, defaultRole, secret);
  }
}
