/** Registration and login over the user store. Each operation returns, besides
    its result, the collaborator calls it made in order, so that the order of
    the checks and which of them stop the operation are part of its contract. */
module AuthService {
  import opened Wrappers
  import opened Users

  /** A call into a collaborator: the store, the hashing library, the process
      environment or the token library. */
  datatype Call =
    | FindUnique(email: string)
    | HashPassword(plain: string)
    | CreateUser(data: NewUser)
    | ComparePassword(plain: string, digest: string)
    | ReadSecret
    | SignToken(claims: Claims, secret: string)

  const DuplicateEmail: string := "User with this email already exists"
  const InvalidCredentials: string := "Invalid email or password"
  const ConfigurationError: string := "Authentication configuration error."

  /** What a registration leaves behind: its result, the store after it, and
      the calls it made. */
  datatype Registration = Registration(result: Result<PublicUser>, store: Store, calls: seq<Call>)

  /** A successful login: the account without its digest, and the token. */
  datatype Session = Session(user: PublicUser, token: string)

  /** What a login leaves behind. A login returns no store: it cannot change one. */
  datatype LoginAttempt = LoginAttempt(result: Result<Session>, calls: seq<Call>)

  /** The record `create` stores for `data`: the store assigns `id` and, when
      the submission has no role, `defaultRole`. */
  function CreatedRecord(data: NewUser, id: string, defaultRole: Role): (r: User)
  {
    User(id, data.email, data.password, data.firstName, data.lastName, data.role.GetOr(defaultRole))
  }

  /** `registerUser`: look the email up; if taken, fail; otherwise hash the
      password, create the record with the digest in place of the plaintext,
      and return it without the password. */
  function Register(store: Store, data: NewUser, hash: string -> string, id: string, defaultRole: Role): (o: Registration)
    // a taken email stops at the lookup: nothing hashed, nothing created
    ensures data.email in store ==>
      && o.result == Failure(DuplicateEmail)
      && o.store == store
      && o.calls == [FindUnique(data.email)]
    // a fresh email gains exactly one record, and no other record changes
    ensures data.email !in store ==>
      && o.store.Keys == store.Keys + {data.email}
      && |o.store| == |store| + 1
      && (forall e :: e in store ==> o.store[e] == store[e])
    // the new record holds the digest of the submitted password and the
    // submitted fields otherwise
    ensures data.email !in store ==>
      var u := o.store[data.email];
      && u.password == hash(data.password)
      && u.email == data.email && u.firstName == data.firstName && u.lastName == data.lastName
      && u.role == data.role.GetOr(defaultRole)
      && u.id == id
      && o.calls == [FindUnique(data.email), HashPassword(data.password), CreateUser(data.(password := u.password))]
    // the caller gets the stored record, minus the password
    ensures data.email !in store ==>
      && o.result.Success?
      && WithPassword(o.result.value, o.store[data.email].password) == o.store[data.email]
  {
    if data.email in store then
      Registration(Failure(DuplicateEmail), store, [FindUnique(data.email)])
    else
      var digest := hash(data.password);
      var submitted := data.(password := digest);
      var user := CreatedRecord(submitted, id, defaultRole);
      var store' := store[data.email := user];
      Registration(
        Success(WithoutPassword(user)),
        store',
        [FindUnique(data.email), HashPassword(data.password), CreateUser(submitted)])
  }

  /** A secret read from the environment is usable when it is set and
      non-empty: both `undefined` and `""` are falsy. */
  predicate Configured(secret: Option<string>)
  {
    secret.Some? && secret.value != ""
  }

  /** `loginUser`: look the email up, compare the password with the stored
      digest, read the signing secret, sign `{userId, role}` with it, and
      return the account without the password together with the token. */
  function Login(store: Store, creds: Credentials, crypto: Crypto, secret: Option<string>): (o: LoginAttempt)
    // unknown email: fails at the lookup
    ensures creds.email !in store ==>
      o == LoginAttempt(Failure(InvalidCredentials), [FindUnique(creds.email)])
    // known email, wrong password: fails at the comparison with the same message
    ensures creds.email in store && !crypto.compare(creds.password, store[creds.email].password) ==>
      o == LoginAttempt(Failure(InvalidCredentials),
                        [FindUnique(creds.email), ComparePassword(creds.password, store[creds.email].password)])
    // credentials check out but the secret is missing or empty
    ensures creds.email in store && crypto.compare(creds.password, store[creds.email].password) && !Configured(secret) ==>
      o == LoginAttempt(Failure(ConfigurationError),
                        [FindUnique(creds.email), ComparePassword(creds.password, store[creds.email].password), ReadSecret])
    // everything checks out: the token is signed over the account's id and role
    ensures o.result.Success? <==>
      creds.email in store && crypto.compare(creds.password, store[creds.email].password) && Configured(secret)
    ensures o.result.Success? ==>
      var u := store[creds.email];
      && o.result.value.user == WithoutPassword(u)
      && o.result.value.token == crypto.sign(Claims(u.id, u.role), secret.value)
      && o.calls == [FindUnique(creds.email), ComparePassword(creds.password, u.password),
                     ReadSecret, SignToken(Claims(u.id, u.role), secret.value)]
    // a failure is one of the two service errors
    ensures o.result.Failure? ==> o.result.error in {InvalidCredentials, ConfigurationError}
  {
    if creds.email !in store then
      LoginAttempt(Failure(InvalidCredentials), [FindUnique(creds.email)])
    else
      var user := store[creds.email];
      var looked := [FindUnique(creds.email), ComparePassword(creds.password, user.password)];
      if !crypto.compare(creds.password, user.password) then
        LoginAttempt(Failure(InvalidCredentials), looked)
      else if !Configured(secret) then
        LoginAttempt(Failure(ConfigurationError), looked + [ReadSecret])
      else
        var claims := Claims(user.id, user.role);
        var token := crypto.sign(claims, secret.value);
        LoginAttempt(Success(Session(WithoutPassword(user), token)), looked + [ReadSecret, SignToken(claims, secret.value)])
  }

  // ---------------------------------------------------------------------------
  // Properties relating several calls
  // ---------------------------------------------------------------------------

  /** Registration keeps every record under its own email, and keeps ids
      distinct when the store hands out an id it has not used before. */
  lemma RegisterPreservesStoreInvariant(store: Store, data: NewUser, hash: string -> string, id: string, defaultRole: Role)
    requires WellKeyed(store)
    ensures WellKeyed(Register(store, data, hash, id, defaultRole).store)
    ensures DistinctIds(store) && id !in Ids(store) ==> DistinctIds(Register(store, data, hash, id, defaultRole).store)
  {
    var s' := Register(store, data, hash, id, defaultRole).store;
    if DistinctIds(store) && id !in Ids(store) && data.email !in store {
      forall e, f | e in s' && f in s' && e != f
        ensures s'[e].id != s'[f].id
      {
        if e == data.email {
          assert s'[f].id in Ids(store);
        } else if f == data.email {
          assert s'[e].id in Ids(store);
        }
      }
    }
  }

  /** Registering the same email a second time fails with the duplicate
      message and leaves the store as the first registration left it. */
  lemma RegisterTwiceConflicts(store: Store, first: NewUser, second: NewUser, crypto: Crypto,
                               id: string, id': string, defaultRole: Role)
    requires second.email == first.email
    ensures var s1 := Register(store, first, crypto.hash, id, defaultRole).store;
            var o2 := Register(s1, second, crypto.hash, id', defaultRole);
            o2.result == Failure(DuplicateEmail) && o2.store == s1
  {
  }

  /** The two credential failures are indistinguishable: an unknown email and
      a wrong password give the same result, whatever the secret. */
  lemma CredentialFailuresAgree(store: Store, unknown: Credentials, wrong: Credentials, crypto: Crypto,
                                secret: Option<string>, secret': Option<string>)
    requires unknown.email !in store
    requires wrong.email in store && !crypto.compare(wrong.password, store[wrong.email].password)
    ensures Login(store, unknown, crypto, secret).result == Login(store, wrong, crypto, secret').result
    ensures Login(store, unknown, crypto, secret).result == Failure(InvalidCredentials)
  {
  }

  /** The credential checks come first: with bad credentials the secret is
      never read and does not affect the outcome. */
  lemma CredentialCheckPrecedesSecret(store: Store, creds: Credentials, crypto: Crypto,
                                      secret: Option<string>, secret': Option<string>)
    requires Login(store, creds, crypto, secret).result == Failure(InvalidCredentials)
    ensures ReadSecret !in Login(store, creds, crypto, secret).calls
    ensures Login(store, creds, crypto, secret) == Login(store, creds, crypto, secret')
  {
  }

  /** A freshly registered account can log in with the password it was
      registered with, and the session names the registered account. */
  lemma RegisterThenLogin(store: Store, data: NewUser, crypto: Crypto, id: string, defaultRole: Role,
                          secret: Option<string>)
    requires CompareAcceptsHash(crypto)
    requires data.email !in store
    requires Configured(secret)
    ensures var r := Register(store, data, crypto.hash, id, defaultRole);
            var l := Login(r.store, Credentials(data.email, data.password), crypto, secret);
            && r.result.Success?
            && l.result == Success(Session(r.result.value, crypto.sign(Claims(id, r.result.value.role), secret.value)))
  {
    var r := Register(store, data, crypto.hash, id, defaultRole);
    assert crypto.compare(data.password, crypto.hash(data.password));
  }
}
