/** The account records of the identity slice, the collaborators it treats as
    black boxes (password hashing, token signing) and the user store. */
module Users {
  import opened Wrappers
  import opened Json

  /** The closed set of account roles. */
  datatype Role = Student | Teacher | Admin

  /** The role as the store and the JSON bodies spell it. */
  function RoleName(role: Role): (r: string)
  {
    match role
    case Student => "STUDENT"
    case Teacher => "TEACHER"
    case Admin => "ADMIN"
  }

  /** A stored account. `password` holds the digest, never the plaintext;
      `id` is assigned by the store. */
  datatype User = User(
    id: string,
    email: string,
    password: string,
    firstName: string,
    lastName: string,
    role: Role)

  /** An account as callers see it: every field of `User` except `password`.
      Having no such field, a `PublicUser` cannot carry the digest. */
  datatype PublicUser = PublicUser(
    id: string,
    email: string,
    firstName: string,
    lastName: string,
    role: Role)

  /** The fields a registration submits. `role` may be omitted, in which case
      the store applies its column default. */
  datatype NewUser = NewUser(
    email: string,
    password: string,
    firstName: string,
    lastName: string,
    role: Option<Role>)

  /** The pair a login submits. */
  datatype Credentials = Credentials(email: string, password: string)

  /** The payload a session token is signed over. */
  datatype Claims = Claims(userId: string, role: Role)

  /** `const { password, ...rest } = user`: drops the digest, keeps the rest. */
  function WithoutPassword(u: User): (p: PublicUser)
    ensures p.id == u.id && p.email == u.email && p.role == u.role
    ensures p.firstName == u.firstName && p.lastName == u.lastName
  {
    PublicUser(u.id, u.email, u.firstName, u.lastName, u.role)
  }

  /** Puts a digest back into a public view of an account. */
  function WithPassword(p: PublicUser, digest: string): (r: User)
  {
    User(p.id, p.email, digest, p.firstName, p.lastName, p.role)
  }

  /** Stripping loses exactly the password: restoring it gives the record back,
      and two records strip alike exactly when they differ at most in it. */
  lemma StripLosesOnlyPassword(u: User, v: User)
    ensures WithPassword(WithoutPassword(u), u.password) == u
    ensures WithoutPassword(u) == WithoutPassword(v) <==> u.(password := v.password) == v
  {
  }

  /** A public account as a JSON object. */
  function UserJson(p: PublicUser): (j: Json)
    ensures !Mentions(j, "password")
    ensures j.JObject?
    ensures Member("id", JString(p.id)) in j.members
    ensures Member("email", JString(p.email)) in j.members
    ensures Member("firstName", JString(p.firstName)) in j.members
    ensures Member("lastName", JString(p.lastName)) in j.members
    ensures Member("role", JString(RoleName(p.role))) in j.members
  {
    JObject([
      Member("id", JString(p.id)),
      Member("email", JString(p.email)),
      Member("firstName", JString(p.firstName)),
      Member("lastName", JString(p.lastName)),
      Member("role", JString(RoleName(p.role)))
    ])
  }

  /** Distinct roles are spelled differently. */
  lemma RoleNameInjective(a: Role, b: Role)
    requires RoleName(a) == RoleName(b)
    ensures a == b
  {
  }

  /** The JSON form of an account determines the account. */
  lemma UserJsonInjective(p: PublicUser, q: PublicUser)
    ensures UserJson(p) == UserJson(q) ==> p == q
  {
    if UserJson(p) == UserJson(q) {
      assert UserJson(p).members[4] == UserJson(q).members[4];
      RoleNameInjective(p.role, q.role);
    }
  }

  /** The external libraries the service calls, as total functions:
      `hash` is `bcrypt.hash`, `compare` is `bcrypt.compare`, `sign` is
      `jwt.sign`. Salting makes `hash` vary between calls; a caller passes
      the function in force for its call. */
  datatype Crypto = Crypto(
    hash: string -> string,
    compare: (string, string) -> bool,
    sign: (Claims, string) -> string)

  /** The one property assumed of the hashing library: a digest produced from
      a plaintext verifies that plaintext. */
  ghost predicate CompareAcceptsHash(c: Crypto)
  {
    forall plain :: c.compare(plain, c.hash(plain))
  }

  /** The user table, keyed by its unique `email` column. */
  type Store = map<string, User>

  /** Every record sits under its own email. */
  ghost predicate WellKeyed(store: Store)
  {
    forall e :: e in store ==> store[e].email == e
  }

  /** No two records share an id. */
  ghost predicate DistinctIds(store: Store)
  {
    forall e, f :: e in store && f in store && e != f ==> store[e].id != store[f].id
  }

  ghost function Ids(store: Store): (r: set<string>)
  {
    set e | e in store :: store[e].id
  }
}
