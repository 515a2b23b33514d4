/** JSON values as the HTTP layer serialises them, and the `(status, body)`
    pair every handler ends with. Object members keep their insertion order,
    as `JSON.stringify` does, so equal values serialise to equal bytes. */
module Json {

  datatype Json =
    | JNull
    | JBool(truth: bool)
    | JNumber(num: real)
    | JString(str: string)
    | JArray(items: seq<Json>)
    | JObject(members: seq<Member>)

  datatype Member = Member(key: string, value: Json)

  /** `key` names a member of some object anywhere inside `j`. */
  predicate Mentions(j: Json, key: string)
  {
    match j
    case JNull => false
    case JBool(_) => false
    case JNumber(_) => false
    case JString(_) => false
    case JArray(items) => exists i :: 0 <= i < |items| && Mentions(items[i], key)
    case JObject(ms) => exists i :: 0 <= i < |ms| && (ms[i].key == key || Mentions(ms[i].value, key))
  }

  /** `{message: text}`, the body shape most responses share. */
  function MessageBody(text: string): (r: Json)
  {
    JObject([Member("message", JString(text))])
  }

  /** What `res.status(status).json(body)` sends. */
  datatype Response = Response(status: nat, body: Json)

  /** Status codes, as section 15 of RFC 9110 names them. */
  const Ok: nat := 200
  const Created: nat := 201
  const BadRequest: nat := 400
  const Unauthorized: nat := 401
  const Conflict: nat := 409
  const InternalServerError: nat := 500
}
