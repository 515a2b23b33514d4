/** The request-validation gate: runs an endpoint's schema over the request's
    `{body, query, params}` envelope and either lets the request through or
    answers it, listing every schema issue with its dotted field path. */
module Validation {
  import opened Strings
  import opened Json

  /** One step of an issue's path: an object key or an array index. */
  datatype Segment = Key(name: string) | Index(index: int)

  /** A schema violation: where it is and what is wrong. */
  datatype Issue = Issue(path: seq<Segment>, message: string)

  /** How running the schema ends: it accepts the input, it throws a schema
      error listing issues, or it throws anything else. */
  datatype Parse = Parsed | SchemaError(issues: seq<Issue>) | OtherError(detail: string)

  /** The parts of an incoming request the gate can see. */
  datatype Request = Request(body: Json, query: Json, params: Json, headers: seq<Member>)

  /** What the schema is run over. */
  datatype Envelope = Envelope(body: Json, query: Json, params: Json)

  /** The gate either hands the request on or answers it; never both, never
      neither. */
  datatype Verdict = Next | Respond(response: Response)

  /** How `join` prints one segment: a key verbatim, an index in decimal. */
  function SegmentText(s: Segment): (r: string)
  {
    match s
    case Key(name) => name
    case Index(i) => IntToString(i)
  }

  function SegmentTexts(path: seq<Segment>): (r: seq<string>)
    ensures |r| == |path|
    ensures forall k :: 0 <= k < |path| ==> r[k] == SegmentText(path[k])
  {
    if |path| == 0 then [] else [SegmentText(path[0])] + SegmentTexts(path[1..])
  }

  /** `path.join('.')`. */
  function PathText(path: seq<Segment>): (r: string)
  {
    Join(SegmentTexts(path), ".")
  }

  /** A key may hold dots of its own; an index never does. */
  predicate DotFree(s: Segment)
  {
    s.Key? ==> Free(s.name, '.')
  }

  /** The path of an empty list is empty, and a single segment prints as
      itself. The printed path begins with the first segment's text and ends
      with the last one's, so it starts (ends) with a dot only when that
      segment's text does; an empty key at either end therefore does put a dot
      there. Splitting at the dots recovers every segment when no key holds a
      dot. */
  lemma {:induction false} PathTextSplits(path: seq<Segment>)
    ensures PathText([]) == ""
    ensures |path| == 1 ==> PathText(path) == SegmentText(path[0])
    ensures |path| >= 1 && |SegmentText(path[0])| > 0 && SegmentText(path[0])[0] != '.' ==>
      |PathText(path)| > 0 && PathText(path)[0] != '.'
    ensures |path| >= 1 && |SegmentText(path[|path| - 1])| > 0
            && SegmentText(path[|path| - 1])[|SegmentText(path[|path| - 1])| - 1] != '.' ==>
      |PathText(path)| > 0 && PathText(path)[|PathText(path)| - 1] != '.'
    ensures |path| >= 2 && SegmentText(path[0]) == "" ==>
      |PathText(path)| > 0 && PathText(path)[0] == '.'
    ensures |path| >= 2 && SegmentText(path[|path| - 1]) == "" ==>
      |PathText(path)| > 0 && PathText(path)[|PathText(path)| - 1] == '.'
    ensures |path| >= 1 && (forall k :: 0 <= k < |path| ==> DotFree(path[k])) ==>
      Split(PathText(path), '.') == SegmentTexts(path)
  {
    if |path| >= 1 {
      PathTextEnds(path);
      if forall k :: 0 <= k < |path| ==> DotFree(path[k]) {
        PathTextSplitsBack(path);
      }
    }
  }

  /** The printed path starts with the first segment's text and ends with the
      last one's. */
  lemma PathTextEnds(path: seq<Segment>)
    requires |path| >= 1
    ensures var first := SegmentText(path[0]);
            |first| > 0 ==> |PathText(path)| > 0 && PathText(path)[0] == first[0]
    ensures var last := SegmentText(path[|path| - 1]);
            |last| > 0 ==> |PathText(path)| > 0 && PathText(path)[|PathText(path)| - 1] == last[|last| - 1]
    ensures |path| >= 2 && SegmentText(path[0]) == "" ==>
      |PathText(path)| > 0 && PathText(path)[0] == '.'
    ensures |path| >= 2 && SegmentText(path[|path| - 1]) == "" ==>
      |PathText(path)| > 0 && PathText(path)[|PathText(path)| - 1] == '.'
  {
    var texts := SegmentTexts(path);
    assert texts[0] == SegmentText(path[0]);
    assert texts[|texts| - 1] == SegmentText(path[|path| - 1]);
    JoinEndChars(texts, ".");
    if |path| >= 2 {
      JoinEmptyEnds(texts, ".");
    }
  }

  /** The texts of dot-free segments hold no dot, so the join splits back. */
  lemma PathTextSplitsBack(path: seq<Segment>)
    requires |path| >= 1
    requires forall k :: 0 <= k < |path| ==> DotFree(path[k])
    ensures Split(PathText(path), '.') == SegmentTexts(path)
  {
    var texts := SegmentTexts(path);
    forall k | 0 <= k < |texts|
      ensures Free(texts[k], '.')
    {
      assert DotFree(path[k]);
      if path[k].Index? {
        assert forall j :: 0 <= j < |texts[k]| ==> IsDigit(texts[k][j]) || texts[k][j] == '-';
      }
    }
    SplitJoin(texts, '.');
  }

  /** One entry of the `errors` array. */
  function IssueJson(issue: Issue): (r: Json)
  {
    JObject([Member("path", JString(PathText(issue.path))), Member("message", JString(issue.message))])
  }

  /** `issues.map(...)`: one entry per issue, in the same order. */
  function IssueList(issues: seq<Issue>): (r: seq<Json>)
    ensures |r| == |issues|
    ensures forall k :: 0 <= k < |issues| ==>
      r[k] == JObject([Member("path", JString(PathText(issues[k].path))), Member("message", JString(issues[k].message))])
  {
    if |issues| == 0 then [] else [IssueJson(issues[0])] + IssueList(issues[1..])
  }

  /** `validate(schema)` applied to one request. */
  function Validate(schema: Envelope -> Parse, req: Request): (v: Verdict)
    ensures v.Next? <==> schema(Envelope(req.body, req.query, req.params)).Parsed?
    ensures schema(Envelope(req.body, req.query, req.params)).SchemaError? ==>
      var issues := schema(Envelope(req.body, req.query, req.params)).issues;
      v == Respond(Response(BadRequest, JObject([
             Member("message", JString("Validation error")),
             Member("errors", JArray(IssueList(issues)))])))
    ensures schema(Envelope(req.body, req.query, req.params)).OtherError? ==>
      v == Respond(Response(InternalServerError, MessageBody("Internal server error")))
  {
    match schema(Envelope(req.body, req.query, req.params))
    case Parsed => Next
    case SchemaError(issues) =>
      Respond(Response(BadRequest, JObject([
        Member("message", JString("Validation error")),
        Member("errors", JArray(IssueList(issues)))])))
    case OtherError(_) => Respond(Response(InternalServerError, MessageBody("Internal server error")))
  }

  /** The gate looks at the body, query and path parameters and nothing else:
      requests that agree on those get the same verdict. */
  lemma ValidateSeesOnlyEnvelope(schema: Envelope -> Parse, a: Request, b: Request)
    requires a.body == b.body && a.query == b.query && a.params == b.params
    ensures Validate(schema, a) == Validate(schema, b)
  {
  }

  /** An unexpected failure reveals nothing about itself: whatever its detail,
      the answer is the same. */
  lemma OtherErrorsLeakNothing(schema: Envelope -> Parse, schema': Envelope -> Parse, req: Request)
    requires schema(Envelope(req.body, req.query, req.params)).OtherError?
    requires schema'(Envelope(req.body, req.query, req.params)).OtherError?
    ensures Validate(schema, req) == Validate(schema', req)
  {
  }
}
