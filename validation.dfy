/**
 * The validation middleware: run a schema on the request body, call the next
 * handler when it passes, otherwise answer 400 with every issue rendered as
 * `path.join('.') + ": " + message`, joined by ", ".
 */
module Validation {
  import opened Wrappers
  import opened Json
  import opened Zod
  import Envelope
  import ListingSchemas
  import CommentSchemas

  /** Array.prototype.join */
  function Join(sep: string, parts: seq<string>): (r: string)
    ensures parts == [] ==> r == ""
    ensures |parts| >= 1 ==> |parts[0]| <= |r| && r[..|parts[0]|] == parts[0]
    ensures |parts| == 1 ==> r == parts[0]
    decreases |parts|
  {
    if |parts| == 0 then ""
    else if |parts| == 1 then parts[0]
    else parts[0] + sep + Join(sep, parts[1..])
  }

  /** How one issue is rendered */
  function RenderIssue(i: Issue): (r: string)
    ensures var p := Join(".", i.path);
      |p| <= |r| && r[..|p|] == p && r[|p|..] == ": " + i.message
  {
    Join(".", i.path) + ": " + i.message
  }

  function RenderAll(issues: seq<Issue>): (r: seq<string>)
    ensures |r| == |issues| && forall k :: 0 <= k < |issues| ==> r[k] == RenderIssue(issues[k])
  {
    seq(|issues|, k requires 0 <= k < |issues| => RenderIssue(issues[k]))
  }

  const Prefix := "Validation error: "
  const InvalidRequest := "Invalid request data"
  const BadRequestCode := 400

  /** The message of a schema failure */
  function ErrorMessage(issues: seq<Issue>): (m: string)
    ensures |Prefix| <= |m| && m[..|Prefix|] == Prefix
    ensures issues == [] ==> m == Prefix
    ensures |issues| >= 1 ==> var first := RenderIssue(issues[0]);
      |Prefix| + |first| <= |m| && m[|Prefix|..|Prefix| + |first|] == first
  {
    Prefix + Join(", ", RenderAll(issues))
  }

  /** What `schema.parse(req.body)` does: it returns or throws a schema error, or throws something else */
  datatype Run<T> = Completed(result: Parsed<T>) | OtherError

  /** The middleware either hands the request on, with its body, or answers it */
  datatype Outcome = Next(body: Json) | Reply(response: Envelope.Response)

  /**
   * validate(schema)(req, res, next). The parsed value is dropped: a request
   * that passes reaches the handler with the body it came with.
   */
  function Validate<T>(schema: Json -> Run<T>, body: Json): (r: Outcome)
    ensures r.Next? <==> schema(body).Completed? && schema(body).result.Parsed?
    ensures r.Next? ==> r.body == body
    ensures r.Reply? ==> r.response.code == 400 && r.response.body.status == Envelope.Error
    ensures schema(body).Completed? && schema(body).result.Failed? ==>
      r == Reply(Envelope.SendError(ErrorMessage(schema(body).result.issues), Some(400)))
    ensures schema(body).OtherError? ==> r == Reply(Envelope.SendError(InvalidRequest, Some(400)))
  {
    match schema(body)
    case Completed(Parsed(_)) => Next(body)
    case Completed(Failed(issues)) => Reply(Envelope.SendError(ErrorMessage(issues), Some(BadRequestCode)))
    case OtherError => Reply(Envelope.SendError(InvalidRequest, Some(BadRequestCode)))
  }

  // ----- the schemas as the routes hand them to validate() -----

  function CreateListingSchema(body: Json): Run<ListingSchemas.ListingInput> {
    Completed(ListingSchemas.ParseCreateListing(body))
  }

  /** updateListingSchema, with its refinement */
  function UpdateListingSchema(body: Json): Run<ListingSchemas.ListingPatch> {
    Completed(ListingSchemas.ParseUpdateListing(body))
  }

  /** updateListingSchema.innerType(): what the PUT route actually validates with */
  function UpdateListingInner(body: Json): Run<ListingSchemas.ListingPatch> {
    Completed(ListingSchemas.ParseUpdateFields(body))
  }

  function CreateCommentSchema(body: Json): Run<CommentSchemas.CommentInput> {
    Completed(CommentSchemas.ParseCreateComment(body))
  }

  // ----- the message format -----

  /** Joining two non-empty lists puts one separator between their joins */
  lemma {:induction false} JoinAppend(sep: string, a: seq<string>, b: seq<string>)
    requires |a| > 0 && |b| > 0
    ensures Join(sep, a + b) == Join(sep, a) + sep + Join(sep, b)
    decreases |a|
  {
    if |a| == 1 {
      assert (a + b)[1..] == b;
    } else {
      JoinAppend(sep, a[1..], b);
      assert (a + b)[1..] == a[1..] + b;
    }
  }

  /** Issues appear in the message in their order, each once, separated by ", " */
  lemma ErrorMessageAppend(issues: seq<Issue>, more: seq<Issue>)
    requires |issues| > 0 && |more| > 0
    ensures ErrorMessage(issues + more) == ErrorMessage(issues) + ", " + Join(", ", RenderAll(more))
  {
    assert RenderAll(issues + more) == RenderAll(issues) + RenderAll(more);
    JoinAppend(", ", RenderAll(issues), RenderAll(more));
  }

  /** An issue with an empty path, like the update refinement's, renders as ": " and its message */
  lemma EmptyPathRendering(message: string)
    ensures RenderIssue(Issue([], message)) == ": " + message
    ensures ErrorMessage([Issue([], message)]) == Prefix + ": " + message
  {
  }

  /** A single issue at one key renders as that key, ": " and the message */
  lemma SingleKeyRendering(key: string, message: string)
    ensures ErrorMessage([Issue([key], message)]) == Prefix + key + ": " + message
  {
  }

  /** String.prototype.split on one character */
  function Split(c: char, s: string): (r: seq<string>)
    ensures |r| >= 1
    decreases |s|
  {
    if |s| == 0 then [""]
    else
      var rest := Split(c, s[1..]);
      if s[0] == c then [""] + rest else [[s[0]] + rest[0]] + rest[1..]
  }

  lemma {:induction false} SplitNoSeparator(c: char, p: string)
    requires c !in p
    ensures Split(c, p) == [p]
    decreases |p|
  {
    if |p| > 0 {
      SplitNoSeparator(c, p[1..]);
      assert [p[0]] + p[1..] == p;
    }
  }

  lemma {:induction false} SplitAtSeparator(c: char, p: string, rest: string)
    requires c !in p
    ensures Split(c, p + [c] + rest) == [p] + Split(c, rest)
    decreases |p|
  {
    if |p| == 0 {
      assert p + [c] + rest == [c] + rest;
      assert ([c] + rest)[1..] == rest;
    } else {
      SplitAtSeparator(c, p[1..], rest);
      assert (p + [c] + rest)[1..] == p[1..] + [c] + rest;
      assert [p[0]] + p[1..] == p;
    }
  }

  /** A rendered path can be split back into its keys when no key holds a dot */
  lemma {:induction false} PathRoundTrip(path: seq<string>)
    requires |path| > 0
    requires forall k :: 0 <= k < |path| ==> '.' !in path[k]
    ensures Split('.', Join(".", path)) == path
    decreases |path|
  {
    if |path| == 1 {
      SplitNoSeparator('.', path[0]);
    } else {
      PathRoundTrip(path[1..]);
      assert path[0] + "." + Join(".", path[1..]) == path[0] + ['.'] + Join(".", path[1..]);
      SplitAtSeparator('.', path[0], Join(".", path[1..]));
      assert [path[0]] + path[1..] == path;
    }
  }

  // ----- the routes -----

  /** The PUT route's validator passes the empty body on, unchanged */
  lemma UpdateRouteAcceptsEmptyBody()
    ensures Validate(UpdateListingInner, JObject(map[])) == Next(JObject(map[]))
  {
    ListingSchemas.UpdateFieldsAcceptEmpty();
  }

  /** The refined schema would have answered 400 with the refinement's message on the empty path */
  lemma RefinedSchemaRejectsEmptyBody()
    ensures Validate(UpdateListingSchema, JObject(map[])) ==
      Reply(Envelope.SendError(Prefix + ": " + ListingSchemas.RefineMessage, Some(400)))
  {
    ListingSchemas.RefinedUpdateRejectsEmpty();
    var issues := [Issue([], ListingSchemas.RefineMessage)];
    assert UpdateListingSchema(JObject(map[])) == Completed(Failed(issues));
    EmptyPathRendering(ListingSchemas.RefineMessage);
  }

  /**
   * A comment body without a ranking passes, and the handler receives it
   * still without one: the schema's default of 0 never reaches the handler.
   */
  lemma CommentDefaultNotForwarded(content: string)
    ensures var body := JObject(map["content" := JString(content)]);
      Validate(CreateCommentSchema, body) == Next(body) && "ranking" !in body.fields
  {
    CommentSchemas.RankingDefaults(content);
  }

  /** A comment ranked 6 is answered with 400 and the upper bound's message */
  lemma CommentRankingSixRejected(content: string)
    ensures Validate(CreateCommentSchema, JObject(map["content" := JString(content), "ranking" := JNumber(6.0)])) ==
      Reply(Envelope.SendError(Prefix + "ranking" + ": " + "Number must be less than or equal to 5", Some(400)))
  {
    CommentSchemas.RankingBounds(content, 6.0);
    var issues := [Issue(["ranking"], "Number must be less than or equal to 5")];
    assert CreateCommentSchema(JObject(map["content" := JString(content), "ranking" := JNumber(6.0)])) == Completed(Failed(issues));
    SingleKeyRendering("ranking", "Number must be less than or equal to 5");
  }
}
