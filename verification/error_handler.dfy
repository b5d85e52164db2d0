/** The HTTP error handler: every error that reaches the framework is turned
    into a status code and a JSON body, by the first of four rules that
    applies: a framework validation error, a `BadRequestError`, a `ZodError`,
    and everything else. */
module ErrorHandler {
  import opened Wrappers
  import opened Text
  import opened Json
  import opened Zod
  import opened Errors

  /** The reply sent: a status code and a JSON body. */
  datatype Reply = Reply(status: int, body: Json)

  const InternalErrorMessage: string := "Internal server error."
  const ValidationPrefix: string := "Error validating request "

  /** `{ message }`. */
  function MessageBody(message: string): Json {
    JObj(map["message" := JStr(message)])
  }

  /** `${validationContext}`: a missing context prints as `undefined`. */
  function ContextText(context: Option<string>): string {
    context.GetOr("undefined")
  }

  /** The line of one issue: its path joined with dots, then its message. */
  function IssueLine(issue: Issue): string {
    PathString(issue.path) + ": " + Message(issue.code)
  }

  function IssueLines(issues: seq<Issue>): (lines: seq<string>)
    ensures |lines| == |issues|
    ensures forall k :: 0 <= k < |issues| ==> lines[k] == IssueLine(issues[k])
  {
    if |issues| == 0 then [] else [IssueLine(issues[0])] + IssueLines(issues[1..])
  }

  /** The message of a ZodError reply: one line per issue, in issue order. */
  function ZodMessage(issues: seq<Issue>): string {
    Join(IssueLines(issues), "\n")
  }

  /** Which rule answers an error. */
  datatype Rule = ValidationRule | BadRequestRule | ZodRule | FallbackRule

  /** The first rule that applies, checked in the handler's order. A
      `validation` list, even an empty one, is truthy; `NotFound` is a plain
      `Error` and falls through to the last rule. */
  function RuleOf(e: Error): (r: Rule)
    ensures r == ValidationRule <==> e.validation.Some?
    ensures r == BadRequestRule <==> e.validation.None? && e.kind.BadRequestError?
    ensures r == ZodRule <==> e.validation.None? && e.kind.ZodError?
    ensures r == FallbackRule <==> e.validation.None? && !e.kind.BadRequestError? && !e.kind.ZodError?
  {
    if e.validation.Some? then ValidationRule
    else if e.kind.BadRequestError? then BadRequestRule
    else if e.kind.ZodError? then ZodRule
    else FallbackRule
  }

  /** `errorHandler(error)`. */
  function HandleError(e: Error): (r: Reply)
    ensures RuleOf(e) == ValidationRule ==>
      r == Reply(e.statusCode.GetOr(400), JObj(map[
        "message" := JStr(ValidationPrefix + ContextText(e.validationContext)),
        "errors" := JArr(e.validation.value)]))
    ensures RuleOf(e) == BadRequestRule ==> r == Reply(400, MessageBody(e.message))
    ensures RuleOf(e) == ZodRule ==> r == Reply(e.statusCode.GetOr(400), MessageBody(ZodMessage(e.kind.issues)))
    ensures RuleOf(e) == FallbackRule ==> r == Reply(500, MessageBody(InternalErrorMessage))
  {
    match RuleOf(e)
    case ValidationRule =>
      Reply(e.statusCode.GetOr(400), JObj(map[
        "message" := JStr(ValidationPrefix + ContextText(e.validationContext)),
        "errors" := JArr(e.validation.value)]))
    case BadRequestRule => Reply(400, MessageBody(e.message))
    case ZodRule => Reply(e.statusCode.GetOr(400), MessageBody(ZodMessage(e.kind.issues)))
    case FallbackRule => Reply(500, MessageBody(InternalErrorMessage))
  }

  /** Without a status code or validation list of its own, an error is a
      client error (400) exactly when it is a `BadRequestError` or a
      `ZodError`, and a server error (500) otherwise. */
  lemma ClientErrorIff(e: Error)
    requires e.statusCode.None? && e.validation.None?
    ensures HandleError(e).status == 400 <==> e.kind.BadRequestError? || e.kind.ZodError?
    ensures HandleError(e).status == 500 <==> !(e.kind.BadRequestError? || e.kind.ZodError?)
  {
  }

  /** A missing record is answered as an internal error, not as 404. */
  lemma NotFoundIsInternal()
    ensures HandleError(NotFound()) == Reply(500, MessageBody(InternalErrorMessage))
  {
  }

  /** The validation rule comes first: an error that carries a validation
      list is answered by it whatever its class, and the ZodError rule only
      sees errors without one. */
  lemma ValidationComesFirst(e: Error, issues: seq<Issue>)
    requires e.validation.Some?
    ensures HandleError(e) == HandleError(e.(kind := BadRequestError))
    ensures HandleError(e) == HandleError(e.(kind := ZodError(issues)))
    ensures HandleError(e).body.fields["errors"] == JArr(e.validation.value)
  {
  }

  /** A ZodError's message splits back on `\n` into one line per issue, in
      issue order, each the issue's dotted path, `": "` and its message, when
      no line itself contains a line break. */
  lemma ZodMessageLines(issues: seq<Issue>)
    requires |issues| > 0
    requires forall k :: 0 <= k < |issues| ==> '\n' !in IssueLine(issues[k])
    ensures |Split(ZodMessage(issues), "\n")| == |issues|
    ensures forall k :: 0 <= k < |issues| ==>
      Split(ZodMessage(issues), "\n")[k] == PathString(issues[k].path) + ": " + Message(issues[k].code)
  {
    var lines := IssueLines(issues);
    SplitJoin(lines, '\n');
  }

  /** The message of a non-positive page. */
  lemma PageMessage()
    ensures ZodMessage([Issue([Key("page")], NotPositive)]) == "page: " + NotPositiveMessage
  {
    var issue := Issue([Key("page")], NotPositive);
    assert PathString(issue.path) == "page" by {
      assert SegmentStrings(issue.path) == ["page"];
    }
    assert ZodMessage([issue]) == IssueLine(issue) by {
      assert IssueLines([issue]) == [IssueLine(issue)];
    }
    assert "page" + ": " == "page: ";
  }

  /** The parse failure of a query with a bad page: the reply is a 400 whose
      message names the field. */
  lemma ZodReplyExample()
    ensures HandleError(ZodFailure([Issue([Key("page")], NotPositive)])) ==
      Reply(400, MessageBody("page: " + NotPositiveMessage))
  {
    var e := ZodFailure([Issue([Key("page")], NotPositive)]);
    PageMessage();
    assert RuleOf(e) == ZodRule;
  }
}
