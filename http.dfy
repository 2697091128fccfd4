/**
 * What the web API routes share: a JSON response with a status, what a
 * handler throws, the outcome of a handler together with the file accesses
 * it made, and the `workflow` query parameter rule of
 * web/app/api/config/route.ts and web/app/api/context/route.ts.
 */
module Http {
  import opened Wrappers
  import opened JsonValue
  import Text
  import Config

  /** `NextResponse.json(body, { status })`; the status defaults to 200. */
  datatype Response = Response(status: int, body: Json)

  /**
   * A value a handler throws: an `Error` with its message, a `TypeError`
   * raised by the runtime (for instance on a property read of `null`), or
   * any other value.
   */
  datatype Thrown = ErrorObject(message: string) | RuntimeTypeError(message: string) | NonErrorValue

  /** A handler either resolves with a response or rejects with what it threw (the framework then answers on its own). */
  datatype Handled = Responded(response: Response) | Rejected(thrown: Thrown)

  /** A file operation a handler performed, named by workflow. */
  datatype FileAccess = ReadFile(workflow: string) | WriteFile(workflow: string, content: string) | RenameFiles(from: string, to: string)

  /** What a handler did: how it ended, and the file operations it started, in order. */
  datatype Outcome = Outcome(handled: Handled, accesses: seq<FileAccess>)

  /** A file operation: `None` when it completed, or what it threw. */
  type Effect = Option<Thrown>

  function JsonResponse(body: Json): Response {
    Response(200, body)
  }

  function ErrorResponse(message: string, status: int): Response {
    Response(status, JObject(map["error" := JString(message)]))
  }

  const OkBody := JObject(map["ok" := JBool(true)])

  /** `error instanceof Error ? error.message : fallback`. */
  function MessageOr(t: Thrown, fallback: string): string {
    match t
    case ErrorObject(m) => m
    case RuntimeTypeError(m) => m
    case NonErrorValue => fallback
  }

  /** The `TypeError` the runtime throws when a handler reads `key` of a JSON `null` body. */
  function NullPropertyRead(key: string): Thrown {
    RuntimeTypeError("Cannot read properties of null (reading '" + key + "')")
  }

  const InvalidWorkflowMessage := "workflow名は英数字・ハイフン・アンダースコアのみ使用できます"

  /** `getWorkflowName`: the trimmed `workflow` query parameter, or "default" when it is absent or blank. */
  function WorkflowName(query: Option<string>): (name: string)
    ensures query.None? || Text.IsBlank(query.value) ==> name == "default"
    ensures query.Some? && !Text.IsBlank(query.value) ==> name == Text.Trim(query.value)
    ensures name != "" && Text.Trim(name) == name
  {
    if query.Some? && Text.Trim(query.value) != "" then
      Text.TrimIdempotent(query.value);
      Text.Trim(query.value)
    else
      assert Text.Trim("default") == "default";
      "default"
  }

  /** `isValidWorkflowName`: `WORKFLOW_NAME_PATTERN.test`, the same pattern as the core's workflow-name schema. */
  predicate IsValidWorkflowName(workflow: string) {
    Config.MatchesNamePattern(workflow)
  }

  /** The routes' check and the core's schema accept the same names. */
  lemma RouteCheckIsCoreSchema(workflow: string)
    ensures IsValidWorkflowName(workflow) <==> Config.ValidWorkflowName(workflow)
  {
  }

  /** The fallback name passes the check, so a request without a `workflow` parameter (or with a blank one) is never refused for its name. */
  lemma DefaultNeverRefused(query: Option<string>)
    requires query.None? || Text.IsBlank(query.value)
    ensures IsValidWorkflowName(WorkflowName(query))
  {
    Config.DefaultNameValid();
  }

  /** A parameter with whitespace or a separator inside (after trimming) is refused. */
  lemma InnerSpaceRefused()
    ensures !IsValidWorkflowName(WorkflowName(Some(" a b ")))
    ensures !IsValidWorkflowName(WorkflowName(Some("../x")))
  {
    assert Text.Trim(" a b ") == "a b" by {
      assert Text.TrimStart(" a b ") == "a b ";
      assert Text.TrimEnd("a b ") == "a b";
    }
    assert Text.Trim("../x") == "../x" by {
      assert Text.TrimStart("../x") == "../x";
    }
    Config.NamePatternIffNameChars("a b");
    Config.NamePatternIffNameChars("../x");
    assert !Config.IsNameChar("a b"[1]);
    assert !Config.IsNameChar("../x"[0]);
  }

  /** The refusal shared by every workflow route. */
  function InvalidWorkflowResponse(): (r: Response)
    ensures r.status == 400
  {
    ErrorResponse(InvalidWorkflowMessage, 400)
  }
}
