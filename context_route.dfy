/**
 * The workflow-context endpoint (web/app/api/context/route.ts): GET returns
 * the stored context text of the workflow named by the query, POST stores a
 * non-blank one. Nothing here is inside a `try`, so whatever the body
 * parser or the file store throws rejects the handler.
 */
module ContextRoute {
  import opened Wrappers
  import opened JsonValue
  import opened Http
  import Text

  const EmptyContextMessage := "context は空にできません"

  /** GET: the stored text, as read, under `content`. */
  function HandleGet(query: Option<string>, read: string -> Result<string, Thrown>): (o: Outcome)
    ensures !IsValidWorkflowName(WorkflowName(query)) ==>
      o == Outcome(Responded(InvalidWorkflowResponse()), [])
    ensures IsValidWorkflowName(WorkflowName(query)) ==>
      && o.accesses == [ReadFile(WorkflowName(query))]
      && (read(WorkflowName(query)).Failure? ==> o.handled == Rejected(read(WorkflowName(query)).error))
      && (read(WorkflowName(query)).Success? ==>
            o.handled == Responded(Response(200, JObject(map["content" := JString(read(WorkflowName(query)).value)]))))
  {
    var workflow := WorkflowName(query);
    if !IsValidWorkflowName(workflow) then Outcome(Responded(InvalidWorkflowResponse()), [])
    else
      match read(workflow)
      case Failure(t) => Outcome(Rejected(t), [ReadFile(workflow)])
      case Success(content) => Outcome(Responded(JsonResponse(JObject(map["content" := JString(content)]))), [ReadFile(workflow)])
  }

  /** `typeof body.content === "string" && body.content.trim()`: the posted content, when it is a non-blank string. */
  function PostedContent(body: Json): (r: Option<string>)
    ensures r.Some? <==> Get(body, "content").Some? && Get(body, "content").value.JString? && !Text.IsBlank(Get(body, "content").value.s)
    ensures r.Some? ==> r.value == body.fields["content"].s
  {
    match Get(body, "content")
    case Some(JString(s)) => if Text.IsBlank(s) then None else Some(s)
    case _ => None
  }

  /** POST: a non-blank string `content` is stored unchanged and answered with `{ ok: true }`; anything else is a 400 and nothing is stored. */
  function HandlePost(query: Option<string>, body: Result<Json, Thrown>, write: (string, string) -> Effect): (o: Outcome)
    ensures !IsValidWorkflowName(WorkflowName(query)) ==>
      o == Outcome(Responded(InvalidWorkflowResponse()), [])
    ensures o.accesses != [] <==>
      IsValidWorkflowName(WorkflowName(query)) && body.Success? && body.value != JNull && PostedContent(body.value).Some?
    ensures o.accesses != [] ==>
      o.accesses == [WriteFile(WorkflowName(query), PostedContent(body.value).value)]
    ensures o.handled == Responded(Response(200, OkBody)) <==>
      o.accesses != [] && write(WorkflowName(query), PostedContent(body.value).value).None?
  {
    var workflow := WorkflowName(query);
    if !IsValidWorkflowName(workflow) then Outcome(Responded(InvalidWorkflowResponse()), [])
    else
      match body
      case Failure(t) => Outcome(Rejected(t), [])
      case Success(b) =>
        if b == JNull then Outcome(Rejected(NullPropertyRead("content")), [])
        else
          match PostedContent(b)
          case None => Outcome(Responded(ErrorResponse(EmptyContextMessage, 400)), [])
          case Some(content) =>
            match write(workflow, content)
            case None => Outcome(Responded(JsonResponse(OkBody)), [WriteFile(workflow, content)])
            case Some(t) => Outcome(Rejected(t), [WriteFile(workflow, content)])
  }

  /** A missing `content`, one that is not a string, or whitespace-only content is refused with 400 and nothing stored. */
  lemma PostRejectsBlankContent(query: Option<string>, body: Json, write: (string, string) -> Effect)
    requires IsValidWorkflowName(WorkflowName(query))
    requires body != JNull
    requires || Get(body, "content").None?
             || !Get(body, "content").value.JString?
             || forall i :: 0 <= i < |Get(body, "content").value.s| ==> Text.IsWhitespace(Get(body, "content").value.s[i])
    ensures PostedContent(body).None?
    ensures HandlePost(query, Success(body), write) == Outcome(Responded(ErrorResponse(EmptyContextMessage, 400)), [])
  {
    if Get(body, "content").Some? && Get(body, "content").value.JString? {
      Text.BlankIffAllWhitespace(Get(body, "content").value.s);
    }
  }

  /** Content with surrounding whitespace is stored as posted, not trimmed. */
  lemma PostKeepsContentUntrimmed(query: Option<string>, write: (string, string) -> Effect)
    requires IsValidWorkflowName(WorkflowName(query))
    ensures HandlePost(query, Success(JObject(map["content" := JString(" x\n")])), write).accesses
      == [WriteFile(WorkflowName(query), " x\n")]
  {
    var body := JObject(map["content" := JString(" x\n")]);
    Text.NotBlankAt(" x\n", 1);
    assert PostedContent(body) == Some(" x\n");
    assert HandlePost(query, Success(body), write).accesses != [];
  }
}
