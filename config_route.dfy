/**
 * The workflow-config endpoint (web/app/api/config/route.ts): GET returns
 * the stored config of the workflow named by the query, POST stores the
 * posted one. The file store and the YAML library are parameters.
 */
module ConfigRoute {
  import opened Wrappers
  import opened JsonValue
  import opened Http
  import Text

  /** `{ model: "", reviews: [] }`, the config of a workflow with nothing stored. */
  const EmptyConfigJson := JObject(map["model" := JString(""), "reviews" := JArray([])])

  const SaveFailedMessage := "workflow 設定の保存に失敗しました"

  function ConfigBody(config: Json): Json {
    JObject(map["config" := config])
  }

  /**
   * GET. `read` is the stored text of a workflow's config (or what reading
   * throws), `parseYaml` is `YAML.parse` (or what it throws). Blank text
   * stands for the empty config, and so does a document that parses to null.
   */
  function HandleGet(query: Option<string>, read: string -> Result<string, Thrown>, parseYaml: string -> Result<Json, Thrown>): (o: Outcome)
    ensures !IsValidWorkflowName(WorkflowName(query)) ==>
      o == Outcome(Responded(InvalidWorkflowResponse()), [])
    ensures IsValidWorkflowName(WorkflowName(query)) ==>
      o.accesses == [ReadFile(WorkflowName(query))]
    ensures o.handled.Responded? && o.handled.response.status == 200 ==>
      && IsValidWorkflowName(WorkflowName(query))
      && read(WorkflowName(query)).Success?
      && o.handled.response.body.JObject?
      && "config" in o.handled.response.body.fields
      && o.handled.response.body.fields["config"] != JNull
  {
    var workflow := WorkflowName(query);
    if !IsValidWorkflowName(workflow) then Outcome(Responded(InvalidWorkflowResponse()), [])
    else
      var accesses := [ReadFile(workflow)];
      match read(workflow)
      case Failure(t) => Outcome(Rejected(t), accesses)
      case Success(content) =>
        if Text.IsBlank(content) then Outcome(Responded(JsonResponse(ConfigBody(EmptyConfigJson))), accesses)
        else
          match parseYaml(content)
          case Failure(t) => Outcome(Rejected(t), accesses)
          case Success(config) =>
            var c := if config == JNull then EmptyConfigJson else config;
            Outcome(Responded(JsonResponse(ConfigBody(c))), accesses)
  }

  /** Blank stored text answers the empty config without consulting the YAML parser. */
  lemma GetBlankIsEmptyConfig(query: Option<string>, read: string -> Result<string, Thrown>, parseYaml: string -> Result<Json, Thrown>)
    requires IsValidWorkflowName(WorkflowName(query))
    requires read(WorkflowName(query)).Success? && Text.IsBlank(read(WorkflowName(query)).value)
    ensures HandleGet(query, read, parseYaml).handled == Responded(Response(200, ConfigBody(EmptyConfigJson)))
  {
  }

  /** Non-blank text is answered with exactly what the parser made of it, unless that is null. */
  lemma GetReturnsParsedConfig(query: Option<string>, read: string -> Result<string, Thrown>, parseYaml: string -> Result<Json, Thrown>)
    requires IsValidWorkflowName(WorkflowName(query))
    requires read(WorkflowName(query)).Success? && !Text.IsBlank(read(WorkflowName(query)).value)
    ensures var parsed := parseYaml(read(WorkflowName(query)).value);
      && (parsed.Failure? ==> HandleGet(query, read, parseYaml).handled == Rejected(parsed.error))
      && (parsed.Success? ==>
            HandleGet(query, read, parseYaml).handled
              == Responded(Response(200, ConfigBody(if parsed.value == JNull then EmptyConfigJson else parsed.value))))
  {
  }

  /**
   * POST. `body` is `request.json()` (or what it throws), `stringify` is
   * `YAML.stringify`, `write` stores a workflow's config text. Everything
   * after the name check runs inside one `try`: whatever is thrown there
   * becomes a 400 with the error's message, or a fixed one for a non-error.
   */
  function HandlePost(query: Option<string>, body: Result<Json, Thrown>, stringify: Json -> string, write: (string, string) -> Effect): (o: Outcome)
    ensures !IsValidWorkflowName(WorkflowName(query)) ==>
      o == Outcome(Responded(InvalidWorkflowResponse()), [])
    ensures o.handled.Responded?
    ensures o.handled.response.status == 200 || o.handled.response.status == 400
    ensures o.handled.response.status == 200 <==>
      && IsValidWorkflowName(WorkflowName(query))
      && body.Success? && body.value != JNull
      && write(WorkflowName(query), stringify(GetOrDefault(body.value, "config", EmptyConfigJson))).None?
    ensures IsValidWorkflowName(WorkflowName(query)) && body.Failure? ==>
      o == Outcome(Responded(ErrorResponse(MessageOr(body.error, SaveFailedMessage), 400)), [])
    ensures IsValidWorkflowName(WorkflowName(query)) && body == Success(JNull) ==>
      o == Outcome(Responded(ErrorResponse(MessageOr(NullPropertyRead("config"), SaveFailedMessage), 400)), [])
    ensures IsValidWorkflowName(WorkflowName(query)) && body.Success? && body.value != JNull ==>
      o.accesses == [WriteFile(WorkflowName(query), stringify(GetOrDefault(body.value, "config", EmptyConfigJson)))]
    ensures |o.accesses| <= 1
  {
    var workflow := WorkflowName(query);
    if !IsValidWorkflowName(workflow) then Outcome(Responded(InvalidWorkflowResponse()), [])
    else
      match body
      case Failure(t) => Outcome(Responded(ErrorResponse(MessageOr(t, SaveFailedMessage), 400)), [])
      case Success(b) =>
        if b == JNull then
          Outcome(Responded(ErrorResponse(MessageOr(NullPropertyRead("config"), SaveFailedMessage), 400)), [])
        else
          var config := GetOrDefault(b, "config", EmptyConfigJson);
          var yaml := stringify(config);
          var accesses := [WriteFile(workflow, yaml)];
          match write(workflow, yaml)
          case None => Outcome(Responded(JsonResponse(OkBody)), accesses)
          case Some(t) => Outcome(Responded(ErrorResponse(MessageOr(t, SaveFailedMessage), 400)), accesses)
  }

  /** A body without a `config` (or with `config: null`) stores the empty config. */
  lemma PostWithoutConfigStoresEmpty(query: Option<string>, body: Json, stringify: Json -> string, write: (string, string) -> Effect)
    requires IsValidWorkflowName(WorkflowName(query))
    requires body != JNull
    requires Get(body, "config").None? || Get(body, "config") == Some(JNull)
    ensures HandlePost(query, Success(body), stringify, write).accesses == [WriteFile(WorkflowName(query), stringify(EmptyConfigJson))]
  {
  }

  /** A posted config is stored exactly as posted: the endpoint does not validate it against the config schema. */
  lemma PostStoresConfigUnchecked(query: Option<string>, config: Json, stringify: Json -> string, write: (string, string) -> Effect)
    requires IsValidWorkflowName(WorkflowName(query))
    requires config != JNull
    ensures HandlePost(query, Success(ConfigBody(config)), stringify, write).accesses == [WriteFile(WorkflowName(query), stringify(config))]
  {
    assert Get(ConfigBody(config), "config") == Some(config);
    assert GetOrDefault(ConfigBody(config), "config", EmptyConfigJson) == config;
  }

  /** A failed store answers 400 with the error's message, or the fixed message when a non-error was thrown. */
  lemma PostWriteFailure(query: Option<string>, body: Json, stringify: Json -> string, write: (string, string) -> Effect)
    requires IsValidWorkflowName(WorkflowName(query))
    requires body != JNull
    requires write(WorkflowName(query), stringify(GetOrDefault(body, "config", EmptyConfigJson))).Some?
    ensures var t := write(WorkflowName(query), stringify(GetOrDefault(body, "config", EmptyConfigJson))).value;
      HandlePost(query, Success(body), stringify, write).handled == Responded(ErrorResponse(MessageOr(t, SaveFailedMessage), 400))
    ensures write(WorkflowName(query), stringify(GetOrDefault(body, "config", EmptyConfigJson))) == Some(NonErrorValue) ==>
      HandlePost(query, Success(body), stringify, write).handled == Responded(ErrorResponse(SaveFailedMessage, 400))
  {
  }
}
