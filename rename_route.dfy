/**
 * The workflow-rename endpoint (web/app/api/workflows/rename/route.ts):
 * trim `from` and `to`, refuse a missing one, rename, and map a failure to
 * 409 (the target exists) or 400.
 */
module RenameRoute {
  import opened Wrappers
  import opened JsonValue
  import opened Http
  import Text

  const MissingNamesMessage := "from と to の workflow 名が必要です"
  const RenameFailedMessage := "workflow 名の変更に失敗しました"
  /** The phrase the store's error uses when the target name is taken. */
  const AlreadyExists := "すでに存在します"

  /**
   * `body.key?.trim()`: absent or null give no name, a string gives its
   * trim, and any other value has no `trim` method, so the call throws.
   */
  function TrimmedField(body: Json, key: string): (r: Result<Option<string>, Thrown>)
    ensures r.Success? <==> Get(body, key).None? || Get(body, key) == Some(JNull) || Get(body, key).value.JString?
    ensures r.Success? && r.value.Some? ==>
      Get(body, key).Some? && Get(body, key).value.JString? && r.value.value == Text.Trim(Get(body, key).value.s)
  {
    match Get(body, key)
    case None => Success(None)
    case Some(JNull) => Success(None)
    case Some(JString(s)) => Success(Some(Text.Trim(s)))
    case Some(_) => Failure(RuntimeTypeError("body." + key + "?.trim is not a function"))
  }

  /** `message.includes("すでに存在します") ? 409 : 400`. */
  function StatusFor(message: string): (status: int)
    ensures status == 409 <==> Text.Contains(message, AlreadyExists)
    ensures status == 409 || status == 400
  {
    if Text.Contains(message, AlreadyExists) then 409 else 400
  }

  /** Both names are present, strings and non-blank once trimmed; `from` and `to` are the trimmed names. */
  predicate NamesGiven(body: Json, from: string, to: string) {
    && body != JNull
    && TrimmedField(body, "from") == Success(Some(from))
    && TrimmedField(body, "to") == Success(Some(to))
    && from != "" && to != ""
  }

  /** The answer to an attempted rename: the target echoed on success, otherwise the error's message (or the fallback) with the status it selects. */
  function RenameAnswer(e: Effect, to: string): Handled {
    match e
    case None => Responded(JsonResponse(JObject(map["ok" := JBool(true), "workflow" := JString(to)])))
    case Some(t) =>
      var message := MessageOr(t, RenameFailedMessage);
      Responded(ErrorResponse(message, StatusFor(message)))
  }

  /** POST. `body` is `request.json()` (or what it throws), `rename` moves a workflow's files. Only the rename is inside the `try`. */
  function HandlePost(body: Result<Json, Thrown>, rename: (string, string) -> Effect): (o: Outcome)
    ensures o.accesses != [] ==>
      && body.Success? && body.value != JNull
      && TrimmedField(body.value, "from").Success? && TrimmedField(body.value, "from").value.Some?
      && TrimmedField(body.value, "to").Success? && TrimmedField(body.value, "to").value.Some?
      && var from := TrimmedField(body.value, "from").value.value;
         var to := TrimmedField(body.value, "to").value.value;
         && from != "" && to != ""
         && o.accesses == [RenameFiles(from, to)]
    ensures o.handled.Responded? && o.handled.response.status == 200 ==>
      && o.accesses != []
      && o.handled.response.body == JObject(map["ok" := JBool(true), "workflow" := JString(o.accesses[0].to)])
    ensures forall from, to | body.Success? && NamesGiven(body.value, from, to) ::
      && o.accesses == [RenameFiles(from, to)]
      && o.handled == RenameAnswer(rename(from, to), to)
  {
    match body
    case Failure(t) => Outcome(Rejected(t), [])
    case Success(b) =>
      if b == JNull then Outcome(Rejected(NullPropertyRead("from")), [])
      else
        match TrimmedField(b, "from")
        case Failure(t) => Outcome(Rejected(t), [])
        case Success(from) =>
          match TrimmedField(b, "to")
          case Failure(t) => Outcome(Rejected(t), [])
          case Success(to) =>
            if from.None? || from.value == "" || to.None? || to.value == "" then
              Outcome(Responded(ErrorResponse(MissingNamesMessage, 400)), [])
            else
              Outcome(RenameAnswer(rename(from.value, to.value), to.value), [RenameFiles(from.value, to.value)])
  }

  /**
   * A body whose `from` or `to` is absent, null or blank after trimming is
   * refused with 400 and no rename is attempted, whatever other keys it has.
   */
  lemma MissingNameRefused(body: Json, rename: (string, string) -> Effect)
    requires body != JNull
    requires TrimmedField(body, "from").Success? && TrimmedField(body, "to").Success?
    requires var from := TrimmedField(body, "from").value;
      var to := TrimmedField(body, "to").value;
      from.None? || from.value == "" || to.None? || to.value == ""
    ensures HandlePost(Success(body), rename) == Outcome(Responded(ErrorResponse(MissingNamesMessage, 400)), [])
  {
  }

  /**
   * For any non-null body, whatever other keys it has: string names that are
   * not blank are trimmed before the rename, and success echoes the trimmed
   * target. The names are not checked against the workflow-name pattern.
   */
  lemma RenameUsesTrimmedNames(body: Json, from: string, to: string, rename: (string, string) -> Effect)
    requires body != JNull
    requires Get(body, "from") == Some(JString(from)) && Get(body, "to") == Some(JString(to))
    requires !Text.IsBlank(from) && !Text.IsBlank(to)
    ensures var o := HandlePost(Success(body), rename);
      && o.accesses == [RenameFiles(Text.Trim(from), Text.Trim(to))]
      && (rename(Text.Trim(from), Text.Trim(to)).None? ==>
            o.handled == Responded(Response(200, JObject(map["ok" := JBool(true), "workflow" := JString(Text.Trim(to))]))))
  {
    assert NamesGiven(body, Text.Trim(from), Text.Trim(to));
  }

  /**
   * For any non-null body with both trimmed names: a failed rename answers
   * with the error's message (or the fixed fallback for a non-error), 409
   * exactly when that message mentions that the target exists, and 400
   * otherwise.
   */
  lemma RenameFailureStatus(body: Json, from: string, to: string, rename: (string, string) -> Effect)
    requires body != JNull
    requires TrimmedField(body, "from") == Success(Some(from)) && TrimmedField(body, "to") == Success(Some(to))
    requires from != "" && to != ""
    requires rename(from, to).Some?
    ensures var t := rename(from, to).value;
      var message := MessageOr(t, RenameFailedMessage);
      var o := HandlePost(Success(body), rename);
      && o.accesses == [RenameFiles(from, to)]
      && o.handled == Responded(ErrorResponse(message, StatusFor(message)))
      && (t.ErrorObject? ==> (o.handled.response.status == 409 <==> Text.Contains(t.message, AlreadyExists)))
      && (t == NonErrorValue ==> o.handled == Responded(ErrorResponse(RenameFailedMessage, 400)))
  {
    assert NamesGiven(body, from, to);
    FallbackIsNotConflict();
  }

  /** The fixed fallback message does not mention an existing target. */
  lemma FallbackIsNotConflict()
    ensures !Text.Contains(RenameFailedMessage, AlreadyExists)
  {
    assert AlreadyExists[0] !in RenameFailedMessage;
    if Text.Contains(RenameFailedMessage, AlreadyExists) {
      Text.ContainsFirstChar(RenameFailedMessage, AlreadyExists);
      assert false;
    }
  }
}
