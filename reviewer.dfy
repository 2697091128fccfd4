/**
 * The review engine (core/src/reviewer.ts): the schema of the service's
 * answer, the threshold filter, the prompt assembly, one step, and the
 * step loop that stops at the first step with a flagged finding.
 */
module Reviewer {
  import opened Wrappers
  import opened JsonValue
  import opened Types
  import opened Files
  import opened Errors
  import Text
  import Config

  // ---------------------------------------------------------------------
  // The structured answer

  /** One item of the answer after validation. */
  datatype ReviewItem = ReviewItem(review: string, score: int, filePath: string, line: int)

  predicate IsIntegerAtLeast(j: Json, lo: real) {
    j.JNumber? && IsInteger(j.n) && lo <= j.n
  }

  /** `reviewItemSchema`: string `review` and `filePath`, integer `score` in 0..100, integer `line` of at least 1. Other keys are ignored. */
  predicate ItemValid(j: Json) {
    && j.JObject?
    && "review" in j.fields && j.fields["review"].JString?
    && "score" in j.fields && IsIntegerAtLeast(j.fields["score"], 0.0) && j.fields["score"].n <= 100.0
    && "filePath" in j.fields && j.fields["filePath"].JString?
    && "line" in j.fields && IsIntegerAtLeast(j.fields["line"], 1.0)
  }

  /** `reviewResultSchema`: an object whose `results` is an array of valid items. */
  predicate ResultsValid(j: Json) {
    && j.JObject?
    && "results" in j.fields && j.fields["results"].JArray?
    && forall i :: 0 <= i < |j.fields["results"].items| ==> ItemValid(j.fields["results"].items[i])
  }

  /** The item shape of the JSON schema passed to the service as `outputSchema`: exactly the four keys, integer `score` in 0..100, integer `line` with no minimum. */
  predicate OutputSchemaAllowsItem(j: Json) {
    && j.JObject?
    && j.fields.Keys == {"review", "score", "filePath", "line"}
    && j.fields["review"].JString?
    && IsIntegerAtLeast(j.fields["score"], 0.0) && j.fields["score"].n <= 100.0
    && j.fields["filePath"].JString?
    && j.fields["line"].JNumber? && IsInteger(j.fields["line"].n)
  }

  /** The schema sent to the service and the one its answer is checked against disagree both ways: line 0 is allowed by the first and rejected by the second, an extra key the other way round. */
  lemma OutputSchemaAndValidatorDiffer()
    ensures var lineZero := JObject(map["review" := JString("r"), "score" := JNumber(90.0), "filePath" := JString("a.ts"), "line" := JNumber(0.0)]);
      OutputSchemaAllowsItem(lineZero) && !ItemValid(lineZero)
    ensures var extra := JObject(map["review" := JString("r"), "score" := JNumber(90.0), "filePath" := JString("a.ts"), "line" := JNumber(1.0), "note" := JString("")]);
      !OutputSchemaAllowsItem(extra) && ItemValid(extra)
  {
    var lineZero := JObject(map["review" := JString("r"), "score" := JNumber(90.0), "filePath" := JString("a.ts"), "line" := JNumber(0.0)]);
    assert lineZero.fields.Keys == {"review", "score", "filePath", "line"};
    var extra := JObject(map["review" := JString("r"), "score" := JNumber(90.0), "filePath" := JString("a.ts"), "line" := JNumber(1.0), "note" := JString("")]);
    assert "note" in extra.fields.Keys;
  }

  function ItemFromJson(j: Json): (item: ReviewItem)
    requires ItemValid(j)
    ensures 0 <= item.score <= 100 && item.line >= 1
    ensures item.score as real == j.fields["score"].n && item.line as real == j.fields["line"].n
    ensures item.review == j.fields["review"].s && item.filePath == j.fields["filePath"].s
  {
    ReviewItem(j.fields["review"].s, j.fields["score"].n.Floor, j.fields["filePath"].s, j.fields["line"].n.Floor)
  }

  /** `Array.isArray(raw) ? { results: raw } : raw`. */
  function Normalize(raw: Json): Json {
    if raw.JArray? then JObject(map["results" := raw]) else raw
  }

  /** `reviewResultSchema.parse(normalize(raw)).results`, or the schema error. */
  function ParseResponse(raw: Json): (r: Result<seq<ReviewItem>, Error>)
    ensures r.Success? <==> ResultsValid(Normalize(raw))
    ensures r.Success? ==>
      var items := Normalize(raw).fields["results"].items;
      |r.value| == |items| && forall i :: 0 <= i < |items| ==> r.value[i] == ItemFromJson(items[i])
    ensures r.Failure? ==> r.error == ResponseSchemaViolation
  {
    var n := Normalize(raw);
    if ResultsValid(n) then
      var items := n.fields["results"].items;
      Success(seq(|items|, i requires 0 <= i < |items| => ItemFromJson(items[i])))
    else
      Failure(ResponseSchemaViolation)
  }

  /** A bare array is read exactly as the same array under a `results` key. */
  lemma BareArrayReadAsEnvelope(items: seq<Json>)
    ensures ParseResponse(JArray(items)) == ParseResponse(JObject(map["results" := JArray(items)]))
  {
  }

  /** One item outside the schema fails the whole answer: a score above 100 or below 0, a fractional score, a line below 1 (0 included) or a fractional line. */
  lemma OneBadItemFailsAll(items: seq<Json>, k: nat)
    requires k < |items| && items[k].JObject? && "line" in items[k].fields && "score" in items[k].fields
    requires var f := items[k].fields;
      || f["score"] == JNumber(101.0) || f["score"] == JNumber(-1.0) || f["score"] == JNumber(90.5)
      || f["line"] == JNumber(0.0) || f["line"] == JNumber(2.5)
    ensures ParseResponse(JArray(items)) == Failure(ResponseSchemaViolation)
  {
    assert !ItemValid(items[k]);
  }

  // ---------------------------------------------------------------------
  // Threshold filter

  /** The finding a surviving item becomes, tagged with the step name. */
  function Tag(item: ReviewItem, name: string): ReviewResult {
    ReviewResult(name, item.review, item.score, item.filePath, item.line)
  }

  /** `items.filter(item => item.score > 80).map(item => tag(item))`. */
  function Flagged(items: seq<ReviewItem>, name: string): (r: seq<ReviewResult>)
    ensures |r| <= |items|
    ensures forall x :: x in r ==> x.name == name && x.score > 80
    ensures forall x :: x in r ==> exists it :: it in items && x == Tag(it, name)
  {
    if items == [] then []
    else (if items[0].score > 80 then [Tag(items[0], name)] else []) + Flagged(items[1..], name)
  }

  /** Filtering a concatenation filters each part and keeps them in order: survivors keep their relative order. */
  lemma {:induction false} FlaggedConcat(a: seq<ReviewItem>, b: seq<ReviewItem>, name: string)
    ensures Flagged(a + b, name) == Flagged(a, name) + Flagged(b, name)
  {
    if a == [] {
      assert a + b == b;
    } else {
      assert (a + b)[0] == a[0];
      assert (a + b)[1..] == a[1..] + b;
      FlaggedConcat(a[1..], b, name);
    }
  }

  /** A finding survives exactly when it comes from an item scoring above 80, its fields unchanged. */
  lemma {:induction false} FlaggedMembership(items: seq<ReviewItem>, name: string, x: ReviewResult)
    ensures x in Flagged(items, name) <==> exists i :: 0 <= i < |items| && items[i].score > 80 && x == Tag(items[i], name)
  {
    if items != [] {
      FlaggedMembership(items[1..], name, x);
      if exists i :: 0 <= i < |items[1..]| && items[1..][i].score > 80 && x == Tag(items[1..][i], name) {
        var i :| 0 <= i < |items[1..]| && items[1..][i].score > 80 && x == Tag(items[1..][i], name);
        assert items[i + 1] == items[1..][i];
      }
      if exists i :: 0 <= i < |items| && items[i].score > 80 && x == Tag(items[i], name) {
        var i :| 0 <= i < |items| && items[i].score > 80 && x == Tag(items[i], name);
        if i > 0 { assert items[1..][i - 1] == items[i]; }
      }
    }
  }

  /** The threshold is strict: a score of 80 is dropped and a score of 81 is kept. */
  lemma ThresholdIsStrict(review: string, filePath: string, line: int, name: string)
    ensures Flagged([ReviewItem(review, 80, filePath, line)], name) == []
    ensures Flagged([ReviewItem(review, 81, filePath, line)], name) == [ReviewResult(name, review, 81, filePath, line)]
  {
  }

  // ---------------------------------------------------------------------
  // Prompt assembly

  const Separator := "\n---\n"

  /** `[`# ${name}`, description].filter(Boolean).join("\n")`. */
  function Header(spec: ReviewSpec): string {
    Text.Join(Text.NonEmpty(["# " + spec.name] + (if spec.description.Some? then [spec.description.value] else [])), "\n")
  }

  /** `buildMessage`: the non-empty parts, in order, joined with newlines. */
  function BuildMessage(userPrompt: string, builtInPrompt: string, spec: ReviewSpec, input: ReviewInput): string {
    Text.Join(
      Text.NonEmpty([Header(spec), KindLine(input), input.content, Separator, builtInPrompt, Separator, userPrompt]),
      "\n")
  }

  function Optional(s: string): string {
    if s == "" then "" else "\n" + s
  }

  lemma {:induction false} NonEmptySnoc(parts: seq<string>, x: string)
    ensures Text.NonEmpty(parts + [x]) == Text.NonEmpty(parts) + (if x == "" then [] else [x])
  {
    if parts != [] {
      assert (parts + [x])[1..] == parts[1..] + [x];
      NonEmptySnoc(parts[1..], x);
    }
  }

  /** Appending a part to a joined, filtered list adds it after a newline, or nothing when the part is empty. */
  lemma JoinNonEmptySnoc(parts: seq<string>, x: string)
    requires Text.NonEmpty(parts) != []
    ensures Text.Join(Text.NonEmpty(parts + [x]), "\n") == Text.Join(Text.NonEmpty(parts), "\n") + Optional(x)
  {
    NonEmptySnoc(parts, x);
    var ne := Text.NonEmpty(parts);
    if x != "" {
      assert Text.NonEmpty(parts + [x]) == ne + [x];
      Text.JoinSnoc(ne, x, "\n");
      assert Text.Join(ne, "\n") + "\n" + x == Text.Join(ne, "\n") + ("\n" + x);
    } else {
      assert Text.NonEmpty(parts + [x]) == ne;
    }
  }

  /** The header is the title line, then the description on its own line when it is non-empty. */
  lemma HeaderLayout(spec: ReviewSpec)
    ensures Header(spec) == "# " + spec.name + (if spec.description.Some? then Optional(spec.description.value) else "")
  {
    var title := "# " + spec.name;
    assert Text.NonEmpty([title]) == [title];
    if spec.description.Some? {
      JoinNonEmptySnoc([title], spec.description.value);
    }
  }

  /** The line naming the input kind. */
  function KindLine(input: ReviewInput): (line: string)
    ensures line != ""
  {
    "入力種別: " + input.kind.Label()
  }

  /** The message in closed form: the header, then each further part on a new line in fixed order, an empty part (content or prompt) left out with its newline; the kind line and the separators are never empty, and the content is copied verbatim. */
  lemma BuildMessageLayout(userPrompt: string, builtInPrompt: string, spec: ReviewSpec, input: ReviewInput)
    ensures BuildMessage(userPrompt, builtInPrompt, spec, input)
      == Header(spec) + Optional(KindLine(input)) + Optional(input.content) + Optional(Separator)
         + Optional(builtInPrompt) + Optional(Separator) + Optional(userPrompt)
  {
    var h := Header(spec);
    HeaderLayout(spec);
    assert h != "" by { assert |h| >= 2; }
    var kind := KindLine(input);
    var p1 := [h];
    assert Text.NonEmpty(p1) == [h];
    var s1 := Text.Join(Text.NonEmpty(p1), "\n");
    assert s1 == h;
    JoinNonEmptySnoc(p1, kind);
    var p2 := p1 + [kind];
    var s2 := Text.Join(Text.NonEmpty(p2), "\n");
    assert s2 == s1 + Optional(kind);
    JoinNonEmptySnoc(p2, input.content);
    var p3 := p2 + [input.content];
    var s3 := Text.Join(Text.NonEmpty(p3), "\n");
    assert s3 == s2 + Optional(input.content);
    JoinNonEmptySnoc(p3, Separator);
    var p4 := p3 + [Separator];
    var s4 := Text.Join(Text.NonEmpty(p4), "\n");
    assert s4 == s3 + Optional(Separator);
    JoinNonEmptySnoc(p4, builtInPrompt);
    var p5 := p4 + [builtInPrompt];
    var s5 := Text.Join(Text.NonEmpty(p5), "\n");
    assert s5 == s4 + Optional(builtInPrompt);
    JoinNonEmptySnoc(p5, Separator);
    var p6 := p5 + [Separator];
    var s6 := Text.Join(Text.NonEmpty(p6), "\n");
    assert s6 == s5 + Optional(Separator);
    JoinNonEmptySnoc(p6, userPrompt);
    var p7 := p6 + [userPrompt];
    assert p7 == [h, kind, input.content, Separator, builtInPrompt, Separator, userPrompt];
  }

  // ---------------------------------------------------------------------
  // One step

  /**
   * What a step depends on beyond its inputs: the file system (prompt
   * files), the built-in prompt per input kind, the review service (a
   * fresh thread with the given model runs the message and yields its final
   * response text, or fails) and `JSON.parse` (None when it throws).
   */
  datatype Env = Env(
    fs: FileReader,
    builtInPrompt: InputKind -> Result<string, Error>,
    service: (string, string) -> Result<string, Error>,
    parseJson: string -> Option<Json>)

  /** `review.model ?? config.model`: only an absent override falls back; an empty string is kept. */
  function ResolveModel(spec: ReviewSpec, defaultModel: string): (m: string)
    ensures spec.model.None? ==> m == defaultModel
    ensures spec.model.Some? ==> m == spec.model.value
  {
    spec.model.GetOr(defaultModel)
  }

  /** `runSingleReview` on a thread started with `model`: load both prompts, ask the service, parse, validate, filter and tag. */
  function RunSingleReview(env: Env, baseDir: string, input: ReviewInput, spec: ReviewSpec, model: string)
    : (r: Result<seq<ReviewResult>, Error>)
    ensures var userPrompt := Config.LoadPrompt(env.fs, baseDir, spec.name);
      userPrompt.Failure? ==> r == Failure(userPrompt.error)
    ensures var userPrompt := Config.LoadPrompt(env.fs, baseDir, spec.name);
      var builtInPrompt := env.builtInPrompt(input.kind);
      userPrompt.Success? && builtInPrompt.Failure? ==> r == Failure(builtInPrompt.error)
    ensures var userPrompt := Config.LoadPrompt(env.fs, baseDir, spec.name);
      var builtInPrompt := env.builtInPrompt(input.kind);
      userPrompt.Success? && builtInPrompt.Success? ==>
        var response := env.service(model, BuildMessage(userPrompt.value, builtInPrompt.value, spec, input));
        && (response.Failure? ==> r == Failure(response.error))
        && (response.Success? && env.parseJson(response.value).None? ==> r == Failure(MalformedResponse))
        && (response.Success? && env.parseJson(response.value).Some? ==>
              var parsed := ParseResponse(env.parseJson(response.value).value);
              && (parsed.Failure? ==> r == Failure(parsed.error))
              && (parsed.Success? ==> r == Success(Flagged(parsed.value, spec.name))))
    ensures r.Success? ==> forall x :: x in r.value ==>
      x.name == spec.name && 80 < x.score <= 100 && x.line >= 1
  {
    var userPrompt :- Config.LoadPrompt(env.fs, baseDir, spec.name);
    var builtInPrompt :- env.builtInPrompt(input.kind);
    var response :- env.service(model, BuildMessage(userPrompt, builtInPrompt, spec, input));
    match env.parseJson(response)
    case None => Failure(MalformedResponse)
    case Some(raw) =>
      var items :- ParseResponse(raw);
      assert forall it :: it in items ==> it.score <= 100 && it.line >= 1;
      Success(Flagged(items, spec.name))
  }

  // ---------------------------------------------------------------------
  // The step loop

  datatype StopReason = Completed | NeedsAction

  datatype RunOutcome = RunOutcome(results: seq<ReviewResult>, stopReason: StopReason)

  /** Runs one step on a fresh thread started with the given model. */
  type StepRunner = (ReviewSpec, string) -> Result<seq<ReviewResult>, Error>

  /** The step executor of the engine: `runSingleReview` in its environment. */
  function Executor(env: Env, baseDir: string, input: ReviewInput): StepRunner {
    (spec, model) => RunSingleReview(env, baseDir, input, spec, model)
  }

  /** Step `j` of the workflow, run with its resolved model. */
  function StepOutcome(run: StepRunner, cfg: SwissConfig, j: nat): Result<seq<ReviewResult>, Error>
    requires j < |cfg.reviews|
  {
    run(cfg.reviews[j], ResolveModel(cfg.reviews[j], cfg.model))
  }

  /** The run from step `i` on, as a short-circuiting fold. */
  function RunFrom(run: StepRunner, cfg: SwissConfig, i: nat): Result<RunOutcome, Error>
    requires i <= |cfg.reviews|
    decreases |cfg.reviews| - i
  {
    if i == |cfg.reviews| then Success(RunOutcome([], Completed))
    else
      match StepOutcome(run, cfg, i)
      case Failure(e) => Failure(e)
      case Success(found) =>
        if |found| > 0 then Success(RunOutcome(found, NeedsAction)) else RunFrom(run, cfg, i + 1)
  }

  /** How many steps the run from step `i` on starts. */
  function StepsRunFrom(run: StepRunner, cfg: SwissConfig, i: nat): (n: nat)
    requires i <= |cfg.reviews|
    ensures i + n <= |cfg.reviews|
    ensures n == 0 <==> i == |cfg.reviews|
    decreases |cfg.reviews| - i
  {
    if i == |cfg.reviews| then 0
    else
      match StepOutcome(run, cfg, i)
      case Failure(_) => 1
      case Success(found) => if |found| > 0 then 1 else 1 + StepsRunFrom(run, cfg, i + 1)
  }

  function Run(run: StepRunner, cfg: SwissConfig): Result<RunOutcome, Error> {
    RunFrom(run, cfg, 0)
  }

  function StepsRun(run: StepRunner, cfg: SwissConfig): nat {
    StepsRunFrom(run, cfg, 0)
  }

  /**
   * `runReviews`: for each step in order, start a thread with the resolved
   * model, run the step, append its findings, and return `needs_action` as
   * soon as a step has any. `run` runs one step on a fresh thread; the
   * engine passes `Executor` of its environment, the base directory and
   * the input. `executed` lists the steps started, in order.
   */
  method RunReviews(run: StepRunner, cfg: SwissConfig)
    returns (r: Result<RunOutcome, Error>, ghost executed: seq<ReviewSpec>)
    ensures r == Run(run, cfg)
    ensures StepsRun(run, cfg) <= |cfg.reviews|
    ensures executed == cfg.reviews[..StepsRun(run, cfg)]
  {
    var results: seq<ReviewResult> := [];
    executed := [];
    for i := 0 to |cfg.reviews|
      invariant results == []
      invariant executed == cfg.reviews[..i]
      invariant Run(run, cfg) == RunFrom(run, cfg, i)
      invariant StepsRun(run, cfg) == i + StepsRunFrom(run, cfg, i)
    {
      var review := cfg.reviews[i];
      var model := ResolveModel(review, cfg.model);
      assert cfg.reviews[..i + 1] == cfg.reviews[..i] + [review];
      executed := executed + [review];
      var step := run(review, model);
      if step.Failure? {
        assert RunFrom(run, cfg, i) == Failure(step.error) && StepsRunFrom(run, cfg, i) == 1;
        r := Failure(step.error);
        return;
      }
      var found := step.value;
      results := results + found;
      assert results == found;
      if |found| > 0 {
        assert RunFrom(run, cfg, i) == Success(RunOutcome(found, NeedsAction)) && StepsRunFrom(run, cfg, i) == 1;
        r := Success(RunOutcome(results, NeedsAction));
        return;
      }
      assert RunFrom(run, cfg, i) == RunFrom(run, cfg, i + 1);
      assert StepsRunFrom(run, cfg, i) == 1 + StepsRunFrom(run, cfg, i + 1);
    }
    r := Success(RunOutcome(results, Completed));
  }

  // ---------------------------------------------------------------------
  // Properties of the run

  /** Every step before `k` finished without a flagged finding. */
  ghost predicate CleanBefore(run: StepRunner, cfg: SwissConfig, k: nat)
    requires k <= |cfg.reviews|
  {
    forall j :: 0 <= j < k ==> StepOutcome(run, cfg, j) == Success([])
  }

  /** What the run returns when it stops at a step with outcome `step`: the step's error, or its findings with `needs_action`. */
  function StopWith(step: Result<seq<ReviewResult>, Error>): Result<RunOutcome, Error> {
    match step
    case Failure(e) => Failure(e)
    case Success(found) => Success(RunOutcome(found, NeedsAction))
  }

  /** From step `i` on, the run either starts every remaining step, all clean, and completes with no results; or it stops at its last started step, the first one that is not clean, with that step's outcome. */
  lemma {:induction false} RunFromShape(run: StepRunner, cfg: SwissConfig, i: nat)
    requires i <= |cfg.reviews|
    requires CleanBefore(run, cfg, i)
    ensures var k := i + StepsRunFrom(run, cfg, i);
      var r := RunFrom(run, cfg, i);
      || (k == |cfg.reviews| && CleanBefore(run, cfg, k) && r == Success(RunOutcome([], Completed)))
      || (i < k && CleanBefore(run, cfg, k - 1)
          && StepOutcome(run, cfg, k - 1) != Success([])
          && (StepOutcome(run, cfg, k - 1).Success? ==> StepOutcome(run, cfg, k - 1).value != [])
          && r == StopWith(StepOutcome(run, cfg, k - 1)))
    decreases |cfg.reviews| - i
  {
    if i < |cfg.reviews| {
      var step := StepOutcome(run, cfg, i);
      if step.Success? && |step.value| == 0 {
        assert step == Success([]);
        RunFromShape(run, cfg, i + 1);
      }
    }
  }

  /** `completed` comes with no results and `needs_action` with some. */
  lemma StopReasonMatchesResults(run: StepRunner, cfg: SwissConfig)
    requires Run(run, cfg).Success?
    ensures var o := Run(run, cfg).value;
      (o.stopReason == Completed <==> o.results == []) && (o.stopReason == NeedsAction <==> o.results != [])
  {
    RunFromShape(run, cfg, 0);
  }

  /** The run completes exactly when every step, each with its resolved model, finishes without a flagged finding; then every step was started. */
  lemma CompletedIffEveryStepClean(run: StepRunner, cfg: SwissConfig)
    ensures Run(run, cfg) == Success(RunOutcome([], Completed)) <==> CleanBefore(run, cfg, |cfg.reviews|)
    ensures Run(run, cfg) == Success(RunOutcome([], Completed)) ==> StepsRun(run, cfg) == |cfg.reviews|
  {
    RunFromShape(run, cfg, 0);
  }

  /** On `needs_action` the results are exactly the findings of the last started step, and every earlier step was clean. */
  lemma NeedsActionFromLastStep(run: StepRunner, cfg: SwissConfig)
    requires Run(run, cfg).Success? && Run(run, cfg).value.stopReason == NeedsAction
    ensures var k := StepsRun(run, cfg) - 1;
      && 0 <= k < |cfg.reviews|
      && CleanBefore(run, cfg, k)
      && StepOutcome(run, cfg, k) == Success(Run(run, cfg).value.results)
      && Run(run, cfg).value.results != []
  {
    RunFromShape(run, cfg, 0);
  }

  /** With the engine's executor, every result of a `needs_action` run carries the name of the last step started, scores above 80 and a line of at least 1. */
  lemma NeedsActionResultsTagged(env: Env, baseDir: string, cfg: SwissConfig, input: ReviewInput)
    requires var run := Executor(env, baseDir, input);
      Run(run, cfg).Success? && Run(run, cfg).value.stopReason == NeedsAction
    ensures var run := Executor(env, baseDir, input);
      var k := StepsRun(run, cfg) - 1;
      && 0 <= k < |cfg.reviews|
      && forall x :: x in Run(run, cfg).value.results ==>
           x.name == cfg.reviews[k].name && 80 < x.score <= 100 && x.line >= 1
  {
    var run := Executor(env, baseDir, input);
    NeedsActionFromLastStep(run, cfg);
    var k := StepsRun(run, cfg) - 1;
    assert StepOutcome(run, cfg, k) == RunSingleReview(env, baseDir, input, cfg.reviews[k], ResolveModel(cfg.reviews[k], cfg.model));
  }

  /** A failing step ends the run with its error; every step before it was clean. */
  lemma FailureFromLastStep(run: StepRunner, cfg: SwissConfig)
    requires Run(run, cfg).Failure?
    ensures var k := StepsRun(run, cfg) - 1;
      && 0 <= k < |cfg.reviews|
      && CleanBefore(run, cfg, k)
      && StepOutcome(run, cfg, k) == Failure(Run(run, cfg).error)
  {
    RunFromShape(run, cfg, 0);
  }

  /** For a run from `i` that stops early (an error or a flagged step), any workflow with the same default model that agrees on the steps that run starts gives the same run from `i`. */
  lemma {:induction false} RunFromAgreeing(run: StepRunner, a: SwissConfig, b: SwissConfig, i: nat)
    requires i <= |a.reviews| && i <= |b.reviews| && a.model == b.model
    requires RunFrom(run, a, i) != Success(RunOutcome([], Completed))
    requires i + StepsRunFrom(run, a, i) <= |b.reviews|
    requires forall j :: i <= j < i + StepsRunFrom(run, a, i) ==> a.reviews[j] == b.reviews[j]
    ensures RunFrom(run, b, i) == RunFrom(run, a, i)
    ensures StepsRunFrom(run, b, i) == StepsRunFrom(run, a, i)
    decreases |a.reviews| - i
  {
    assert a.reviews[i] == b.reviews[i];
    var step := StepOutcome(run, a, i);
    assert StepOutcome(run, b, i) == step;
    if step.Success? && |step.value| == 0 {
      RunFromAgreeing(run, a, b, i + 1);
    }
  }

  /** Steps after the one the run stopped at are never consulted: replacing them by any others changes neither the outcome nor the steps started. */
  lemma LaterStepsIrrelevant(run: StepRunner, cfg: SwissConfig, rest: seq<ReviewSpec>)
    requires Run(run, cfg) != Success(RunOutcome([], Completed))
    ensures var cut := cfg.(reviews := cfg.reviews[..StepsRun(run, cfg)] + rest);
      && Run(run, cut) == Run(run, cfg)
      && StepsRun(run, cut) == StepsRun(run, cfg)
  {
    var k := StepsRun(run, cfg);
    var cut := cfg.(reviews := cfg.reviews[..k] + rest);
    assert forall j :: 0 <= j < k ==> cfg.reviews[j] == cut.reviews[j];
    RunFromAgreeing(run, cfg, cut, 0);
  }
}
