/**
 * Workflow configuration loading (core/src/config.ts): the config and
 * workflow-name schemas, the paths under `.swiss/`, the workflow listing,
 * and the prompt and context loaders.
 */
module Config {
  import opened Wrappers
  import opened JsonValue
  import opened Types
  import opened Files
  import opened Errors
  import Text
  import Sorting

  // ---------------------------------------------------------------------
  // Workflow names

  /** One character of the class `[a-zA-Z0-9_-]`. */
  predicate IsNameChar(c: char) {
    ('a' <= c <= 'z') || ('A' <= c <= 'Z') || ('0' <= c <= '9') || c == '_' || c == '-'
  }

  /** The regular expression `^[a-zA-Z0-9_-]+$`, unrolled the way `+` reads: one class character, then either the end or another match. */
  predicate MatchesNamePattern(s: string)
    decreases |s|
  {
    |s| >= 1 && IsNameChar(s[0]) && (|s| == 1 || MatchesNamePattern(s[1..]))
  }

  /** The pattern accepts exactly the non-empty strings made only of class characters. */
  lemma {:induction false} NamePatternIffNameChars(s: string)
    ensures MatchesNamePattern(s) <==> |s| >= 1 && forall i :: 0 <= i < |s| ==> IsNameChar(s[i])
  {
    if |s| > 1 {
      NamePatternIffNameChars(s[1..]);
      assert forall i :: 1 <= i < |s| ==> s[i] == s[1..][i - 1];
    }
  }

  /** `workflowNameSchema`: a string of length at least one matching the name pattern. */
  predicate ValidWorkflowName(name: string) {
    |name| >= 1 && MatchesNamePattern(name)
  }

  /** `workflowNameSchema.parse(name)`: the name itself, or the schema's error. */
  function ParseWorkflowName(name: string): (r: Result<string, Error>)
    ensures r.Success? <==> |name| >= 1 && forall i :: 0 <= i < |name| ==> IsNameChar(name[i])
    ensures r.Success? ==> r.value == name
    ensures r.Failure? ==> r.error == InvalidWorkflowName(name)
  {
    NamePatternIffNameChars(name);
    if ValidWorkflowName(name) then Success(name) else Failure(InvalidWorkflowName(name))
  }

  /** A valid name holds no separator and no whitespace, so the file names built from it stay inside their directory and trimming leaves it as it is. */
  lemma ValidNameIsPlain(name: string, ext: string)
    requires ValidWorkflowName(name)
    requires ext == ".yaml" || ext == ".md"
    ensures PlainSegment(name + ext)
    ensures Text.Trim(name) == name
  {
    NamePatternIffNameChars(name);
    var f := name + ext;
    forall i | 0 <= i < |f| ensures f[i] != '/' && f[i] != '\\' {
      if i < |name| { assert f[i] == name[i]; } else { assert f[i] == ext[i - |name|]; }
    }
    assert !Text.IsWhitespace(name[0]) && !Text.IsWhitespace(name[|name| - 1]);
  }

  /** "default", the name the HTTP routes fall back to, is itself a valid workflow name. */
  lemma DefaultNameValid()
    ensures ValidWorkflowName("default")
  {
    NamePatternIffNameChars("default");
  }

  // ---------------------------------------------------------------------
  // Config schema

  predicate OptionalString(f: map<string, Json>, key: string) {
    key !in f || f[key].JString?
  }

  predicate OptionalBool(f: map<string, Json>, key: string) {
    key !in f || f[key].JBool?
  }

  /** `reviewSchema`: a `name` of length at least one; `description` and `model` absent or strings; `parallel` absent or a boolean. Other keys are ignored. */
  predicate ReviewJsonValid(j: Json) {
    && j.JObject?
    && "name" in j.fields && j.fields["name"].JString? && |j.fields["name"].s| >= 1
    && OptionalString(j.fields, "description")
    && OptionalString(j.fields, "model")
    && OptionalBool(j.fields, "parallel")
  }

  /** `configSchema`: a non-empty `model` string and at least one review, each valid. */
  predicate ConfigJsonValid(j: Json) {
    && j.JObject?
    && "model" in j.fields && j.fields["model"].JString? && |j.fields["model"].s| >= 1
    && "reviews" in j.fields && j.fields["reviews"].JArray?
    && |j.fields["reviews"].items| >= 1
    && (forall i :: 0 <= i < |j.fields["reviews"].items| ==> ReviewJsonValid(j.fields["reviews"].items[i]))
  }

  /** What the config schema demands, stated on the typed value. */
  predicate ConfigAccepted(c: SwissConfig) {
    && c.model != ""
    && |c.reviews| >= 1
    && forall r :: r in c.reviews ==> r.name != ""
  }

  function ReviewFromJson(j: Json): ReviewSpec
    requires ReviewJsonValid(j)
  {
    var f := j.fields;
    ReviewSpec(
      f["name"].s,
      if "description" in f then Some(f["description"].s) else None,
      if "model" in f then Some(f["model"].s) else None,
      if "parallel" in f then Some(f["parallel"].b) else None)
  }

  /** `configSchema.parse(value)`: the typed config, or a schema error. */
  function ParseConfig(j: Json): (r: Result<SwissConfig, Error>)
    ensures r.Success? <==> ConfigJsonValid(j)
    ensures r.Success? ==> ConfigAccepted(r.value)
    ensures r.Failure? ==> r.error == ConfigSchemaViolation
    ensures r.Success? ==>
      && ConfigJsonValid(j)
      && r.value.model == j.fields["model"].s
      && |r.value.reviews| == |j.fields["reviews"].items|
      && forall i :: 0 <= i < |r.value.reviews| ==> r.value.reviews[i] == ReviewFromJson(j.fields["reviews"].items[i])
  {
    if ConfigJsonValid(j) then
      var items := j.fields["reviews"].items;
      var reviews := seq(|items|, i requires 0 <= i < |items| => ReviewFromJson(items[i]));
      assert forall r :: r in reviews ==> r.name != "" by {
        forall r | r in reviews ensures r.name != "" {
          var i :| 0 <= i < |reviews| && reviews[i] == r;
        }
      }
      Success(SwissConfig(j.fields["model"].s, reviews))
    else
      Failure(ConfigSchemaViolation)
  }

  function ReviewToJson(r: ReviewSpec): Json {
    JObject(
      map["name" := JString(r.name)]
      + (if r.description.Some? then map["description" := JString(r.description.value)] else map[])
      + (if r.model.Some? then map["model" := JString(r.model.value)] else map[])
      + (if r.parallel.Some? then map["parallel" := JBool(r.parallel.value)] else map[]))
  }

  /** The JSON (or YAML) form of a config, with absent optional fields left out. */
  function ConfigToJson(c: SwissConfig): Json {
    JObject(map[
      "model" := JString(c.model),
      "reviews" := JArray(seq(|c.reviews|, i requires 0 <= i < |c.reviews| => ReviewToJson(c.reviews[i])))])
  }

  lemma ReviewRoundTrip(r: ReviewSpec)
    ensures ReviewJsonValid(ReviewToJson(r)) <==> r.name != ""
    ensures r.name != "" ==> ReviewFromJson(ReviewToJson(r)) == r
  {
  }

  /** Writing a config out and parsing it back gives it again exactly when the schema accepts it. */
  lemma ConfigRoundTrip(c: SwissConfig)
    ensures ParseConfig(ConfigToJson(c)) == if ConfigAccepted(c) then Success(c) else Failure(ConfigSchemaViolation)
  {
    var j := ConfigToJson(c);
    var items := j.fields["reviews"].items;
    forall i | 0 <= i < |c.reviews| ensures items[i] == ReviewToJson(c.reviews[i]) {
      ReviewRoundTrip(c.reviews[i]);
    }
    forall i | 0 <= i < |c.reviews| {
      ReviewRoundTrip(c.reviews[i]);
    }
    if ConfigAccepted(c) {
      assert ConfigJsonValid(j) by {
        forall i | 0 <= i < |items| ensures ReviewJsonValid(items[i]) {
          assert c.reviews[i] in c.reviews;
        }
      }
      assert ParseConfig(j).value.reviews == c.reviews;
    } else if c.model != "" && |c.reviews| >= 1 {
      var k :| k in c.reviews && k.name == "";
      var i :| 0 <= i < |c.reviews| && c.reviews[i] == k;
      assert !ReviewJsonValid(items[i]);
    }
  }

  // ---------------------------------------------------------------------
  // Paths under .swiss/

  function FlowsDir(baseDir: string): FilePath {
    FilePath(baseDir, [".swiss", "flows"])
  }

  function ContextsDir(baseDir: string): FilePath {
    FilePath(baseDir, [".swiss", "contexts"])
  }

  /** `path.join(dir, segment)`: one more segment under a directory. */
  function Under(dir: FilePath, segment: string): FilePath {
    dir.(segments := dir.segments + [segment])
  }

  function WorkflowConfigPath(baseDir: string, name: string): FilePath {
    Under(FlowsDir(baseDir), name + ".yaml")
  }

  function WorkflowContextPath(baseDir: string, name: string): FilePath {
    Under(ContextsDir(baseDir), name + ".md")
  }

  function PromptPath(baseDir: string, name: string): FilePath {
    FilePath(baseDir, [".swiss", "prompts", name + ".md"])
  }

  // ---------------------------------------------------------------------
  // Loaders

  /** `loadWorkflowConfig`: validate the name, then read `.swiss/flows/<name>.yaml` (a path that stays in that directory, by ValidNameIsPlain), parse the YAML and apply the config schema. */
  function LoadWorkflowConfig(fs: FileReader, parseYaml: string -> Result<Json, string>, baseDir: string, name: string)
    : (r: Result<SwissConfig, Error>)
    ensures !ValidWorkflowName(name) ==> r == Failure(InvalidWorkflowName(name))
    ensures ValidWorkflowName(name) && fs(WorkflowConfigPath(baseDir, name)).Failure? ==>
      r == Failure(ReadFailed(WorkflowConfigPath(baseDir, name), fs(WorkflowConfigPath(baseDir, name)).error))
    ensures ValidWorkflowName(name) && fs(WorkflowConfigPath(baseDir, name)).Success? ==>
      r == match parseYaml(fs(WorkflowConfigPath(baseDir, name)).value)
           case Failure(m) => Failure(YamlSyntax(m))
           case Success(j) => ParseConfig(j)
    ensures r.Success? ==>
      && ValidWorkflowName(name)
      && fs(WorkflowConfigPath(baseDir, name)).Success?
      && ConfigAccepted(r.value)
  {
    if !ValidWorkflowName(name) then Failure(InvalidWorkflowName(name))
    else
    var path := WorkflowConfigPath(baseDir, name);
    match fs(path)
    case Failure(e) => Failure(ReadFailed(path, e))
    case Success(raw) =>
      match parseYaml(raw)
      case Failure(msg) => Failure(YamlSyntax(msg))
      case Success(j) => ParseConfig(j)
  }

  /** `.filter(f => f.endsWith(".yaml")).map(f => f.replace(/\.yaml$/, ""))`. */
  function YamlStems(files: seq<string>): (r: seq<string>)
  {
    if files == [] then []
    else
      var f := files[0];
      (if Text.EndsWith(f, ".yaml") then [f[..|f| - 5]] else []) + YamlStems(files[1..])
  }

  /** A stem is listed exactly when the directory holds that stem followed by ".yaml". */
  lemma {:induction false} YamlStemsMembership(files: seq<string>, x: string)
    ensures x in YamlStems(files) <==> x + ".yaml" in files
  {
    if files != [] {
      YamlStemsMembership(files[1..], x);
      var f := files[0];
      if Text.EndsWith(f, ".yaml") && f[..|f| - 5] == x {
        assert f == x + ".yaml";
      }
      if f == x + ".yaml" {
        assert f[..|f| - 5] == x;
      }
      assert files == [f] + files[1..];
    }
  }

  /** `listWorkflows`: the sorted stems of the `.yaml` entries of `.swiss/flows`, or no names at all when the directory cannot be read. */
  function ListWorkflows(readDir: DirReader, baseDir: string, leq: (string, string) -> bool): (r: seq<string>)
    requires Sorting.TotalPreorder(leq)
    ensures readDir(FlowsDir(baseDir)).Failure? ==> r == []
    ensures readDir(FlowsDir(baseDir)).Success? ==>
      && Sorting.SortedBy(r, leq)
      && multiset(r) == multiset(YamlStems(readDir(FlowsDir(baseDir)).value))
  {
    match readDir(FlowsDir(baseDir))
    case Failure(_) => []
    case Success(files) => Sorting.SortBy(YamlStems(files), leq)
  }

  /** The listing names exactly the workflows that have a `.yaml` file. */
  lemma ListWorkflowsNamesYamlFiles(readDir: DirReader, baseDir: string, leq: (string, string) -> bool, x: string)
    requires Sorting.TotalPreorder(leq)
    requires readDir(FlowsDir(baseDir)).Success?
    ensures x in ListWorkflows(readDir, baseDir, leq) <==> x + ".yaml" in readDir(FlowsDir(baseDir)).value
  {
    var r := ListWorkflows(readDir, baseDir, leq);
    YamlStemsMembership(readDir(FlowsDir(baseDir)).value, x);
    assert x in r <==> x in multiset(r);
  }

  /** `loadPrompt`: the text of `.swiss/prompts/<name>.md`; the step name is not checked against any pattern. */
  function LoadPrompt(fs: FileReader, baseDir: string, name: string): (r: Result<string, Error>)
    ensures r.Success? <==> fs(PromptPath(baseDir, name)).Success?
    ensures r.Success? ==> r.value == fs(PromptPath(baseDir, name)).value
    ensures r.Failure? ==> r.error == ReadFailed(PromptPath(baseDir, name), fs(PromptPath(baseDir, name)).error)
  {
    match fs(PromptPath(baseDir, name))
    case Failure(e) => Failure(ReadFailed(PromptPath(baseDir, name), e))
    case Success(text) => Success(text)
  }

  /** The config schema accepts a step name that leads the prompt path out of `.swiss/prompts`. */
  lemma PromptNameNotConfined()
    ensures var c := SwissConfig("m", [ReviewSpec("../x", None, None, None)]);
      ConfigAccepted(c) && !PlainSegment(PromptPath("", c.reviews[0].name).segments[2])
  {
    assert "../x.md"[2] == '/';
  }

  /** `loadWorkflowContext`: validate the name, then read `.swiss/contexts/<name>.md`; a missing file and a blank file are told apart, other errors pass unchanged, and the content is returned untrimmed. */
  function LoadWorkflowContext(fs: FileReader, baseDir: string, name: string): (r: Result<string, Error>)
    ensures !ValidWorkflowName(name) ==> r == Failure(InvalidWorkflowName(name))
    ensures ValidWorkflowName(name) ==>
      var path := WorkflowContextPath(baseDir, name);
      && (fs(path) == Failure(NotFound) ==> r == Failure(ContextNotFound(name)))
      && (fs(path).Failure? && fs(path).error.OtherFsError? ==> r == Failure(ReadFailed(path, fs(path).error)))
      && (fs(path).Success? && Text.IsBlank(fs(path).value) ==> r == Failure(ContextEmpty(name)))
      && (fs(path).Success? && !Text.IsBlank(fs(path).value) ==> r == Success(fs(path).value))
    ensures r.Success? ==> !Text.IsBlank(r.value)
  {
    var n :- ParseWorkflowName(name);
    var path := WorkflowContextPath(baseDir, n);
    match fs(path)
    case Failure(NotFound) => Failure(ContextNotFound(n))
    case Failure(e) => Failure(ReadFailed(path, e))
    case Success(context) =>
      if Text.IsBlank(context) then Failure(ContextEmpty(n)) else Success(context)
  }
}
