# swiss — a Dafny model of the review workflow core

`swiss` reviews a piece of text or a diff with an AI service. Each project keeps its
workflows under `.swiss/`. A workflow has:

- a default model;
- an ordered list of review steps, each with a name, an optional description, an
  optional model override and a `parallel` flag.

The review engine runs the steps in order. For each step it:

1. sends the assembled prompt to the service;
2. validates the structured answer;
3. keeps the findings scored above 80, tagged with the step name.

It stops at the first step that flags anything. The CLI prints the findings and
exits with code 2 when there are some. A browser editor and a handful of HTTP
routes edit the workflow files.

This project models, in Dafny:

- **the engine** (`reviewer.dfy`, core/src/reviewer.ts):
  - the answer schema as predicates;
  - the normalisation of a bare array;
  - the threshold filter;
  - the prompt assembly;
  - one step as a function over an environment of oracles;
  - the step loop as a method with a `for` loop, proved equal to a short-circuiting
    fold (`Run`). The properties of the fold are proved as lemmas.
- **configuration** (`config.dfy`, core/src/config.ts):
  - the workflow-name and config schemas;
  - the paths under `.swiss/`;
  - the workflow listing;
  - the prompt and context loaders.
- **the editor** (`editor.dfy`, web/components/config-editor.tsx):
  - each list updater as a pure function with its lemmas;
  - the component state as the class `ConfigEditor.ConfigEditor`, whose handler
    methods apply those functions.
- **the routes** (`http.dfy`, `config_route.dfy`, `context_route.dfy`,
  `rename_route.dfy`): each handler is a function from the request to its response and
  the file operations it started.
- **the CLI** (`cli.dfy`, cli/src/index.ts):
  - the `review` action as a method with its print loop, proved equal to the function
    `Cli.Review`;
  - the `completion` action.

Supporting modules:

- `wrappers.dfy`: `Option`, `Result`.
- `json.dfy`: a parsed JSON value, with JavaScript property access and `??`.
- `text.dfy`: `trim`, `join`, `filter(Boolean)`, `includes`, and decimal printing.
- `sorting.dfy`: a sort by a caller-given total preorder, standing for `localeCompare`.
- `types.dfy`: core/src/types.ts.
- `files.dfy`: the file system as functions, and the error values.

Modelling choices:

- **The review service, `JSON.parse`, `YAML.parse`/`stringify`, `loadBuiltInPrompt`,
  `loadConfig` and every file read or write are parameters (oracles).**
  - A service call or read can fail; the failure travels on unchanged.
  - `Reviewer.Env` bundles the oracles the engine needs.
  - The HTTP routes take their file operations as functions that return the thrown
    value, or nothing.
- **Line 0.** The JSON schema handed to the service (core/src/reviewer.ts:31-34) puts
  no minimum on `line`, but the validator rejects 0 (`z.number().int().min(1)` at
  core/src/reviewer.ts:10). An answer that obeys the service schema with line 0 therefore
  fails the whole step (`Reviewer.OutputSchemaAndValidatorDiffer`,
  `Reviewer.OneBadItemFailsAll`).
- **`review.model ?? config.model` keeps an empty string.** The editor offers "未指定
  （デフォルトを使用）" as the value "" and saves it as `model: ""`. `??` does not treat
  "" as missing, so such a step runs with the model "" rather than the workflow default
  (`ConfigEditor.UnspecifiedModelReachesEngine`). The model keeps this as written. The
  service's reaction to an empty model name is outside the shown code.
- **What the routes do and do not check:**
  - The config route stores whatever config is posted, without the config schema
    (`ConfigRoute.PostStoresConfigUnchecked`).
  - The rename route trims `from` and `to` but does not check them against the
    workflow-name pattern.
  - A prompt name is not checked at all, so a step named `../x` escapes
    `.swiss/prompts` (`Config.PromptNameNotConfined`).

## Model

| member | source | states |
|---|---|---|
| Config.NamePatternIffNameChars | core/src/config.ts:19-22 | `^[a-zA-Z0-9_-]+$` matches exactly the non-empty strings whose every character is a letter, digit, `_` or `-` |
| Config.ParseWorkflowName | core/src/config.ts:19-22 | the name schema accepts a name iff it is non-empty and made only of name characters; it then returns the name itself, otherwise the invalid-name error |
| Config.ValidNameIsPlain | core/src/config.ts:32-38 | a valid name plus `.yaml` or `.md` is a plain path segment (no separator, not `.` or `..`), so the built path stays inside its directory; trimming a valid name changes nothing |
| Config.DefaultNameValid | web/app/api/config/route.ts:5-11 | the fallback name "default" satisfies the workflow-name schema |
| Config.ParseConfig | core/src/config.ts:7-17 | the config schema succeeds iff the model is a non-empty string, `reviews` is a non-empty array and every review has a non-empty string name, optional string description/model and optional boolean parallel; an accepted config has a non-empty model, at least one step and non-empty step names, its model is the JSON's `model` string and its steps are the `reviews` items in order, each read by `ReviewFromJson` (unknown keys ignored); otherwise the schema error |
| Config.ReviewRoundTrip | core/src/config.ts:7-12 | a step written out as JSON passes the review schema iff its name is non-empty, and then parses back to the same step |
| Config.ConfigRoundTrip | core/src/config.ts:7-17 | a config written out and parsed back is itself exactly when the schema accepts it, and the schema error otherwise |
| Config.LoadWorkflowConfig | core/src/config.ts:40-46 | an invalid name fails before any read; a read error is passed on with the path `.swiss/flows/<name>.yaml`; after a successful read, the result is `YamlSyntax` when the YAML does not parse and otherwise exactly `ParseConfig` of the parsed document; a success had a valid name, a successful read and a config the schema accepts |
| Config.YamlStems | core/src/config.ts:51-53 | the `.yaml` entries with the extension cut off; `Config.YamlStemsMembership` fixes its members and `Config.ListWorkflows` sorts a permutation of it |
| Config.YamlStemsMembership | core/src/config.ts:51-53 | a name is listed exactly when the directory holds that name followed by `.yaml` |
| Config.ListWorkflows | core/src/config.ts:48-58 | a failed directory read gives the empty list; otherwise the result is sorted by the comparison and is a permutation of the `.yaml` stems |
| Config.ListWorkflowsNamesYamlFiles | core/src/config.ts:48-58 | after a successful read, x is listed iff `x.yaml` is in the directory |
| Config.LoadPrompt | core/src/config.ts:60-63 | the prompt is the text of `.swiss/prompts/<name>.md`, or that read's error |
| Config.PromptNameNotConfined | core/src/config.ts:60-63 | a config the schema accepts can name a step `../x`, whose prompt path is not a plain segment |
| Config.LoadWorkflowContext | core/src/config.ts:65-80 | an invalid name fails first; a missing file gives the not-found error; other read errors pass unchanged; blank content gives the empty-context error; otherwise the content unchanged, never blank |
| Reviewer.OutputSchemaAndValidatorDiffer | core/src/reviewer.ts:6-53 | an item with line 0 satisfies the schema sent to the service but fails the validator; an item with an extra key is the reverse |
| Reviewer.ItemFromJson | core/src/reviewer.ts:6-11 | a valid item has an integer score in 0..100 and an integer line of at least 1, equal to the JSON numbers; review text and file path are the JSON strings unchanged |
| Reviewer.ParseResponse | core/src/reviewer.ts:111-113 | parsing succeeds iff the normalised answer has `results` as an array of valid items; the items are then read one for one, in order; otherwise the schema error |
| Reviewer.Normalize | core/src/reviewer.ts:112 | an array becomes `{results: array}` and any other value passes unchanged; `Reviewer.BareArrayReadAsEnvelope` is its consequence for parsing |
| Reviewer.BareArrayReadAsEnvelope | core/src/reviewer.ts:112 | a bare array is parsed exactly as the same array under `results` |
| Reviewer.OneBadItemFailsAll | core/src/reviewer.ts:6-15 | one item with score 101, -1 or 90.5, or line 0 or 2.5, fails the whole answer |
| Reviewer.Flagged | core/src/reviewer.ts:114-122 | every finding carries the step name and a score above 80 and comes from an item; there are no more findings than items |
| Reviewer.FlaggedConcat | core/src/reviewer.ts:114-122 | filtering distributes over concatenation, so survivors keep their relative order |
| Reviewer.FlaggedMembership | core/src/reviewer.ts:114-122 | a finding is present iff some item scores above 80 and, tagged with the step name, is that finding, with review, score, path and line unchanged |
| Reviewer.ThresholdIsStrict | core/src/reviewer.ts:115 | a score of 80 is dropped and 81 is kept |
| Reviewer.HeaderLayout | core/src/reviewer.ts:131-133 | the header is `# <name>`, followed by a newline and the description when the description is present and non-empty |
| Reviewer.BuildMessage | core/src/reviewer.ts:125-145 | the seven-part join of the message; its closed form is `Reviewer.BuildMessageLayout` |
| Reviewer.BuildMessageLayout | core/src/reviewer.ts:125-145 | the message is the header, then the kind line, content, separator, built-in prompt, separator and user prompt, each on a new line; an empty content or prompt is dropped with its newline; the content is copied verbatim |
| Reviewer.ResolveModel | core/src/reviewer.ts:71 | a step's model is its own when present (even ""), else the workflow default |
| Reviewer.RunSingleReview | core/src/reviewer.ts:89-123 | a failed prompt load, built-in prompt or service call is the step's error (in that order); an answer `JSON.parse` rejects is `MalformedResponse`; a schema failure is its error; otherwise the findings are exactly `Flagged` of the validated items under the step's name; every finding carries the step's name, a score in 81..100 and a line of at least 1 |
| Reviewer.RunFrom | core/src/reviewer.ts:67-86 | the loop from step `i` on as a short-circuiting fold; its shape is `Reviewer.RunFromShape` |
| Reviewer.Run | core/src/reviewer.ts:61-87 | the fold from the first step; `Reviewer.StopReasonMatchesResults`, `CompletedIffEveryStepClean`, `NeedsActionFromLastStep` and `FailureFromLastStep` state what it returns |
| Reviewer.RunReviews | core/src/reviewer.ts:61-87 | for the step executor it is given (the engine's `Executor` of its environment), the loop returns the short-circuiting fold over the steps with their resolved models; the steps started are exactly the first `StepsRun` ones, in order |
| Reviewer.RunFromShape | core/src/reviewer.ts:67-86 | either every remaining step runs clean and the run completes with no results, or it stops at the last step started, the first unclean one, with that step's error or findings |
| Reviewer.StopReasonMatchesResults | core/src/reviewer.ts:80-86 | `completed` iff the results are empty; `needs_action` iff they are not |
| Reviewer.CompletedIffEveryStepClean | core/src/reviewer.ts:67-86 | the run completes iff every step finishes with no finding, and then every step was started |
| Reviewer.NeedsActionFromLastStep | core/src/reviewer.ts:80-83 | on `needs_action` the results are exactly the findings of the last step started, every earlier step was clean, and no later step was started |
| Reviewer.NeedsActionResultsTagged | core/src/reviewer.ts:114-122 | on `needs_action` every result carries the name of the last step started, a score above 80 and a line of at least 1 |
| Reviewer.FailureFromLastStep | core/src/reviewer.ts:73-79 | a failing step ends the run with its error, and every earlier step was clean |
| Reviewer.RunFromAgreeing | core/src/reviewer.ts:67-84 | for a run from step `i` that stops early (an error or a flagged step), a workflow with the same default model that agrees on the steps that run started gives the same outcome and starts the same steps |
| Reviewer.LaterStepsIrrelevant | core/src/reviewer.ts:67-84 | replacing the steps after the stopping step changes neither the outcome nor the steps started |
| ConfigEditor.Removed | web/components/config-editor.tsx:145-150 | the filter by position; it never grows the list, and `ConfigEditor.RemovedIsSlice` fixes its result |
| ConfigEditor.RemovedIsSlice | web/components/config-editor.tsx:145-150 | removing deletes exactly the element at the index, keeping the others in order; an out-of-range index leaves the list unchanged |
| ConfigEditor.RemoveUndoesAdd | web/components/config-editor.tsx:141-150 | adding a step and removing the last position gives back the original steps |
| ConfigEditor.Moved | web/components/config-editor.tsx:152-160 | cut at `from`, insert at `to`, unchanged for a `to` outside the list; its properties are `ConfigEditor.MovedProperties` and `ConfigEditor.MoveBackRestores` |
| ConfigEditor.MovedProperties | web/components/config-editor.tsx:152-160 | a move keeps the length and multiset, puts the moved step at `to`, and leaves the others in their relative order |
| ConfigEditor.MoveBackRestores | web/components/config-editor.tsx:152-160 | moving from `to` back to `from` undoes a move |
| ConfigEditor.MoveOutsideKeeps | web/components/config-editor.tsx:152-155 | a target outside the list leaves it unchanged |
| ConfigEditor.Updated | web/components/config-editor.tsx:162-169 | the patch merged into the step at the index; its properties are `ConfigEditor.UpdatedChangesOnlyIndex` and `ConfigEditor.UpdateIdempotent` |
| ConfigEditor.UpdatedChangesOnlyIndex | web/components/config-editor.tsx:162-169 | an update changes only the step at the index, each field taken from the patch when the patch sets it; an out-of-range index changes nothing |
| ConfigEditor.UpdateIdempotent | web/components/config-editor.tsx:162-169 | applying the same patch twice equals applying it once |
| ConfigEditor.RenameIsNamePatch | web/components/config-editor.tsx:176-185 | the rename of the step list, with its missing-step guard, equals the name-only patch for every index |
| ConfigEditor.PromptsAfterRename | web/components/config-editor.tsx:186-190 | the prompt-map half of a rename; its properties are `ConfigEditor.PromptsAfterRenameProperties` and `ConfigEditor.RenameKeepsOldPrompt` |
| ConfigEditor.PromptsAfterRenameProperties | web/components/config-editor.tsx:186-190 | no prompt is dropped and no key but the new name changes; the new name gets the old name's prompt (or "") exactly when the old name is non-empty, differs from the new one and the new name has no non-empty prompt; otherwise the map is unchanged |
| ConfigEditor.RenameKeepsOldPrompt | web/components/config-editor.tsx:186-190 | the old name keeps its prompt after a rename |
| ConfigEditor.StripUid | web/components/config-editor.tsx:115 | a step without its `uid`; `ConfigEditor.ProjectionForgetsOnlyUids` shows the uid is all it forgets |
| ConfigEditor.SaveProjection | web/components/config-editor.tsx:113-116 | the saved config has the same model and the same number of steps |
| ConfigEditor.ProjectionForgetsOnlyUids | web/components/config-editor.tsx:113-116 | two editor configs save identically iff they differ at most in their steps' uids |
| ConfigEditor.HasInvalid | web/components/config-editor.tsx:98-102 | a blank (after trimming) model, no steps, or a step with a blank name; `ConfigEditor.SaveGuardImpliesAccepted` and `ConfigEditor.SaveGuardStricterThanSchema` relate it to the config schema |
| ConfigEditor.SaveGuardImpliesAccepted | web/components/config-editor.tsx:98-102 | a config that passes `hasInvalid` saves to one the workflow-config schema accepts |
| ConfigEditor.SaveGuardStricterThanSchema | web/components/config-editor.tsx:98-102 | a whitespace model is refused by the editor although the schema accepts it |
| ConfigEditor.UnspecifiedModelReachesEngine | web/components/config-editor.tsx:326-331 | a step saved with the "use the default" model "" runs with the model "", not the workflow default |
| ConfigEditor.PromptUploads | web/components/config-editor.tsx:123-131 | one upload per step, in step order, under the step's name, carrying its prompt or "" when it has none |
| ConfigEditor.LoadDefaulting | web/components/config-editor.tsx:65-78 | a missing config loads as the empty one; the model is the loaded one or ""; one editor step per loaded step, the i-th carrying the i-th fresh id and the loaded name, description and model or "", and the loaded `parallel` or `false` |
| ConfigEditor.LoadAfterSave | web/components/config-editor.tsx:65-78 | loading a saved config gives it back with its own ids, and up to ids with fresh ones |
| ConfigEditor.LoadedBlankStepIsEmptyReview | web/components/config-editor.tsx:65-76 | a loaded step with every field missing becomes the blank step `addReview` appends, and a missing model becomes "" |
| ConfigEditor.LoadWithoutConfigIsEmpty | web/components/config-editor.tsx:65 | a response without a config loads as `{model: "", reviews: []}` |
| ConfigEditor.FromEntriesLookup | web/components/config-editor.tsx:66-68 | a prompt name is a key iff some entry has it, and its text is that of the last such entry |
| ConfigEditor.ConfigEditor.constructor | web/components/config-editor.tsx:41-48 | the initial state: empty config, no prompts, loading, not saving, no message |
| ConfigEditor.ConfigEditor.Load | web/components/config-editor.tsx:50-94 | a failed load resets to the empty config and no prompts; a successful one applies the defaulting and builds the prompt map; loading ends either way |
| ConfigEditor.ConfigEditor.Save | web/components/config-editor.tsx:104-135 | an invalid config sends nothing and only sets the message; otherwise the uid-free config is sent, then the prompt uploads only if it was stored, and the message reports the outcome |
| ConfigEditor.ConfigEditor.UpdateModel | web/components/config-editor.tsx:137-139 | only the default model changes |
| ConfigEditor.ConfigEditor.AddReview | web/components/config-editor.tsx:141-143 | exactly one blank step is appended; earlier steps and the rest of the state are unchanged |
| ConfigEditor.ConfigEditor.RemoveReview | web/components/config-editor.tsx:145-150 | the step list becomes `Removed` of the old list; nothing else changes |
| ConfigEditor.ConfigEditor.MoveReview | web/components/config-editor.tsx:152-160 | the two splices on a copy give `Moved` of the old list; nothing else changes |
| ConfigEditor.ConfigEditor.UpdateReview | web/components/config-editor.tsx:162-169 | the step list becomes `Updated` of the old list; nothing else changes |
| ConfigEditor.ConfigEditor.UpdateReviewName | web/components/config-editor.tsx:171-191 | the step is renamed and the prompt map carried over as `PromptsAfterRename` states |
| ConfigEditor.ConfigEditor.UpdatePrompt | web/components/config-editor.tsx:193-195 | only the named prompt is set |
| Http.WorkflowName | web/app/api/config/route.ts:7-11 | the name is the trimmed `workflow` parameter, or "default" when it is absent or blank; it is never empty and is its own trim (same rule in web/app/api/context/route.ts) |
| Http.RouteCheckIsCoreSchema | web/app/api/config/route.ts:5-15 | the routes' pattern test accepts exactly the names the core's workflow-name schema accepts |
| Http.DefaultNeverRefused | web/app/api/config/route.ts:5-11 | a request without a usable `workflow` parameter always passes the name check |
| Http.InnerSpaceRefused | web/app/api/config/route.ts:5-15 | the parameters ` a b ` (inner whitespace survives the trim) and `../x` (a path) are refused |
| ConfigRoute.HandleGet | web/app/api/config/route.ts:17-38 | an invalid name gets 400 and no read; otherwise exactly one read; a 200 always carries a non-null `config` |
| ConfigRoute.GetBlankIsEmptyConfig | web/app/api/config/route.ts:26-34 | blank stored text answers `{config: {model: "", reviews: []}}` |
| ConfigRoute.GetReturnsParsedConfig | web/app/api/config/route.ts:36-37 | non-blank text is answered with the parsed document, or the empty config when it parses to null; a parse error rejects |
| ConfigRoute.HandlePost | web/app/api/config/route.ts:52-72 | an invalid name gets 400 and no write; the handler always responds, with 200 or 400, and 200 exactly when the body parsed, was not null and the write succeeded; a body that does not parse gets 400 with its error's message (or the fixed one) and no write, as does a null body with the property-read error; any other body writes exactly the stringified `config ?? empty`; at most one write |
| ConfigRoute.PostWithoutConfigStoresEmpty | web/app/api/config/route.ts:62-65 | a body without `config` (or with `config: null`) writes the empty config |
| ConfigRoute.PostStoresConfigUnchecked | web/app/api/config/route.ts:61-66 | the posted config is written as posted, without the config schema |
| ConfigRoute.PostWriteFailure | web/app/api/config/route.ts:67-70 | a failed write answers 400 with the error's message, or the fixed message for a non-error |
| ContextRoute.HandleGet | web/app/api/context/route.ts:16-27 | an invalid name gets 400 and no read; otherwise one read, answered with the content as read, or the read's rejection |
| ContextRoute.PostedContent | web/app/api/context/route.ts:38-39 | the content is accepted iff it is present, a string and not blank, and is then returned unchanged |
| ContextRoute.HandlePost | web/app/api/context/route.ts:29-48 | an invalid name gets 400 and no write; a write happens iff the body parsed to a non-null value with acceptable content, and it writes that content unchanged; `{ok: true}` iff that write succeeded |
| ContextRoute.PostRejectsBlankContent | web/app/api/context/route.ts:39-44 | for any non-null body, a missing, non-string or whitespace-only `content` gets 400 and no write |
| ContextRoute.PostKeepsContentUntrimmed | web/app/api/context/route.ts:46-47 | content with surrounding whitespace is stored untrimmed |
| RenameRoute.TrimmedField | web/app/api/workflows/rename/route.ts:11-12 | an absent or null field gives no name, a string gives its trim, and any other value throws |
| RenameRoute.StatusFor | web/app/api/workflows/rename/route.ts:27 | 409 iff the message contains "すでに存在します", else 400 |
| RenameRoute.HandlePost | web/app/api/workflows/rename/route.ts:9-30 | a rename is attempted only with both names present and non-blank after trimming, and with exactly those trimmed names; for any non-null body (whatever other keys it has) carrying both trimmed names, exactly one rename of those names is attempted and the answer is `{ok: true, workflow: <trimmed to>}` on success, otherwise the error's message (or the fixed fallback) with 409 or 400 as `StatusFor` selects |
| RenameRoute.MissingNameRefused | web/app/api/workflows/rename/route.ts:14-19 | for any non-null body (whatever other keys it has), a `from` or `to` that is absent, null or blank after trimming gets 400 and no rename |
| RenameRoute.RenameUsesTrimmedNames | web/app/api/workflows/rename/route.ts:11-23 | for any non-null body whose `from` and `to` are non-blank strings, whatever other keys it has: the rename uses the trimmed names, and success answers 200 `{ok: true, workflow: <trimmed to>}` |
| RenameRoute.RenameFailureStatus | web/app/api/workflows/rename/route.ts:21-28 | for any non-null body with both trimmed names, a failed rename attempts exactly that rename and answers the error's message (or the fixed fallback) with `StatusFor` of it: 409 exactly when an error's message mentions an existing target, a non-error 400 with the fixed message |
| RenameRoute.FallbackIsNotConflict | web/app/api/workflows/rename/route.ts:26-27 | the fixed fallback message never maps to 409 |
| Cli.KindFor | cli/src/index.ts:23 | the kind is "diff" iff `--diff` is given; `--text` is not consulted |
| Cli.FormatReview | cli/src/index.ts:71-80 | the six lines of a finding joined by newlines; its layout is `Cli.FormatReviewLayout` and its score line `Cli.ScoreLineReadsBack` |
| Cli.FormatReviewLayout | cli/src/index.ts:71-80 | the printed finding is the name, score, file path, line, "内容:" and review lines in that order, with the review verbatim |
| Cli.ScoreLineReadsBack | cli/src/index.ts:74 | the printed score is decimal digits that read back as the score |
| Cli.TranscriptOrder | cli/src/index.ts:35-38 | the i-th finding is printed at position 2i and followed by the separator |
| Cli.BlankStdinStopsFirst | cli/src/index.ts:24-28 | whitespace-only stdin exits with code 1 and one error line, before the config is loaded or any step runs |
| Cli.ExitCodeReflectsFindings | cli/src/index.ts:40-46 | after a run, exit code 2 iff there are findings; otherwise the command returns after printing only the all-clear line; with findings, exactly the findings and separators are printed |
| Cli.Review | cli/src/index.ts:18-47 | the `review` action as a function of stdin, the loaded config and the step executor; `Cli.BlankStdinStopsFirst` and `Cli.ExitCodeReflectsFindings` state its output and ending |
| Cli.PrintFindings | cli/src/index.ts:35-38 | the print loop writes exactly `Transcript` of the formatted findings: each finding, then the separator, in order |
| Cli.ReviewCommand | cli/src/index.ts:22-47 | the action's output and ending equal `Cli.Review` for its stdin, the loaded config and the engine's step executor with the chosen kind |
| Cli.Completion | cli/src/index.ts:56-67 | the fish script is printed iff the shell is "fish"; any other shell gets one error line and exit code 1 |

## Left out

- The review service (`new Codex`, `startThread`, `thread.run`): modelled as a function from model and message to the final response text or an error. Thread options other than the model are not modelled: the working directory, the git check and the output schema.
- `JSON.parse`, `YAML.parse`, `YAML.stringify`, zod internals: parsing is a parameter returning a JSON value or a failure. Schema errors carry no issue details. Zod's stripping of unknown keys is not modelled.
- The file system (`fs.readFile`, `readdir`, `mkdir`, `writeFile`) and web/lib/files.ts: reads and writes are parameters. `path.join` normalisation is not performed; paths keep their segments apart.
- web/lib/files.ts has signatures that disagree with the routes calling it. The routes are modelled as written, with their file operations as parameters keyed by workflow name.
- `loadBuiltInPrompt` and `loadConfig` are imported but not defined in the shown code; they are parameters.
- `localeCompare`: an arbitrary total preorder given by the caller.
- `Promise.all`: when both prompt loads fail, the model reports the user prompt's error.
- `Promise.all`: the concurrent prompt uploads of `save` are a sequence in step order.
- Network failures of the editor's `fetch` calls in `save` are not modelled; the server's answer is a boolean.
- The `saving` indicator is true only between two awaits; the model gives only its final value.
- `createReviewId` randomness: fresh ids are an input.
- React rendering, `useEffect` cancellation and `useMemo`: not modelled. The handlers act directly on the state.
- ConfigEditor.ConfigEditor.MoveReview: requires `from` to be an index of the list, which is all the component passes. JavaScript's `splice` with another `from` would insert `undefined`, which the typed model cannot hold.
- ConfigEditor.Patched: a patch field that is present but `undefined` would overwrite with `undefined`. The model treats a patch field as set or unset.
- ConfigEditor.LoadDefaulting: loaded fields are strings, booleans or absent. A JSON value of another type, which the component would keep unchecked, is not represented.
- Prompt-map keys are plain strings; names such as `__proto__`, which behave specially on a JavaScript object, are not distinguished.
- The prompt upload URL `/api/prompts/<name>` is not modelled; uploads carry the name itself.
- Cli.ScoreLineReadsBack: JavaScript prints integers from 10^21 up in exponent notation. Scores are at most 100 and line numbers are taken to be below that bound.
- The wording of runtime `TypeError` messages, such as a property read on a `null` body, follows V8.
- A rejected route handler is answered by the framework; the model stops at the rejection.
- The `parallel` flag is stored and edited but never read by the step loop, so no parallel scheduling is modelled.
- The `config` command (cli/src/open-config.ts), stdin capture (cli/src/stdin.ts), commander argument parsing, the prompt routes and editor, the page and layout, and the workflow list route are not part of this model.
- A rejected `review` action ends as `Crashed` with the engine error. Node.js's report and exit code for an unhandled rejection are not modelled.
