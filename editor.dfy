/**
 * The browser-side workflow editor (web/components/config-editor.tsx): the
 * editable config with a per-step `uid`, the list-editing updaters, the
 * prompt map carried along on renames, the validity check guarding `save`,
 * the uid-stripping projection that is saved, and the defaulting applied
 * when a config is loaded.
 *
 * Each updater of the source is a pure previous-to-next function; those are
 * the functions below, and the class `ConfigEditor` holds the component
 * state and applies them.
 */
module ConfigEditor {
  import opened Wrappers
  import opened Types
  import Text
  import Config
  import Reviewer

  /** A step as the editor holds it: every field present, plus a `uid` that only the editor uses. */
  datatype ReviewConfig = ReviewConfig(uid: string, name: string, description: string, model: string, parallel: bool)

  datatype EditorConfig = EditorConfig(model: string, reviews: seq<ReviewConfig>)

  /** `Partial<ReviewConfig>`: the fields a patch sets. */
  datatype ReviewPatch = ReviewPatch(
    uid: Option<string>,
    name: Option<string>,
    description: Option<string>,
    model: Option<string>,
    parallel: Option<bool>)

  /** The prompt text of each step, keyed by step name. */
  type PromptMap = map<string, string>

  const EmptyConfig := EditorConfig("", [])

  /** `emptyReview`: a fresh step with the given id and blank fields. */
  function EmptyReview(uid: string): ReviewConfig {
    ReviewConfig(uid, "", "", "", false)
  }

  // ---------------------------------------------------------------------
  // List updaters

  /** `filter((_, idx) => idx !== index)`: keep every element whose position differs from `index`. */
  function Removed<T>(s: seq<T>, index: int): (r: seq<T>)
    ensures |r| <= |s|
    decreases |s|
  {
    if s == [] then []
    else (if index == 0 then [] else [s[0]]) + Removed(s[1..], index - 1)
  }

  /** An index outside the list removes nothing. */
  lemma {:induction false} RemovedOutside<T>(s: seq<T>, index: int)
    requires !(0 <= index < |s|)
    ensures Removed(s, index) == s
    decreases |s|
  {
    if s != [] {
      RemovedOutside(s[1..], index - 1);
      assert s == [s[0]] + s[1..];
    }
  }

  /** An index inside the list removes exactly that element. */
  lemma {:induction false} RemovedInside<T>(s: seq<T>, index: int)
    requires 0 <= index < |s|
    ensures Removed(s, index) == s[..index] + s[index + 1..]
    decreases |s|
  {
    var t := s[1..];
    if index == 0 {
      RemovedOutside(t, -1);
      assert t == s[index + 1..];
    } else {
      RemovedInside(t, index - 1);
      assert s[..index] == [s[0]] + t[..index - 1];
      assert s[index + 1..] == t[index..];
    }
  }

  /** Removing deletes exactly the element at `index` and keeps the others in order; an index outside the list leaves it as it is. */
  lemma RemovedIsSlice<T>(s: seq<T>, index: int)
    ensures Removed(s, index) == if 0 <= index < |s| then s[..index] + s[index + 1..] else s
  {
    if 0 <= index < |s| {
      RemovedInside(s, index);
    } else {
      RemovedOutside(s, index);
    }
  }

  /** Adding a step and then removing the last position gives back the steps before the addition. */
  lemma RemoveUndoesAdd(reviews: seq<ReviewConfig>, uid: string)
    ensures Removed(reviews + [EmptyReview(uid)], |reviews|) == reviews
  {
    RemovedIsSlice(reviews + [EmptyReview(uid)], |reviews|);
    assert (reviews + [EmptyReview(uid)])[..|reviews|] == reviews;
  }

  /** `splice(i, 1)` on a copy, for a position inside the list. */
  function RemoveAt<T>(s: seq<T>, i: int): seq<T>
    requires 0 <= i < |s|
  {
    s[..i] + s[i + 1..]
  }

  /** `splice(i, 0, x)` on a copy, for a position inside the list or just past its end. */
  function InsertAt<T>(s: seq<T>, i: int, x: T): seq<T>
    requires 0 <= i <= |s|
  {
    s[..i] + [x] + s[i..]
  }

  /** `moveReview`'s updater: nothing changes for a target outside the list; otherwise the element at `from` is cut out and inserted at `to`. */
  function Moved<T>(s: seq<T>, from: int, to: int): seq<T>
    requires 0 <= from < |s|
  {
    if to < 0 || to >= |s| then s
    else InsertAt(RemoveAt(s, from), to, s[from])
  }

  /** Cutting an element out leaves the rest of the multiset. */
  lemma RemoveAtMultiset<T>(s: seq<T>, i: int)
    requires 0 <= i < |s|
    ensures multiset(RemoveAt(s, i)) + multiset([s[i]]) == multiset(s)
  {
    assert s == s[..i] + [s[i]] + s[i + 1..];
  }

  /** Inserting puts the element at its position and adds it to the multiset; cutting it out again undoes the insertion. */
  lemma InsertAtProperties<T>(s: seq<T>, i: int, x: T)
    requires 0 <= i <= |s|
    ensures |InsertAt(s, i, x)| == |s| + 1
    ensures InsertAt(s, i, x)[i] == x
    ensures multiset(InsertAt(s, i, x)) == multiset(s) + multiset([x])
    ensures RemoveAt(InsertAt(s, i, x), i) == s
  {
    var r := InsertAt(s, i, x);
    assert r[..i] == s[..i];
    assert r[i + 1..] == s[i..];
    assert s == s[..i] + s[i..];
  }

  /** A move keeps the length and the elements, puts the moved element at `to`, and keeps every other element in its relative order. */
  lemma MovedProperties<T>(s: seq<T>, from: int, to: int)
    requires 0 <= from < |s| && 0 <= to < |s|
    ensures var r := Moved(s, from, to);
      && |r| == |s|
      && multiset(r) == multiset(s)
      && r[to] == s[from]
      && RemoveAt(r, to) == RemoveAt(s, from)
  {
    RemoveAtMultiset(s, from);
    InsertAtProperties(RemoveAt(s, from), to, s[from]);
  }

  /** A target outside the list leaves it unchanged. */
  lemma MoveOutsideKeeps<T>(s: seq<T>, from: int, to: int)
    requires 0 <= from < |s| && (to < 0 || to >= |s|)
    ensures Moved(s, from, to) == s
  {
  }

  /** Moving back from `to` to `from` undoes a move. */
  lemma MoveBackRestores<T>(s: seq<T>, from: int, to: int)
    requires 0 <= from < |s| && 0 <= to < |s|
    ensures Moved(Moved(s, from, to), to, from) == s
  {
    var r := Moved(s, from, to);
    MovedProperties(s, from, to);
    assert RemoveAt(r, to) == RemoveAt(s, from);
    assert s == InsertAt(RemoveAt(s, from), from, s[from]);
  }

  /** `{ ...review, ...patch }`: each field the patch sets overrides the step's own. */
  function Patched(r: ReviewConfig, p: ReviewPatch): ReviewConfig {
    ReviewConfig(
      p.uid.GetOr(r.uid),
      p.name.GetOr(r.name),
      p.description.GetOr(r.description),
      p.model.GetOr(r.model),
      p.parallel.GetOr(r.parallel))
  }

  /** `updateReview`'s updater: the step at `index` is patched, every other step is kept. */
  function Updated(s: seq<ReviewConfig>, index: int, p: ReviewPatch): (r: seq<ReviewConfig>)
    ensures |r| == |s|
  {
    seq(|s|, k requires 0 <= k < |s| => if k == index then Patched(s[k], p) else s[k])
  }

  /** An update changes only the step at `index`, field by field as the patch says; outside the list it changes nothing. */
  lemma UpdatedChangesOnlyIndex(s: seq<ReviewConfig>, index: int, p: ReviewPatch)
    ensures forall k :: 0 <= k < |s| && k != index ==> Updated(s, index, p)[k] == s[k]
    ensures !(0 <= index < |s|) ==> Updated(s, index, p) == s
    ensures 0 <= index < |s| ==>
      var after := Updated(s, index, p)[index];
      && (p.name.Some? ==> after.name == p.name.value)
      && (p.name.None? ==> after.name == s[index].name)
      && (p.model.Some? ==> after.model == p.model.value)
      && (p.model.None? ==> after.model == s[index].model)
      && (p.description.Some? ==> after.description == p.description.value)
      && (p.description.None? ==> after.description == s[index].description)
      && (p.parallel.Some? ==> after.parallel == p.parallel.value)
      && (p.parallel.None? ==> after.parallel == s[index].parallel)
      && (p.uid.Some? ==> after.uid == p.uid.value)
      && (p.uid.None? ==> after.uid == s[index].uid)
  {
  }

  /** Applying the same patch twice is the same as applying it once. */
  lemma UpdateIdempotent(s: seq<ReviewConfig>, index: int, p: ReviewPatch)
    ensures Updated(Updated(s, index, p), index, p) == Updated(s, index, p)
  {
    var once := Updated(s, index, p);
    assert forall k :: 0 <= k < |s| ==> Updated(once, index, p)[k] == once[k];
  }

  /** The patch that only renames. */
  function NamePatch(name: string): ReviewPatch {
    ReviewPatch(None, Some(name), None, None, None)
  }

  /** The step-list half of `updateReviewName`: a missing step at `index` leaves the list as it is, otherwise that step gets the new name. */
  function Renamed(s: seq<ReviewConfig>, index: int, nextName: string): seq<ReviewConfig> {
    if !(0 <= index < |s|) then s
    else seq(|s|, k requires 0 <= k < |s| => if k == index then s[k].(name := nextName) else s[k])
  }

  /** The missing-step guard of the rename changes nothing: renaming is the name-only patch, for every index. */
  lemma RenameIsNamePatch(s: seq<ReviewConfig>, index: int, nextName: string)
    ensures Renamed(s, index, nextName) == Updated(s, index, NamePatch(nextName))
  {
  }

  /** The prompt-map half of `updateReviewName`: copy the old name's prompt (or "") to the new name, unless the old name is empty, the name did not change, or the new name already has a non-empty prompt. */
  function PromptsAfterRename(prompts: PromptMap, currentName: string, nextName: string): PromptMap {
    if currentName == "" || currentName == nextName then prompts
    else if nextName in prompts && prompts[nextName] != "" then prompts
    else prompts[nextName := if currentName in prompts then prompts[currentName] else ""]
  }

  /** A rename never drops a prompt and touches no key but the new name; the new name gets the old name's prompt exactly when the three guards let it through. */
  lemma PromptsAfterRenameProperties(prompts: PromptMap, currentName: string, nextName: string)
    ensures var after := PromptsAfterRename(prompts, currentName, nextName);
      && prompts.Keys <= after.Keys
      && (forall k :: k in prompts && k != nextName ==> after[k] == prompts[k])
      && after.Keys <= prompts.Keys + {nextName}
      && (var copies := currentName != "" && currentName != nextName && !(nextName in prompts && prompts[nextName] != "");
          && (copies ==> after[nextName] == (if currentName in prompts then prompts[currentName] else ""))
          && (!copies ==> after == prompts))
  {
  }

  /** The old name keeps its prompt after a rename, so it is still sent on the next save if a step with that name remains. */
  lemma RenameKeepsOldPrompt(prompts: PromptMap, currentName: string, nextName: string)
    requires currentName in prompts && currentName != nextName
    ensures currentName in PromptsAfterRename(prompts, currentName, nextName)
    ensures PromptsAfterRename(prompts, currentName, nextName)[currentName] == prompts[currentName]
  {
  }

  // ---------------------------------------------------------------------
  // Save

  /** `hasInvalid`: the default model is blank, there are no steps, or some step name is blank. */
  predicate HasInvalid(c: EditorConfig) {
    || Text.Trim(c.model) == ""
    || |c.reviews| == 0
    || exists i :: 0 <= i < |c.reviews| && Text.Trim(c.reviews[i].name) == ""
  }

  /** The step as saved: the `uid` dropped, the other fields always written. */
  function StripUid(r: ReviewConfig): ReviewSpec {
    ReviewSpec(r.name, Some(r.description), Some(r.model), Some(r.parallel))
  }

  /** `configToSave`: the model and the steps, in order, with their `uid`s removed. */
  function SaveProjection(c: EditorConfig): (r: SwissConfig)
    ensures r.model == c.model && |r.reviews| == |c.reviews|
  {
    SwissConfig(c.model, seq(|c.reviews|, i requires 0 <= i < |c.reviews| => StripUid(c.reviews[i])))
  }

  /** Two editor configs that differ at most in their steps' `uid`s. */
  predicate SameUpToUids(a: EditorConfig, b: EditorConfig) {
    && a.model == b.model
    && |a.reviews| == |b.reviews|
    && forall i :: 0 <= i < |a.reviews| ==> a.reviews[i].(uid := b.reviews[i].uid) == b.reviews[i]
  }

  /** The saved form forgets the `uid`s and nothing else. */
  lemma ProjectionForgetsOnlyUids(a: EditorConfig, b: EditorConfig)
    ensures SaveProjection(a) == SaveProjection(b) <==> SameUpToUids(a, b)
  {
    if SaveProjection(a) == SaveProjection(b) {
      forall i | 0 <= i < |a.reviews| ensures a.reviews[i].(uid := b.reviews[i].uid) == b.reviews[i] {
        assert SaveProjection(a).reviews[i] == SaveProjection(b).reviews[i];
      }
    }
    if SameUpToUids(a, b) {
      assert SaveProjection(a).reviews == SaveProjection(b).reviews;
    }
  }

  /** A config the editor lets through is one the workflow-config schema accepts. */
  lemma SaveGuardImpliesAccepted(c: EditorConfig)
    requires !HasInvalid(c)
    ensures Config.ConfigAccepted(SaveProjection(c))
  {
    var r := SaveProjection(c);
    forall s | s in r.reviews ensures s.name != "" {
      var i :| 0 <= i < |r.reviews| && r.reviews[i] == s;
      assert Text.Trim(c.reviews[i].name) != "";
    }
  }

  /** The converse fails: a whitespace model is accepted by the schema but refused by the editor. */
  lemma SaveGuardStricterThanSchema()
    ensures var c := EditorConfig(" ", [ReviewConfig("u", "r", "", "", false)]);
      HasInvalid(c) && Config.ConfigAccepted(SaveProjection(c))
  {
    assert Text.Trim(" ") == "";
  }

  /** A step saved with "use the default model" (an empty `model`) reaches the engine as the empty model: `??` keeps "", so the workflow default is not used. */
  lemma UnspecifiedModelReachesEngine(r: ReviewConfig, defaultModel: string)
    requires r.model == ""
    ensures Reviewer.ResolveModel(StripUid(r), defaultModel) == ""
  {
  }

  /** A prompt upload: the step name and the prompt text sent for it. */
  datatype PromptUpload = PromptUpload(name: string, content: string)

  /** The prompt uploads after a successful config save: one per step, in step order, with `prompts[name] ?? ""`. */
  function PromptUploads(reviews: seq<ReviewConfig>, prompts: PromptMap): (r: seq<PromptUpload>)
    ensures |r| == |reviews|
    ensures forall i :: 0 <= i < |r| ==> r[i].name == reviews[i].name
    ensures forall i :: 0 <= i < |r| && reviews[i].name in prompts ==> r[i].content == prompts[reviews[i].name]
    ensures forall i :: 0 <= i < |r| && reviews[i].name !in prompts ==> r[i].content == ""
  {
    seq(|reviews|, i requires 0 <= i < |reviews| =>
      var n := reviews[i].name;
      PromptUpload(n, if n in prompts then prompts[n] else ""))
  }

  const InvalidMessage := "モデル名とレビュー名を入力し、レビューを1つ以上追加してください。"
  const SavedMessage := "保存しました"
  const SaveFailedMessage := "保存に失敗しました"

  // ---------------------------------------------------------------------
  // Load

  /** A step as the config endpoint returns it: any field may be missing. */
  datatype LoadedReview = LoadedReview(
    name: Option<string>,
    description: Option<string>,
    model: Option<string>,
    parallel: Option<bool>)

  /** `configData.config`: the model and the step list may be missing. */
  datatype LoadedConfig = LoadedConfig(model: Option<string>, reviews: Option<seq<LoadedReview>>)

  /** What the two load requests produced: the config (absent when the response has none) and the prompt entries (absent likewise). */
  datatype LoadResponse = LoadResponse(config: Option<LoadedConfig>, prompts: Option<seq<PromptUpload>>)

  function LoadedReviews(c: Option<LoadedConfig>): seq<LoadedReview> {
    if c.Some? && c.value.reviews.Some? then c.value.reviews.value else []
  }

  /** The load-time defaulting: a missing config is the empty one, a missing model "", missing steps none, and each missing step field "" or `false`; every step gets the next id from `uids`. */
  function LoadDefaulting(c: Option<LoadedConfig>, uids: seq<string>): (r: EditorConfig)
    requires |uids| == |LoadedReviews(c)|
    ensures |r.reviews| == |LoadedReviews(c)|
    ensures forall i :: 0 <= i < |r.reviews| ==> r.reviews[i].uid == uids[i]
    ensures c.None? ==> r == EmptyConfig
    ensures c.Some? ==> r.model == c.value.model.GetOr("")
    ensures forall i :: 0 <= i < |r.reviews| ==>
      var step := LoadedReviews(c)[i];
      && r.reviews[i].name == step.name.GetOr("")
      && r.reviews[i].description == step.description.GetOr("")
      && r.reviews[i].model == step.model.GetOr("")
      && r.reviews[i].parallel == step.parallel.GetOr(false)
  {
    var loaded := if c.Some? then c.value else LoadedConfig(Some(""), Some([]));
    var steps := LoadedReviews(c);
    EditorConfig(
      loaded.model.GetOr(""),
      seq(|steps|, i requires 0 <= i < |steps| =>
        ReviewConfig(
          uids[i],
          steps[i].name.GetOr(""),
          steps[i].description.GetOr(""),
          steps[i].model.GetOr(""),
          steps[i].parallel.GetOr(false))))
  }

  /** A saved config as it comes back from the config endpoint. */
  function AsLoaded(c: SwissConfig): LoadedConfig {
    LoadedConfig(Some(c.model), Some(seq(|c.reviews|, i requires 0 <= i < |c.reviews| =>
      LoadedReview(Some(c.reviews[i].name), c.reviews[i].description, c.reviews[i].model, c.reviews[i].parallel))))
  }

  function Uids(c: EditorConfig): (r: seq<string>)
    ensures |r| == |c.reviews|
  {
    seq(|c.reviews|, i requires 0 <= i < |c.reviews| => c.reviews[i].uid)
  }

  /** Loading what was saved gives the editor config back; with fresh ids it differs only in the `uid`s. */
  lemma LoadAfterSave(c: EditorConfig, uids: seq<string>)
    requires |uids| == |c.reviews|
    ensures LoadDefaulting(Some(AsLoaded(SaveProjection(c))), Uids(c)) == c
    ensures SameUpToUids(LoadDefaulting(Some(AsLoaded(SaveProjection(c))), uids), c)
  {
    var l := Some(AsLoaded(SaveProjection(c)));
    assert LoadDefaulting(l, Uids(c)).reviews == c.reviews;
  }

  /** A loaded step with every field missing becomes the blank step `addReview` appends, and a missing model becomes "". */
  lemma LoadedBlankStepIsEmptyReview(uid: string)
    ensures var blank := LoadedReview(None, None, None, None);
      LoadDefaulting(Some(LoadedConfig(None, Some([blank]))), [uid]) == EditorConfig("", [EmptyReview(uid)])
  {
  }

  /** A response without a config loads as the empty config. */
  lemma LoadWithoutConfigIsEmpty()
    ensures LoadDefaulting(None, []) == EmptyConfig
  {
  }

  /** `Object.fromEntries`: later entries for the same name overwrite earlier ones. */
  function FromEntries(entries: seq<PromptUpload>): PromptMap {
    if entries == [] then map[]
    else FromEntries(entries[..|entries| - 1])[entries[|entries| - 1].name := entries[|entries| - 1].content]
  }

  /** A name is a key exactly when some entry has it, and its prompt is that of the last such entry. */
  lemma {:induction false} FromEntriesLookup(entries: seq<PromptUpload>, name: string)
    ensures name in FromEntries(entries) <==> exists i :: 0 <= i < |entries| && entries[i].name == name
    ensures name in FromEntries(entries) ==>
      exists i :: 0 <= i < |entries| && entries[i].name == name
        && FromEntries(entries)[name] == entries[i].content
        && forall j :: i < j < |entries| ==> entries[j].name != name
  {
    if entries != [] {
      var init := entries[..|entries| - 1];
      var last := entries[|entries| - 1];
      var k := |entries| - 1;
      assert FromEntries(entries) == FromEntries(init)[last.name := last.content];
      FromEntriesLookup(init, name);
      if last.name == name {
        assert entries[k].name == name && FromEntries(entries)[name] == entries[k].content;
      } else if name in FromEntries(init) {
        var i :| 0 <= i < |init| && init[i].name == name
          && FromEntries(init)[name] == init[i].content
          && forall j :: i < j < |init| ==> init[j].name != name;
        assert entries[i] == init[i];
        assert FromEntries(entries)[name] == entries[i].content;
        forall j | i < j < |entries| ensures entries[j].name != name {
          if j < k { assert entries[j] == init[j]; }
        }
      } else {
        forall i | 0 <= i < |entries| ensures entries[i].name != name {
          if i < |init| { assert entries[i] == init[i]; }
        }
      }
    }
  }

  // ---------------------------------------------------------------------
  // The component state

  /** The editor component: the config being edited, the prompt map, and the loading, saving and message indicators. */
  class ConfigEditor {
    var config: EditorConfig
    var prompts: PromptMap
    var loading: bool
    var saving: bool
    var message: Option<string>

    /** The initial state: an empty config, no prompts, loading. */
    constructor()
      ensures config == EmptyConfig && prompts == map[]
      ensures loading && !saving && message == None
    {
      config := EmptyConfig;
      prompts := map[];
      loading := true;
      saving := false;
      message := None;
    }

    /** The load effect: `None` stands for a request or parse that threw, which resets to the empty config and no prompts; loading ends either way. */
    method Load(response: Option<LoadResponse>, uids: seq<string>)
      requires response.Some? ==> |uids| == |LoadedReviews(response.value.config)|
      modifies this
      ensures response.None? ==> config == EmptyConfig && prompts == map[]
      ensures response.Some? ==>
        && config == LoadDefaulting(response.value.config, uids)
        && prompts == FromEntries(response.value.prompts.GetOr([]))
      ensures !loading
      ensures saving == old(saving) && message == old(message)
    {
      match response {
        case None =>
          config := EmptyConfig;
          prompts := map[];
        case Some(data) =>
          config := LoadDefaulting(data.config, uids);
          prompts := FromEntries(data.prompts.GetOr([]));
      }
      loading := false;
    }

    /** `save`: an invalid config sends nothing and only sets the message. Otherwise the uid-free config is posted (`configSaved` is the server's answer) and, when that succeeded, one prompt upload per step; the message reports the outcome. */
    method Save(configSaved: bool) returns (sentConfig: Option<SwissConfig>, uploads: seq<PromptUpload>)
      modifies this
      ensures HasInvalid(old(config)) ==>
        && sentConfig == None && uploads == []
        && message == Some(InvalidMessage)
        && saving == old(saving)
      ensures !HasInvalid(old(config)) ==>
        && sentConfig == Some(SaveProjection(old(config)))
        && uploads == (if configSaved then PromptUploads(old(config).reviews, old(prompts)) else [])
        && message == Some(if configSaved then SavedMessage else SaveFailedMessage)
        && !saving
      ensures config == old(config) && prompts == old(prompts) && loading == old(loading)
    {
      if HasInvalid(config) {
        message := Some(InvalidMessage);
        return None, [];
      }
      saving := true;
      message := None;
      sentConfig := Some(SaveProjection(config));
      uploads := if configSaved then PromptUploads(config.reviews, prompts) else [];
      saving := false;
      message := Some(if configSaved then SavedMessage else SaveFailedMessage);
    }

    method UpdateModel(value: string)
      modifies this
      ensures config == old(config).(model := value)
      ensures prompts == old(prompts) && loading == old(loading) && saving == old(saving) && message == old(message)
    {
      config := config.(model := value);
    }

    /** `addReview`: one blank step appended at the end. */
    method AddReview(uid: string)
      modifies this
      ensures config.model == old(config).model
      ensures config.reviews == old(config).reviews + [EmptyReview(uid)]
      ensures prompts == old(prompts) && loading == old(loading) && saving == old(saving) && message == old(message)
    {
      config := config.(reviews := config.reviews + [EmptyReview(uid)]);
    }

    method RemoveReview(index: int)
      modifies this
      ensures config == old(config).(reviews := Removed(old(config).reviews, index))
      ensures prompts == old(prompts) && loading == old(loading) && saving == old(saving) && message == old(message)
    {
      config := config.(reviews := Removed(config.reviews, index));
    }

    /** `moveReview`: a target outside the list changes nothing; otherwise a copy of the list has the step at `from` spliced out and spliced back in at `to`. */
    method MoveReview(from: int, to: int)
      requires 0 <= from < |config.reviews|
      modifies this
      ensures config == old(config).(reviews := Moved(old(config).reviews, from, to))
      ensures prompts == old(prompts) && loading == old(loading) && saving == old(saving) && message == old(message)
    {
      if to < 0 || to >= |config.reviews| {
        return;
      }
      var next := config.reviews;
      var item := next[from];
      next := next[..from] + next[from + 1..];
      next := next[..to] + [item] + next[to..];
      config := config.(reviews := next);
    }

    method UpdateReview(index: int, patch: ReviewPatch)
      modifies this
      ensures config == old(config).(reviews := Updated(old(config).reviews, index, patch))
      ensures prompts == old(prompts) && loading == old(loading) && saving == old(saving) && message == old(message)
    {
      config := config.(reviews := Updated(config.reviews, index, patch));
    }

    /** `updateReviewName`: the step at `index` is renamed, and the prompt map carries the old name's prompt over to the new name. */
    method UpdateReviewName(index: int, currentName: string, nextName: string)
      modifies this
      ensures config == old(config).(reviews := Renamed(old(config).reviews, index, nextName))
      ensures prompts == PromptsAfterRename(old(prompts), currentName, nextName)
      ensures loading == old(loading) && saving == old(saving) && message == old(message)
    {
      config := config.(reviews := Renamed(config.reviews, index, nextName));
      prompts := PromptsAfterRename(prompts, currentName, nextName);
    }

    method UpdatePrompt(name: string, content: string)
      modifies this
      ensures prompts == old(prompts)[name := content]
      ensures config == old(config) && loading == old(loading) && saving == old(saving) && message == old(message)
    {
      prompts := prompts[name := content];
    }
  }
}
