/**
 * Override orchestration (`src/utils/prompt_build.rs`): wrapping a prompt in
 * its request envelope, merging the parameter sources, applying parameters
 * and path sets to the envelope's graph, and filling in defaults.
 */
module PromptBuild {
  import opened Wrappers
  import opened Json
  import opened Text
  import opened PromptOps

  // ---------------------------------------------------------------------------
  // The envelope rule of resolve_prompt_root_from_payload
  // ---------------------------------------------------------------------------

  /** `{"prompt": graph}`. */
  function Envelope(graph: Value): Value
  {
    Obj([Field("prompt", graph)])
  }

  /** A loaded workflow is kept if it already carries `prompt`, and wrapped otherwise. */
  function WrapWorkflow(wf: Value): (r: Value)
    ensures Has(r, "prompt")
    ensures Has(wf, "prompt") ==> r == wf
    ensures !Has(wf, "prompt") ==> Get(r, "prompt") == Some(wf) && FieldKeys(r.fields) == ["prompt"]
  {
    if Has(wf, "prompt") then wf else Envelope(wf)
  }

  /** Wrapping an envelope again changes nothing. */
  lemma WrapWorkflowIdempotent(wf: Value)
    ensures WrapWorkflow(WrapWorkflow(wf)) == WrapWorkflow(wf)
  {
  }

  /** `{dir}/{name}.json`, with trailing slashes of `dir` removed. */
  function WorkflowPath(dir: string, name: string): string
  {
    TrimEndMatches(dir, "/") + "/" + name + ".json"
  }

  /**
   * `resolve_prompt_root_from_payload`: the request body for a payload. A
   * payload `prompt` is wrapped; otherwise the named workflow is read (by
   * `read`, standing for the file system) and parsed (by `json`). Every
   * successful result carries a `prompt` key.
   */
  function ResolvePromptRoot(payload: Value, promptsDir: string, read: string -> Result<string, string>, json: JsonParser): (r: Result<Value, string>)
    ensures r.Ok? ==> Has(r.value, "prompt")
    ensures Get(payload, "prompt").Some? ==> r == Ok(Envelope(Get(payload, "prompt").value))
    ensures Get(payload, "prompt").None? && !(Get(payload, "workflow").Some? && Get(payload, "workflow").value.Str?) ==>
      r == Err("Either 'prompt' or 'workflow' must be provided")
    ensures Get(payload, "prompt").None? && Get(payload, "workflow").Some? && Get(payload, "workflow").value.Str? ==>
      var file := read(WorkflowPath(promptsDir, Get(payload, "workflow").value.s));
      && (file.Err? ==> r == Err("Failed to read workflow file: " + file.error))
      && (file.Ok? && json(file.value).Err? ==> r == Err("Failed to parse workflow JSON: " + json(file.value).error))
      && (file.Ok? && json(file.value).Ok? ==> r == Ok(WrapWorkflow(json(file.value).value)))
  {
    match Get(payload, "prompt")
    case Some(p) => Ok(Envelope(p))
    case None =>
      match Get(payload, "workflow")
      case Some(Str(name)) =>
        var file := read(WorkflowPath(promptsDir, name));
        if file.Err? then Err("Failed to read workflow file: " + file.error)
        else if json(file.value).Err? then Err("Failed to parse workflow JSON: " + json(file.value).error)
        else Ok(WrapWorkflow(json(file.value).value))
      case _ => Err("Either 'prompt' or 'workflow' must be provided")
  }

  // ---------------------------------------------------------------------------
  // Merging the parameter sources
  // ---------------------------------------------------------------------------

  /** The top-level payload keys that are copied into the parameters. */
  const TopKeys: seq<string> :=
    ["seed", "steps", "cfg", "sampler_name", "scheduler", "denoise",
     "width", "height", "batch_size", "ckpt_name", "text", "text_positive", "text_negative"]

  /** The fields of `payload.params` when it is an object, and none otherwise. */
  function ParamsFields(payload: Value): seq<Field>
  {
    match Get(payload, "params")
    case Some(Obj(fs)) => fs
    case _ => []
  }

  /** Insert every field of `fs`, in order, into `acc`. */
  function InsertAll(acc: seq<Field>, fs: seq<Field>): seq<Field>
  {
    if fs == [] then acc
    else
      var last := fs[|fs| - 1];
      Insert(InsertAll(acc, fs[..|fs| - 1]), last.key, last.val)
  }

  /** Insert each of `keys` that `payload` holds, in order, into `acc`. */
  function InsertPresent(acc: seq<Field>, payload: Value, keys: seq<string>): seq<Field>
  {
    if keys == [] then acc
    else InsertIfPresent(InsertPresent(acc, payload, keys[..|keys| - 1]), payload, keys[|keys| - 1])
  }

  /** Copy `payload[k]` into `acc` when `payload` holds `k`. */
  function InsertIfPresent(acc: seq<Field>, payload: Value, k: string): seq<Field>
  {
    if Get(payload, k).Some? then Insert(acc, k, Get(payload, k).value) else acc
  }

  lemma InsertIfPresentLookup(acc: seq<Field>, payload: Value, k: string, k': string)
    ensures Lookup(InsertIfPresent(acc, payload, k), k') == if k' == k && Get(payload, k).Some? then Get(payload, k) else Lookup(acc, k')
  {
    if Get(payload, k).Some? {
      LookupInsert(acc, k, Get(payload, k).value, k');
    }
  }

  /** The merged parameter object: `payload.params`, then the top-level keys on top. */
  function MergedParams(payload: Value): seq<Field>
  {
    InsertPresent(InsertAll([], ParamsFields(payload)), payload, TopKeys)
  }

  lemma {:induction false} InsertAllLookup(acc: seq<Field>, fs: seq<Field>, k: string)
    requires UniqueKeys(fs)
    ensures Lookup(InsertAll(acc, fs), k) == if k in FieldKeys(fs) then Lookup(fs, k) else Lookup(acc, k)
  {
    if fs != [] {
      var init, last := fs[..|fs| - 1], fs[|fs| - 1];
      assert fs == init + [last];
      UniqueKeysSnoc(init, last);
      InsertAllLookup(acc, init, k);
      LookupInsert(InsertAll(acc, init), last.key, last.val, k);
      LookupSnoc(init, last, k);
    }
  }

  /** In a list of distinct keys, the last key occurs nowhere before it. */
  lemma UniqueKeysSnoc(fs: seq<Field>, f: Field)
    requires UniqueKeys(fs + [f])
    ensures UniqueKeys(fs) && f.key !in FieldKeys(fs)
  {
    var all := fs + [f];
    forall i, j | 0 <= i < j < |fs| ensures fs[i].key != fs[j].key {
      assert fs[i] == all[i] && fs[j] == all[j];
    }
    forall i | 0 <= i < |fs| ensures FieldKeys(fs)[i] != f.key {
      assert fs[i] == all[i] && f == all[|fs|];
    }
  }

  /** Reading a key of a list with one more field at the end. */
  lemma {:induction false} LookupSnoc(fs: seq<Field>, f: Field, k: string)
    ensures Lookup(fs + [f], k) == if k in FieldKeys(fs) then Lookup(fs, k) else if f.key == k then Some(f.val) else None
    ensures FieldKeys(fs + [f]) == FieldKeys(fs) + [f.key]
  {
    if fs != [] {
      assert (fs + [f])[1..] == fs[1..] + [f];
      LookupSnoc(fs[1..], f, k);
    }
  }

  lemma {:induction false} InsertPresentLookup(acc: seq<Field>, payload: Value, keys: seq<string>, k: string)
    ensures Lookup(InsertPresent(acc, payload, keys), k) == if k in keys && Get(payload, k).Some? then Get(payload, k) else Lookup(acc, k)
  {
    if keys != [] {
      var init, last := keys[..|keys| - 1], keys[|keys| - 1];
      InsertPresentLookup(acc, payload, init, k);
      InsertIfPresentLookup(InsertPresent(acc, payload, init), payload, last, k);
      assert keys[|keys| - 1] in keys;
      assert k in keys <==> k in init || k == last;
    }
  }

  /**
   * The merged parameters hold every entry of `payload.params` and every
   * top-level key of the fixed list; on a clash the top-level value wins.
   */
  lemma MergedParamsLookup(payload: Value, k: string)
    requires UniqueKeys(ParamsFields(payload))
    ensures Lookup(MergedParams(payload), k) ==
      if k in TopKeys && Get(payload, k).Some? then Get(payload, k) else Lookup(ParamsFields(payload), k)
  {
    InsertPresentLookup(InsertAll([], ParamsFields(payload)), payload, TopKeys, k);
    InsertAllLookup([], ParamsFields(payload), k);
  }

  /** The merging loops of `apply_overrides_from_payload`. */
  method MergeParams(payload: Value) returns (merged: seq<Field>)
    ensures merged == MergedParams(payload)
  {
    merged := InsertFields([], ParamsFields(payload));
    merged := InsertPresentKeys(merged, payload, TopKeys);
  }

  /** Copy every field of `fs` into `acc`, in order. */
  method InsertFields(acc: seq<Field>, fs: seq<Field>) returns (r: seq<Field>)
    ensures r == InsertAll(acc, fs)
  {
    r := acc;
    var i := 0;
    while i < |fs|
      invariant 0 <= i <= |fs|
      invariant r == InsertAll(acc, fs[..i])
    {
      assert fs[..i + 1][..i] == fs[..i];
      r := Insert(r, fs[i].key, fs[i].val);
      i := i + 1;
    }
    assert fs[..i] == fs;
  }

  /** Taking one more key copies that key, if present, on top of the keys before it. */
  lemma InsertPresentStep(acc: seq<Field>, payload: Value, keys: seq<string>, j: nat)
    requires j < |keys|
    ensures InsertPresent(acc, payload, keys[..j + 1]) == InsertIfPresent(InsertPresent(acc, payload, keys[..j]), payload, keys[j])
  {
    assert keys[..j + 1][..j] == keys[..j];
  }

  /** One key of the loop: copy `payload[k]` into `acc` when it is there. */
  method CopyIfPresent(acc: seq<Field>, payload: Value, k: string) returns (r: seq<Field>)
    ensures r == InsertIfPresent(acc, payload, k)
  {
    r := acc;
    var v := Get(payload, k);
    if v.Some? {
      r := Insert(r, k, v.value);
    }
  }

  /** Copy each of `keys` that `payload` holds into `acc`, in order. */
  method InsertPresentKeys(acc: seq<Field>, payload: Value, keys: seq<string>) returns (r: seq<Field>)
    ensures r == InsertPresent(acc, payload, keys)
  {
    r := acc;
    var j := 0;
    while j < |keys|
      invariant 0 <= j <= |keys|
      invariant r == InsertPresent(acc, payload, keys[..j])
    {
      InsertPresentStep(acc, payload, keys, j);
      r := CopyIfPresent(r, payload, keys[j]);
      j := j + 1;
    }
    assert keys[..j] == keys;
  }

  // ---------------------------------------------------------------------------
  // apply_overrides_from_payload
  // ---------------------------------------------------------------------------

  const MissingPromptMessage: string := "Missing 'prompt' in body"

  /** The parameter stage: broadcast into `root.prompt` if anything was merged and there is a prompt. */
  function ParamsStage(root: Value, merged: seq<Field>): Value
  {
    if merged != [] && Has(root, "prompt") then
      Obj(Insert(root.fields, "prompt", ParamsMapped(Get(root, "prompt").value, Obj(merged))))
    else root
  }

  /** The string elements of `payload.sets` when it is an array; other elements are dropped. */
  function SetItems(payload: Value): seq<string>
  {
    match Get(payload, "sets")
    case Some(Arr(xs)) => Strings(xs)
    case _ => []
  }

  /** The strings among `xs`, in order. */
  function Strings(xs: seq<Value>): (r: seq<string>)
    ensures forall s :: s in r ==> Str(s) in xs
    ensures forall i :: 0 <= i < |xs| && xs[i].Str? ==> xs[i].s in r
  {
    if xs == [] then []
    else (if xs[0].Str? then [xs[0].s] else []) + Strings(xs[1..])
  }

  /** The strings of a concatenation are the strings of each part, in order. */
  lemma {:induction false} StringsAppend(a: seq<Value>, b: seq<Value>)
    ensures Strings(a + b) == Strings(a) + Strings(b)
  {
    if a != [] {
      assert (a + b)[0] == a[0] && (a + b)[1..] == a[1..] + b;
      StringsAppend(a[1..], b);
      ConcatAssoc(if a[0].Str? then [a[0].s] else [], Strings(a[1..]), Strings(b));
    } else {
      assert a + b == b;
    }
  }

  /** A string element contributes its text, any other element contributes nothing. */
  lemma StringsSingle(x: Value)
    ensures Strings([x]) == if x.Str? then [x.s] else []
  {
    assert [x][1..] == [];
  }

  /** One set: into the graph `root.prompt` first, and into `root` itself only if that fails. */
  function ApplyOneSet(root: Value, graph: Value, p: SetPair): Value
    requires root.Obj?
  {
    match SetPath(graph, p.path, p.val)
    case Some(g) => Obj(Insert(root.fields, "prompt", g))
    case None => SetPath(root, p.path, p.val).GetOr(root)
  }

  /** The path sets applied in order; an error when there is no `prompt` to apply them to. */
  function ApplySets(root: Value, pairs: seq<SetPair>): (Value, Outcome<string>)
    decreases pairs
  {
    if pairs == [] then (root, Pass)
    else match Get(root, "prompt")
      case None => (root, Fail(MissingPromptMessage))
      case Some(g) => ApplySets(ApplyOneSet(root, g, pairs[0]), pairs[1..])
  }

  /** A set never removes `prompt`: the walk replaces values and adds keys, it never deletes one. */
  lemma ApplyOneSetKeepsPrompt(root: Value, p: SetPair)
    requires Has(root, "prompt")
    ensures Has(ApplyOneSet(root, Get(root, "prompt").value, p), "prompt")
  {
    var g := Get(root, "prompt").value;
    if SetPath(g, p.path, p.val).None? && SetPath(root, p.path, p.val).Some? {
      SetPathKeepsKeys(root, p.path, p.val);
    }
  }

  /** A successful write keeps every key of the root object. */
  lemma SetPathKeepsKeys(root: Value, path: seq<string>, x: Value)
    requires SetPath(root, path, x).Some?
    ensures SetPath(root, path, x).value.Obj?
    ensures forall k :: k in FieldKeys(root.fields) ==> k in FieldKeys(SetPath(root, path, x).value.fields)
  {
  }

  /**
   * Once there is a prompt, every set is applied and the stage succeeds; the
   * missing-prompt error arises only before the first set, with `root` untouched.
   */
  lemma {:induction false} ApplySetsOutcome(root: Value, pairs: seq<SetPair>)
    decreases pairs
    ensures ApplySets(root, pairs).1 == if pairs != [] && !Has(root, "prompt") then Fail(MissingPromptMessage) else Pass
    ensures ApplySets(root, pairs).1.Fail? ==> ApplySets(root, pairs).0 == root
    ensures Has(root, "prompt") ==> Has(ApplySets(root, pairs).0, "prompt")
  {
    if pairs != [] && Has(root, "prompt") {
      ApplyOneSetKeepsPrompt(root, pairs[0]);
      ApplySetsOutcome(ApplyOneSet(root, Get(root, "prompt").value, pairs[0]), pairs[1..]);
    }
  }

  /** `apply_overrides_from_payload` as a function: the updated root, and whether it failed. */
  function OverridesApplied(root: Value, payload: Value, json: JsonParser, float: FloatParser): (Value, Outcome<string>)
  {
    var root1 := ParamsStage(root, MergedParams(payload));
    var items := SetItems(payload);
    if items == [] then (root1, Pass)
    else match SetPairsParsed(items, json, float)
      case Err(e) => (root1, Fail(e))
      case Ok(pairs) => ApplySets(root1, pairs)
  }

  /** Every item has the `KEY=VALUE` form. */
  predicate AllAssignments(items: seq<string>)
  {
    forall i :: 0 <= i < |items| ==> '=' in items[i]
  }

  /** The parameter stage touches only `prompt`, and does nothing without one. */
  lemma ParamsStageKeepsPrompt(root: Value, merged: seq<Field>)
    ensures Has(ParamsStage(root, merged), "prompt") == Has(root, "prompt")
    ensures !Has(root, "prompt") ==> ParamsStage(root, merged) == root
  {
    if merged != [] && Has(root, "prompt") {
      LookupInsert(root.fields, "prompt", ParamsMapped(Get(root, "prompt").value, Obj(merged)), "prompt");
    }
  }

  /**
   * The whole stage succeeds exactly when there are no set strings, or when
   * all of them have the `KEY=VALUE` form and there is a `prompt` to set into.
   */
  lemma OverridesOutcome(root: Value, payload: Value, json: JsonParser, float: FloatParser)
    ensures OverridesApplied(root, payload, json, float).1 == Pass <==>
      SetItems(payload) == [] || (AllAssignments(SetItems(payload)) && Has(root, "prompt"))
  {
    var root1 := ParamsStage(root, MergedParams(payload));
    var items := SetItems(payload);
    ParamsStageKeepsPrompt(root, MergedParams(payload));
    if items != [] {
      SetPairsParsedOk(items, json, float);
      if SetPairsParsed(items, json, float).Ok? {
        ApplySetsOutcome(root1, SetPairsParsed(items, json, float).value);
      }
    }
  }

  /**
   * A malformed set string fails the stage before any set is applied: the
   * error names the first malformed item and the parameter changes are kept.
   */
  lemma OverridesParseError(root: Value, payload: Value, json: JsonParser, float: FloatParser)
    requires !AllAssignments(SetItems(payload))
    ensures var (root', res) := OverridesApplied(root, payload, json, float);
      var items := SetItems(payload);
      && root' == ParamsStage(root, MergedParams(payload))
      && exists i :: && 0 <= i < |items| && '=' !in items[i]
                     && (forall j :: 0 <= j < i ==> '=' in items[j])
                     && res == Fail(InvalidSetMessage(items[i]))
  {
    var items := SetItems(payload);
    SetPairsParsedOk(items, json, float);
    SetPairsParsedErr(items, json, float);
  }

  /** Set strings without a `prompt` fail the stage and leave the root as it was. */
  lemma OverridesMissingPrompt(root: Value, payload: Value, json: JsonParser, float: FloatParser)
    requires SetItems(payload) != [] && AllAssignments(SetItems(payload)) && !Has(root, "prompt")
    ensures OverridesApplied(root, payload, json, float) == (root, Fail(MissingPromptMessage))
  {
    var items := SetItems(payload);
    ParamsStageKeepsPrompt(root, MergedParams(payload));
    SetPairsParsedOk(items, json, float);
    var pairs := SetPairsParsed(items, json, float).value;
    assert pairs != [];
  }

  /**
   * `apply_overrides_from_payload`: merge the parameters and broadcast them,
   * then parse every set string before applying any, then apply the sets in
   * order. The updated root is returned on failure as well, because the
   * source leaves the parameter changes in place when it returns an error.
   */
  method ApplyOverridesFromPayload(root: Value, payload: Value, json: JsonParser, float: FloatParser)
    returns (root': Value, res: Outcome<string>)
    ensures (root', res) == OverridesApplied(root, payload, json, float)
  {
    root' := root;
    var merged := MergeParams(payload);
    if merged != [] && Has(root', "prompt") {
      var graph := ApplyParamsMap(Get(root', "prompt").value, Obj(merged));
      root' := Obj(Insert(root'.fields, "prompt", graph));
    }
    var items := SetItems(payload);
    if items == [] {
      return root', Pass;
    }
    var parsed := ParseSetPairs(items, json, float);
    if parsed.Err? {
      return root', Fail(parsed.error);
    }
    root', res := ApplySetsInOrder(root', parsed.value);
  }

  /**
   * The set loop of `apply_overrides_from_payload`: each pair goes into the
   * graph, or into the root when the graph rejects it; no graph is an error.
   */
  method ApplySetsInOrder(root: Value, pairs: seq<SetPair>) returns (root': Value, res: Outcome<string>)
    ensures (root', res) == ApplySets(root, pairs)
  {
    root' := root;
    var i := 0;
    assert pairs[0..] == pairs;
    while i < |pairs|
      invariant 0 <= i <= |pairs|
      invariant ApplySets(root', pairs[i..]) == ApplySets(root, pairs)
    {
      var p := pairs[i];
      assert pairs[i..][0] == p && pairs[i..][1..] == pairs[i + 1..];
      var graph := Get(root', "prompt");
      if graph.None? {
        return root', Fail(MissingPromptMessage);
      }
      ghost var next := ApplyOneSet(root', graph.value, p);
      assert ApplySets(root', pairs[i..]) == ApplySets(next, pairs[i + 1..]);
      var applied, graph' := ApplySetPath(graph.value, p.path, p.val);
      if applied {
        root' := Obj(Insert(root'.fields, "prompt", graph'));
      } else {
        var _, r := ApplySetPath(root', p.path, p.val);
        root' := r;
      }
      assert root' == next;
      i := i + 1;
    }
    return root', Pass;
  }

  // ---------------------------------------------------------------------------
  // ensure_defaults_on_root
  // ---------------------------------------------------------------------------

  const DefaultFilenamePrefix: string := "Derivata"

  /** `ensure_defaults_on_root` as a function. */
  function DefaultsOnRoot(root: Value, prefix: Option<string>): Value
  {
    match Get(root, "prompt")
    case Some(g) => Obj(Insert(root.fields, "prompt", FilenamePrefixed(g, prefix.GetOr(DefaultFilenamePrefix))))
    case None => root
  }

  /**
   * Without a `prompt` the root is unchanged; otherwise only `prompt` changes,
   * defaulted with the given prefix or `Derivata`, and doing it again changes nothing.
   */
  lemma DefaultsOnRootEffect(root: Value, prefix: Option<string>)
    ensures !Has(root, "prompt") ==> DefaultsOnRoot(root, prefix) == root
    ensures Has(root, "prompt") ==>
      var root' := DefaultsOnRoot(root, prefix);
      && root'.Obj? && FieldKeys(root'.fields) == FieldKeys(root.fields)
      && Get(root', "prompt") == Some(FilenamePrefixed(Get(root, "prompt").value, if prefix.Some? then prefix.value else "Derivata"))
      && (forall k :: k != "prompt" ==> Get(root', k) == Get(root, k))
    ensures DefaultsOnRoot(DefaultsOnRoot(root, prefix), prefix) == DefaultsOnRoot(root, prefix)
  {
    if Has(root, "prompt") {
      var p := prefix.GetOr(DefaultFilenamePrefix);
      var g := Get(root, "prompt").value;
      var root' := DefaultsOnRoot(root, prefix);
      forall k ensures Get(root', k) == if k == "prompt" then Some(FilenamePrefixed(g, p)) else Get(root, k) {
        LookupInsert(root.fields, "prompt", FilenamePrefixed(g, p), k);
      }
      FilenamePrefixedIdempotent(g, p);
      InsertExisting(root'.fields, "prompt", FilenamePrefixed(g, p));
    }
  }

  /** `ensure_defaults_on_root`. */
  method EnsureDefaultsOnRoot(root: Value, prefix: Option<string>) returns (root': Value)
    ensures root' == DefaultsOnRoot(root, prefix)
  {
    root' := root;
    var graph := Get(root, "prompt");
    if graph.Some? {
      var defaultPrefix := if prefix.Some? then prefix.value else DefaultFilenamePrefix;
      var graph' := EnsureFilenamePrefix(graph.value, defaultPrefix);
      root' := Obj(Insert(root.fields, "prompt", graph'));
    }
  }

  // ---------------------------------------------------------------------------
  // is_probably_graph
  // ---------------------------------------------------------------------------

  /** An object whose `class_type` is a string. */
  predicate LooksLikeNode(v: Value)
  {
    v.Obj? && Get(v, "class_type").Some? && Get(v, "class_type").value.Str?
  }

  function AnyLooksLikeNode(fs: seq<Field>): (r: bool)
    ensures r <==> exists i :: 0 <= i < |fs| && LooksLikeNode(fs[i].val)
  {
    if fs == [] then false
    else LooksLikeNode(fs[0].val) || (assert forall i :: 1 <= i < |fs| ==> fs[i] == fs[1..][i - 1]; AnyLooksLikeNode(fs[1..]))
  }

  /** `is_probably_graph`: an object with at least one entry that looks like a node. */
  function IsProbablyGraph(v: Value): (r: bool)
    ensures r <==> v.Obj? && exists i :: 0 <= i < |v.fields| && LooksLikeNode(v.fields[i].val)
  {
    v.Obj? && AnyLooksLikeNode(v.fields)
  }
}
