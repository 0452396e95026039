# The JSON override engine of the ComfyUI API proxy, in Dafny

A ComfyUI prompt graph is a JSON object: node ids map to nodes, and each node carries a
`class_type` and an `inputs` object. Before the proxy submits a graph, it rewrites the
graph from a request payload in fixed stages:

1. Wrap the graph in an envelope `{"prompt": graph}`.
2. Merge the `params` object with the top-level convenience keys.
3. Broadcast the known parameter keys into every node's existing inputs.
4. Parse the `sets` strings (`"a.b.c=value"`) and write each one along its dotted path. Each
   write goes first into the graph and, when that fails, into the envelope.
5. Give `SaveImage` nodes and node `"8"` a default `filename_prefix`.

The project also models two other pieces of the proxy:

- the `{{key}}` placeholder substitution of `PromptConstructor`;
- the walkers that gather filenames and prompt ids from a ComfyUI history document.

Files:

- `wrappers.dfy`: `Option`, `Result`, and `Outcome` (a pass, or a failure carrying an error).
- `json.dfy`: a `serde_json::Value`. An object is an association list of `Field(key, val)`.
  - Lookup takes the first entry with the key.
  - Insert overwrites that entry in place, or appends a new key at the end.
  - A float is kept as its opaque 64-bit pattern.
- `text.dfy`: the Rust `str` helpers the source uses (`split_once`, `split`, `join`,
  `trim_start_matches`, `trim_end_matches`, `trim`, `eq_ignore_ascii_case`), with their
  own contracts.
- `prompt_ops.dfy`: `parse_value`, `parse_set_pairs`, `apply_set_path`,
  `ensure_filename_prefix`, `KNOWN_PARAM_KEYS` and `apply_params_map`.
- `prompt_build.dfy`: the envelope rule, the orchestration in `apply_overrides_from_payload`,
  `ensure_defaults_on_root` and `is_probably_graph`.
- `constructor.dfy`: `construct_prompt`, `replace_placeholders` and the two validators.
- `handlers.dfy`: lines 41-78 of `queue_prompt`, the `json` query flag, the text body, and
  the three history collectors.

The source changes the tree in place through `&mut Value`. The model works on values
instead: each such operation is a `method` that takes the tree and returns the new tree.
The method is written as the source's loop, with loop invariants or recursive helper
methods, and its `ensures` equates the result with a specification function. The meaning
of that function is proved in lemmas: read-back, nothing else changes, key sets preserved,
idempotence, the exact error cases, and membership for the collectors.

`queue_prompt` repeats, line for line, the sequence of `apply_overrides_from_payload`
followed by the default prefix. It is therefore modelled (`Handlers.QueuePromptOverrides`)
by calling the same methods. It fills the default from the payload's `filename_prefix`,
or `"Derivata"` when that is absent.

## Model

| member | source | states |
|---|---|---|
| PromptOps.ParseI64 | src/utils/prompt_ops.rs:21 | A text is accepted exactly when it is an optional `+` or `-` followed by at least one decimal digit (leading zeros allowed) and the value fits in `i64`. The result is then the digits' value, negated after `-` |
| PromptOps.ParseI64Decimal | src/utils/prompt_ops.rs:21 | The decimal text of every `i64` parses back to that integer |
| PromptOps.ParseValue | src/utils/prompt_ops.rs:16-24 | Tries, in order: JSON; case-insensitive `null`, `true` and `false`; `i64`; `f64`, whose value is returned when it parses; and otherwise returns the text itself as a string |
| PromptOps.LiteralsDistinct | src/utils/prompt_ops.rs:18-21 | The three literals exclude each other and are never integers, so the order of the steps is unambiguous |
| PromptOps.ParseValueInteger | src/utils/prompt_ops.rs:21 | Any text that JSON rejects and that is an optional sign, then digits (leading zeros allowed), with an in-range value, becomes that signed integer |
| PromptOps.ParseValueSignedAndPadded | src/utils/prompt_ops.rs:21 | `+5`, `007` and `-007`, which JSON rejects, become 5, 7 and -7 |
| PromptOps.ParseValueBareWord | src/utils/prompt_ops.rs:23 | A bare word that is not JSON or a number comes back as the same string |
| PromptOps.ParseValueUpperCaseTrue | src/utils/prompt_ops.rs:19 | `"TRUE"` that is not JSON becomes `Bool(true)` |
| PromptOps.ParseSetPair | src/utils/prompt_ops.rs:6-8 | An item is rejected exactly when it has no `=` |
| PromptOps.ParseSetPairParts | src/utils/prompt_ops.rs:6-10 | The path is the text before the first `=` split on `.` (never empty, no piece contains `=`). The value is `parse_value` of everything after that `=` |
| PromptOps.PieceOfSplit | src/utils/prompt_ops.rs:9 | No path piece contains a character absent from the key text |
| PromptOps.SetPairsParsedOk | src/utils/prompt_ops.rs:3-14 | Parsing succeeds exactly when every item has `=`. It then gives one pair per item, in input order |
| PromptOps.SetPairsParsedErr | src/utils/prompt_ops.rs:6-8 | On failure the error is `Invalid --set '<item>', expected KEY=VALUE` for the first item without `=` |
| PromptOps.ParseSetPairs | src/utils/prompt_ops.rs:3-14 | The loop returns the specified result, including the early error |
| PromptOps.SetPathReadBack | src/utils/prompt_ops.rs:29-41 | After a successful write, reading along the path gives the new value |
| PromptOps.SetPathFrame | src/utils/prompt_ops.rs:29-41 | Every path that diverges from the written one reads as before |
| PromptOps.SetPathIntermediates | src/utils/prompt_ops.rs:39-41 | Each prefix of the path ends at an object. Its keys are the old keys plus the next key only when that key was missing. A created intermediate holds only the next key |
| PromptOps.EmptyReadPath | src/utils/prompt_ops.rs:41 | Below a created empty object, nothing but the object itself can be read |
| PromptOps.SetPathFails | src/utils/prompt_ops.rs:27-45 | A write fails exactly when the path is empty or the walk meets a non-object (at an intermediate step or at the last container) |
| PromptOps.ApplySetPath | src/utils/prompt_ops.rs:26-48 | The cursor loop returns true exactly on success. It returns the written tree on success and the unchanged tree on failure |
| PromptOps.WithPrefixEffect | src/utils/prompt_ops.rs:53-56 | A node without an `inputs` object is unchanged; otherwise the node keeps its keys and every field other than `inputs` |
| PromptOps.WithPrefixInputs | src/utils/prompt_ops.rs:53-56 | An `inputs` object gains `filename_prefix`, set to the default, only when the key is absent; an existing prefix and all other inputs keep their values |
| PromptOps.WithPrefixIdempotent | src/utils/prompt_ops.rs:53-56 | Adding the prefix twice equals adding it once, and the node's class is unaffected |
| PromptOps.FilenamePrefixedLookup | src/utils/prompt_ops.rs:50-69 | Node keys are unchanged. Node `"8"` (any class) and every `SaveImage` node get the default, and all other nodes are unchanged |
| PromptOps.FilenamePrefixedIdempotent | src/utils/prompt_ops.rs:50-69 | Filling the prefix defaults is idempotent |
| PromptOps.EnsureFilenamePrefix | src/utils/prompt_ops.rs:50-69 | The two in-place passes compute the specified graph, and a non-object graph is untouched |
| PromptOps.PrefixSaveImages | src/utils/prompt_ops.rs:59-67 | The node loop keeps every node key and adds the default to each `SaveImage` node |
| PromptOps.KnownParams | src/utils/prompt_ops.rs:97-102 | Every extracted pair is a known key together with its value in `params` |
| PromptOps.KnownParamsLookup | src/utils/prompt_ops.rs:72-102 | The extracted pairs hold exactly the known keys present in `params`. `text_positive` and `text_negative` are never among them |
| PromptOps.ApplyKvs | src/utils/prompt_ops.rs:108-112 | Broadcasting into an `inputs` object keeps its key set |
| PromptOps.ApplyKvsLookup | src/utils/prompt_ops.rs:108-112 | An input is overwritten only when it already exists and its key is a known parameter |
| PromptOps.ApplyKvsFixpoint | src/utils/prompt_ops.rs:108-112 | Broadcasting into inputs that already hold the values changes nothing |
| PromptOps.ParamsMappedNoop | src/utils/prompt_ops.rs:93-105 | Nothing changes when `params` or the graph is not an object, or when no known key is present |
| PromptOps.ParamsNodeEffect | src/utils/prompt_ops.rs:106-113 | Outside `inputs` a node keeps its keys and fields; a node without an `inputs` object is unchanged |
| PromptOps.ParamsNodeInputs | src/utils/prompt_ops.rs:107-112 | A node's `inputs` keeps its key set; a key takes the value from the parameters exactly when it is already an input, is a known parameter and is present in the parameters; every other input keeps its value |
| PromptOps.ParamsNodeIdempotent | src/utils/prompt_ops.rs:106-113 | Broadcasting into a node twice equals broadcasting once |
| PromptOps.ParamsMappedNodes | src/utils/prompt_ops.rs:105-115 | The graph keeps its node keys, and each node is broadcast into on its own |
| PromptOps.ParamsMappedIdempotent | src/utils/prompt_ops.rs:93-116 | `apply_params_map` is idempotent |
| PromptOps.CollectKnownParams | src/utils/prompt_ops.rs:97-102 | The extraction loop returns the known pairs in key-list order |
| PromptOps.BroadcastInputs | src/utils/prompt_ops.rs:108-112 | The inner loop computes the broadcast into one `inputs` object |
| PromptOps.BroadcastNode | src/utils/prompt_ops.rs:107-113 | Only a node with an `inputs` object is touched |
| PromptOps.BroadcastNodes | src/utils/prompt_ops.rs:106-114 | The node loop keeps node keys and broadcasts into each node |
| PromptOps.ApplyParamsMap | src/utils/prompt_ops.rs:93-116 | The method computes the specified graph |
| Json.Lookup | src/utils/prompt_ops.rs:99 | A key is found exactly when present, and the entry found is in the object |
| Json.Insert | src/utils/prompt_ops.rs:33 | Insertion keeps the key set, adding the key at the end only when it is new |
| Json.LookupInsert | src/utils/prompt_ops.rs:33 | Read-back after insert, with every other key unchanged |
| Json.InsertExisting | src/utils/prompt_ops.rs:110 | Inserting the value a key already holds changes nothing |
| Json.InsertKeepsUniqueKeys | src/utils/prompt_build.rs:26 | Insertion keeps keys unique, as a map's keys are |
| Json.LookupMapValues | src/utils/prompt_ops.rs:59 | Visiting every node keeps the keys and maps each value |
| Text.SplitOnce | src/utils/prompt_ops.rs:6 | Splitting at the first `=` gives text without `=`, then the separator, then the rest |
| Text.Split | src/utils/prompt_ops.rs:9 | Splitting gives at least one piece, and no piece contains the separator |
| Text.JoinSplit | src/api/handlers.rs:133 | Joining the pieces of a split restores the text |
| Text.SplitJoin | src/api/handlers.rs:133-138 | Splitting a join of pieces without the separator restores the pieces |
| Text.TrimStartMatches | src/prompt/constructor.rs:55 | The result is a suffix of the input that no longer starts with the pattern |
| Text.TrimStartMatchesRepeats | src/prompt/constructor.rs:55 | The input is some number of copies of the pattern followed by the result, and the result does not start with the pattern: exactly the leading repeats are removed |
| Text.TrimEndMatches | src/prompt/constructor.rs:55 | The result is a prefix of the input that no longer ends with the pattern |
| Text.TrimEndMatchesRepeats | src/prompt/constructor.rs:55 | The input is the result followed by some number of copies of the pattern, and the result does not end with the pattern: exactly the trailing repeats are removed |
| Text.Trim | src/prompt/constructor.rs:55 | Neither end of the result is whitespace |
| Text.TrimStartRemovesWhitespace | src/prompt/constructor.rs:55 | Every character removed from the front is whitespace |
| Text.TrimEndRemovesWhitespace | src/prompt/constructor.rs:55 | Every character removed from the back is whitespace |
| Text.TrimMiddle | src/prompt/constructor.rs:55 | The result is a middle slice of the input with only whitespace outside it |
| PromptBuild.WrapWorkflow | src/utils/prompt_build.rs:19 | A loaded workflow that has `prompt` is kept as it is; otherwise it becomes `{"prompt": wf}`. The result always has `prompt` |
| PromptBuild.WrapWorkflowIdempotent | src/utils/prompt_build.rs:19 | Wrapping twice equals wrapping once |
| PromptBuild.ResolvePromptRoot | src/utils/prompt_build.rs:6-20 | A payload `prompt` becomes `{"prompt": prompt}`. With neither a prompt nor a string workflow, the error is `Either 'prompt' or 'workflow' must be provided`. For a string workflow, a read error gives `Failed to read workflow file: ` plus the error, a parse error gives `Failed to parse workflow JSON: ` plus the error, and otherwise the loaded workflow is wrapped by the envelope rule. Every success has `prompt` |
| PromptBuild.InsertIfPresentLookup | src/utils/prompt_build.rs:33 | A top-level key is inserted only when the payload has it |
| PromptBuild.InsertAllLookup | src/utils/prompt_build.rs:25-27 | After copying `params`, each of its keys maps to its value, and every other key is as before |
| PromptBuild.InsertPresentLookup | src/utils/prompt_build.rs:28-34 | After the top-key loop, each listed key the payload has maps to the payload's value |
| PromptBuild.MergedParamsLookup | src/utils/prompt_build.rs:24-34 | The merged params: a top-level key of the fixed 13 wins, then a `params` entry, and otherwise the key is absent |
| PromptBuild.MergeParams | src/utils/prompt_build.rs:24-34 | The two insertion loops build the merged params |
| PromptBuild.InsertFields | src/utils/prompt_build.rs:25-27 | The `params` copy loop |
| PromptBuild.InsertPresentKeys | src/utils/prompt_build.rs:32-34 | The top-key loop |
| PromptBuild.Strings | src/utils/prompt_build.rs:40 | Exactly the string entries of `sets` are kept, and non-strings are dropped |
| PromptBuild.StringsAppend | src/utils/prompt_build.rs:40 | The strings of a concatenation are those of each part, in order, so the kept items keep the order of `sets` |
| PromptBuild.StringsSingle | src/utils/prompt_build.rs:40 | A string element gives its text, any other element gives nothing |
| PromptBuild.ApplyOneSetKeepsPrompt | src/utils/prompt_build.rs:44-48 | A set written to the graph or to the envelope keeps the envelope's `prompt` |
| PromptBuild.SetPathKeepsKeys | src/utils/prompt_ops.rs:29-41 | A successful write drops no existing key |
| PromptBuild.ApplySetsOutcome | src/utils/prompt_build.rs:43-49 | Applying sets fails exactly when there is one and `prompt` is missing, with `Missing 'prompt' in body`. A failure leaves the root unchanged, and a present `prompt` survives |
| PromptBuild.ApplySetsInOrder | src/utils/prompt_build.rs:43-49 | The loop over pairs tries the graph first and the envelope as fallback, in order |
| PromptBuild.ParamsStageKeepsPrompt | src/utils/prompt_build.rs:35-37 | The params stage keeps `prompt`, and without `prompt` it changes nothing |
| PromptBuild.OverridesOutcome | src/utils/prompt_build.rs:22-53 | The overrides pass exactly when there is no string set, or every string set has `=` and the root has `prompt` |
| PromptBuild.OverridesParseError | src/utils/prompt_build.rs:39-42 | A bad set item fails before any set is applied, naming the first bad item. The param changes stay |
| PromptBuild.OverridesMissingPrompt | src/utils/prompt_build.rs:35-49 | With sets and no `prompt`, the root is unchanged and the error is `Missing 'prompt' in body` |
| PromptBuild.ApplyOverridesFromPayload | src/utils/prompt_build.rs:22-53 | The method returns the specified root and outcome |
| PromptBuild.DefaultsOnRootEffect | src/utils/prompt_build.rs:55-60 | Without `prompt`, nothing changes. Otherwise the envelope keys are kept and the graph gets the prefix default (`"Derivata"` when none is given). The operation is idempotent |
| PromptBuild.EnsureDefaultsOnRoot | src/utils/prompt_build.rs:55-60 | The method computes the defaults |
| PromptBuild.AnyLooksLikeNode | src/utils/prompt_build.rs:72-76 | The loop's early return finds an entry exactly when one is an object with a string `class_type` |
| PromptBuild.IsProbablyGraph | src/utils/prompt_build.rs:70-79 | True exactly for an object with some object entry whose `class_type` is a string |
| Constructor.SubstitutedInstance | src/prompt/constructor.rs:41-66 | Substitution succeeds with `w` exactly when `w` is the template with every placeholder replaced by its input: non-placeholders stay, and objects and arrays keep their keys, length and order |
| Constructor.ElemsInstance | src/prompt/constructor.rs:48-52 | Array elements are substituted pointwise |
| Constructor.FieldsInstance | src/prompt/constructor.rs:43-47 | Object values are substituted pointwise, keeping the keys |
| Constructor.FirstMissingFound | src/prompt/constructor.rs:56-59 | A missing key is reported exactly when some key has no input, and the key reported is the earliest such key |
| Constructor.FirstMissingAppend | src/prompt/constructor.rs:44-51 | The first missing key of a walk comes from the earliest part of the walk that has one |
| Constructor.SubstitutedError | src/prompt/constructor.rs:41-66 | The error is `Missing input for placeholder: <key>` for the first placeholder in walk order whose key is absent. There is no error when none is absent |
| Constructor.ElemsError | src/prompt/constructor.rs:48-52 | The same for array elements |
| Constructor.FieldsError | src/prompt/constructor.rs:43-47 | The same for object values |
| Constructor.NonObjectInputs | src/prompt/constructor.rs:56-59 | With non-object inputs, the first placeholder fails |
| Constructor.NoPlaceholders | src/prompt/constructor.rs:18-25 | A template without placeholders comes back equal to itself |
| Constructor.NoPlaceholdersElems | src/prompt/constructor.rs:48-52 | The same for arrays |
| Constructor.NoPlaceholdersFields | src/prompt/constructor.rs:43-47 | The same for objects |
| Constructor.ReplacementVerbatim | src/prompt/constructor.rs:54-57 | A placeholder string becomes exactly the input under its trimmed key |
| Constructor.ReplacementNotRescanned | src/prompt/constructor.rs:57 | A replacement that is itself a placeholder is inserted as it is, not rescanned |
| Constructor.ReplacePlaceholders | src/prompt/constructor.rs:41-66 | The recursive in-place walk computes the specified result, stopping at the first error |
| Constructor.ReplaceString | src/prompt/constructor.rs:53-61 | The string case |
| Constructor.ReplaceInFields | src/prompt/constructor.rs:43-47 | The loop over object values |
| Constructor.ReplaceInElems | src/prompt/constructor.rs:48-52 | The loop over array elements |
| Constructor.ValidateTemplate | src/prompt/constructor.rs:29-32 | Always `Ok` |
| Constructor.ValidateInputs | src/prompt/constructor.rs:35-38 | Always `Ok` |
| Constructor.ConstructPrompt | src/prompt/constructor.rs:18-26 | Returns the substitution of a copy of the template; the template itself is a value and is never changed |
| Handlers.QueuedBodyOutcome | src/api/handlers.rs:41-78 | The handler's override section succeeds exactly when the overrides pass, and its body already carries the filename defaults |
| Handlers.QueuePromptOverrides | src/api/handlers.rs:41-78 | The section computes the specified body, using the payload's `filename_prefix` or `"Derivata"` |
| Handlers.JsonFlag | src/api/handlers.rs:125 | The flag is set exactly by the strings `true` and `1` |
| Handlers.HistoryBodyLines | src/api/handlers.rs:133-138 | The items, joined by line breaks, split back into the same items |
| Handlers.AnyFilenamesMembers | src/api/handlers.rs:284-295 | The collected names are exactly the strings stored under a `filename` key at any depth |
| Handlers.FieldsFilenamesMembers | src/api/handlers.rs:287-290 | Per entry: the entry's own string `filename`, then everything inside its value |
| Handlers.ElemsFilenamesMembers | src/api/handlers.rs:292 | Per array element |
| Handlers.NonStringFilename | src/api/handlers.rs:288-289 | A non-string `filename` is still descended into |
| Handlers.CollectAnyFilenames | src/api/handlers.rs:284-295 | Only appends: the old accumulator is followed by the names in pre-order |
| Handlers.CollectFilenamesInFields | src/api/handlers.rs:287-290 | The entry loop |
| Handlers.CollectFilenamesInElems | src/api/handlers.rs:292 | The element loop |
| Handlers.Utf8Len | src/api/handlers.rs:301 | The byte length of a string lies between its length in code points and four times that |
| Handlers.PromptIdsMembers | src/api/handlers.rs:297-308 | The ids are exactly the keys, at least 8 bytes long, that hold objects in objects reached through `history` keys and array elements |
| Handlers.FieldsIdsMembers | src/api/handlers.rs:300-303 | Per entry: the entry's key if it qualifies, then the ids inside a `history` value |
| Handlers.ElemsIdsMembers | src/api/handlers.rs:305 | Per array element |
| Handlers.PromptIdsLong | src/api/handlers.rs:301 | Every collected id is at least 8 bytes long |
| Handlers.IdEntryLong | src/api/handlers.rs:301 | A qualifying entry's key is at least 8 bytes long |
| Handlers.CollectPromptIds | src/api/handlers.rs:297-308 | Only appends, in entry order |
| Handlers.CollectIdsInFields | src/api/handlers.rs:300-303 | The entry loop |
| Handlers.CollectIdsInElems | src/api/handlers.rs:305 | The element loop |
| Handlers.FieldFilenamesWithin | src/api/handlers.rs:275 | The filenames of one entry are among the filenames of its object |
| Handlers.FilenamesForIdWithin | src/api/handlers.rs:272-282 | Everything collected for an id is some filename of the document |
| Handlers.ForIdOfFieldsWithin | src/api/handlers.rs:277 | The same for the walk over an object's values |
| Handlers.ForIdOfElemsWithin | src/api/handlers.rs:279 | The same for the walk over an array |
| Handlers.HistoryVisitedTwice | src/api/handlers.rs:276-277 | The `history` child is walked twice, so its filenames appear twice |
| Handlers.CollectFilenamesForId | src/api/handlers.rs:272-282 | Only appends: the entry's filenames, then the history walk, then the walk over every value |
| Handlers.FilenamesForIdMembers | src/api/handlers.rs:272-282 | A filename is collected exactly when some object reached through values has an entry for the id with that filename below it |
| Handlers.ForIdOfFieldsMembers | src/api/handlers.rs:277 | The walk over an object's values finds exactly what some value holds for the id |
| Handlers.ForIdOfElemsMembers | src/api/handlers.rs:279 | The walk over an array finds exactly what some element holds for the id |
| Handlers.CollectForIdInFields | src/api/handlers.rs:277 | The value loop |
| Handlers.CollectForIdInElems | src/api/handlers.rs:279 | The element loop |

## Left out

- Reading the workflow file and parsing its text (src/utils/prompt_build.rs:13-18). Reading is a parameter `read`, and JSON text parsing is a parameter `json`, so only the error messages are modelled.
- Lines 22-38 of `queue_prompt`, which build the envelope. They lie outside lines 41-78; `PromptBuild.ResolvePromptRoot` with the directory `"prompts"` computes the same envelope.
- `serde_json::from_str` in `parse_value`, and the `f64` parse, are function parameters; a float is an opaque bit pattern. Properties that need these steps to fail assume so as hypotheses.
- Serialisation and logging: `maybe_log_verbose` (src/utils/prompt_build.rs:62-68) and the verbose log in `queue_prompt` (src/api/handlers.rs:80-83) do not change the body.
- The HTTP layer (axum handlers and responses), the ComfyUI client, configuration, the CLI, and `PromptConstructor::new`, which has no state.
- Object iteration order. serde_json's map order depends on a build feature, so the model takes the association-list order as the iteration order, and new keys go at the end. The collector lemmas speak of membership and of the given order.
- In-place mutation and aliasing: the model returns new values, so it does not capture sharing between `&mut` borrows.
- PromptBuild.MergedParamsLookup: requires the keys of `params` to be unique. A serde map always has unique keys, but the association list does not enforce this.
- There is no text routing to KSampler or CLIPTextEncode inputs in the source, so none is modelled. `text_positive` and `text_negative` are merged but never broadcast.
