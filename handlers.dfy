/**
 * The JSON logic of the HTTP handlers (`src/api/handlers.rs`): the override
 * section of `queue_prompt`, the `json` query flag, and the collectors that
 * walk a history document for filenames and prompt ids.
 */
module Handlers {
  import opened Wrappers
  import opened Json
  import opened Text
  import opened PromptOps
  import opened PromptBuild

  // ---------------------------------------------------------------------------
  // The override section of queue_prompt
  // ---------------------------------------------------------------------------

  /** The payload's `filename_prefix` when it is a string. */
  function PayloadPrefix(payload: Value): Option<string>
  {
    match Get(payload, "filename_prefix")
    case Some(Str(s)) => Some(s)
    case _ => None
  }

  /**
   * The body `queue_prompt` sends: the overrides, then the default prefix
   * (the payload's or `Derivata`). A failed override stage is the handler's
   * error, and the partly changed root is dropped with it.
   */
  function QueuedBody(root: Value, payload: Value, json: JsonParser, float: FloatParser): Result<Value, string>
  {
    var (root', res) := OverridesApplied(root, payload, json, float);
    if res.Fail? then Err(res.error) else Ok(DefaultsOnRoot(root', PayloadPrefix(payload)))
  }

  /**
   * The handler succeeds exactly when the override stage does, and then the
   * body's graph already carries its defaults: filling them in again changes nothing.
   */
  lemma QueuedBodyOutcome(root: Value, payload: Value, json: JsonParser, float: FloatParser)
    ensures QueuedBody(root, payload, json, float).Ok? <==>
      SetItems(payload) == [] || (AllAssignments(SetItems(payload)) && Has(root, "prompt"))
    ensures QueuedBody(root, payload, json, float).Ok? ==>
      var body := QueuedBody(root, payload, json, float).value;
      DefaultsOnRoot(body, PayloadPrefix(payload)) == body
  {
    OverridesOutcome(root, payload, json, float);
    DefaultsOnRootEffect(OverridesApplied(root, payload, json, float).0, PayloadPrefix(payload));
  }

  /** Lines 41-78 of `queue_prompt`. */
  method QueuePromptOverrides(root: Value, payload: Value, json: JsonParser, float: FloatParser)
    returns (r: Result<Value, string>)
    ensures r == QueuedBody(root, payload, json, float)
  {
    var root', res := ApplyOverridesFromPayload(root, payload, json, float);
    if res.Fail? {
      return Err(res.error);
    }
    var prefix := PayloadPrefix(payload);
    root' := EnsureDefaultsOnRoot(root', prefix);
    return Ok(root');
  }

  // ---------------------------------------------------------------------------
  // The json flag and the text body
  // ---------------------------------------------------------------------------

  /** The `json` query flag: set only by the exact values `true` and `1`. */
  function JsonFlag(param: Option<string>): (r: bool)
    ensures r ==> param.Some? && param.value in {"true", "1"}
    ensures param == Some("true") || param == Some("1") ==> r
  {
    match param
    case Some(v) => v == "true" || v == "1"
    case None => false
  }

  /** The text body: the items one per line, and empty when there are none. */
  function HistoryBody(items: seq<string>): string
  {
    if items == [] then "" else Join(items, '\n')
  }

  /** Items without line breaks come back from the body by splitting at line breaks. */
  lemma HistoryBodyLines(items: seq<string>)
    requires items != []
    requires forall i :: 0 <= i < |items| ==> '\n' !in items[i]
    ensures Split(HistoryBody(items), '\n') == items
  {
    SplitJoin(items, '\n');
  }

  // ---------------------------------------------------------------------------
  // collect_any_filenames
  // ---------------------------------------------------------------------------

  /** Every string stored under a key `filename`, at any depth, in pre-order. */
  function AnyFilenames(v: Value): seq<string>
  {
    match v
    case Obj(fs) => FilenamesOfFields(fs)
    case Arr(xs) => FilenamesOfElems(xs)
    case _ => []
  }

  function FilenamesOfFields(fs: seq<Field>): seq<string>
  {
    if fs == [] then []
    else
      (if fs[0].key == "filename" && fs[0].val.Str? then [fs[0].val.s] else [])
      + AnyFilenames(fs[0].val) + FilenamesOfFields(fs[1..])
  }

  function FilenamesOfElems(xs: seq<Value>): seq<string>
  {
    if xs == [] then [] else AnyFilenames(xs[0]) + FilenamesOfElems(xs[1..])
  }

  /** `s` is stored under a `filename` key somewhere in `v`. */
  predicate HasFilename(v: Value, s: string)
  {
    match v
    case Obj(fs) => exists i :: 0 <= i < |fs| && ((fs[i].key == "filename" && fs[i].val == Str(s)) || HasFilename(fs[i].val, s))
    case Arr(xs) => exists i :: 0 <= i < |xs| && HasFilename(xs[i], s)
    case _ => false
  }

  /** The collected filenames are exactly the strings stored under `filename` keys. */
  lemma {:induction false} AnyFilenamesMembers(v: Value, s: string)
    ensures s in AnyFilenames(v) <==> HasFilename(v, s)
  {
    match v
    case Obj(fs) => FieldsFilenamesMembers(fs, s);
    case Arr(xs) => ElemsFilenamesMembers(xs, s);
    case _ =>
  }

  lemma {:induction false} FieldsFilenamesMembers(fs: seq<Field>, s: string)
    ensures s in FilenamesOfFields(fs) <==>
      exists i :: 0 <= i < |fs| && ((fs[i].key == "filename" && fs[i].val == Str(s)) || HasFilename(fs[i].val, s))
  {
    if fs != [] {
      AnyFilenamesMembers(fs[0].val, s);
      FieldsFilenamesMembers(fs[1..], s);
      assert forall i :: 1 <= i < |fs| ==> fs[i] == fs[1..][i - 1];
      if exists i :: 0 <= i < |fs| && ((fs[i].key == "filename" && fs[i].val == Str(s)) || HasFilename(fs[i].val, s)) {
        var i :| 0 <= i < |fs| && ((fs[i].key == "filename" && fs[i].val == Str(s)) || HasFilename(fs[i].val, s));
        if i > 0 { assert fs[1..][i - 1] == fs[i]; }
      }
    }
  }

  lemma {:induction false} ElemsFilenamesMembers(xs: seq<Value>, s: string)
    ensures s in FilenamesOfElems(xs) <==> exists i :: 0 <= i < |xs| && HasFilename(xs[i], s)
  {
    if xs != [] {
      AnyFilenamesMembers(xs[0], s);
      ElemsFilenamesMembers(xs[1..], s);
      assert forall i :: 1 <= i < |xs| ==> xs[i] == xs[1..][i - 1];
      if exists i :: 0 <= i < |xs| && HasFilename(xs[i], s) {
        var i :| 0 <= i < |xs| && HasFilename(xs[i], s);
        if i > 0 { assert xs[1..][i - 1] == xs[i]; }
      }
    }
  }

  /** A `filename` that is not a string is not collected, but its contents are searched. */
  lemma NonStringFilename(x: Value)
    requires !x.Str?
    ensures AnyFilenames(Obj([Field("filename", x)])) == AnyFilenames(x)
  {
    var fs := [Field("filename", x)];
    assert fs[1..] == [];
    assert FilenamesOfFields(fs) == [] + AnyFilenames(x) + FilenamesOfFields([]);
    assert [] + AnyFilenames(x) + [] == AnyFilenames(x);
  }

  /** `collect_any_filenames`: append the filenames found in `v` to `out`. */
  method CollectAnyFilenames(v: Value, out: seq<string>) returns (out': seq<string>)
    ensures out' == out + AnyFilenames(v)
    decreases v, 1
  {
    match v {
      case Obj(fs) =>
        out' := CollectFilenamesInFields(fs, out);
      case Arr(xs) =>
        out' := CollectFilenamesInElems(xs, out);
      case _ =>
        out' := out;
        assert out' + [] == out';
    }
  }

  /** The loop of `collect_any_filenames` over an object's entries. */
  method CollectFilenamesInFields(fs: seq<Field>, out: seq<string>) returns (out': seq<string>)
    ensures out' == out + FilenamesOfFields(fs)
    decreases fs, 0
  {
    out' := out;
    var i := 0;
    assert fs[0..] == fs;
    while i < |fs|
      invariant 0 <= i <= |fs|
      invariant out' + FilenamesOfFields(fs[i..]) == out + FilenamesOfFields(fs)
    {
      assert fs[i..][1..] == fs[i + 1..];
      var f := fs[i];
      ghost var prev := out';
      ghost var own := if f.key == "filename" && f.val.Str? then [f.val.s] else [];
      ghost var rest := FilenamesOfFields(fs[i + 1..]);
      assert FilenamesOfFields(fs[i..]) == (own + AnyFilenames(f.val)) + rest;
      out' := out' + (if f.key == "filename" && f.val.Str? then [f.val.s] else []);
      out' := CollectAnyFilenames(f.val, out');
      ConcatAssoc(prev, own, AnyFilenames(f.val));
      ConcatAssoc(prev, own + AnyFilenames(f.val), rest);
      i := i + 1;
    }
    assert out' + [] == out';
  }

  /** The loop of `collect_any_filenames` over an array's elements. */
  method CollectFilenamesInElems(xs: seq<Value>, out: seq<string>) returns (out': seq<string>)
    ensures out' == out + FilenamesOfElems(xs)
    decreases xs, 0
  {
    out' := out;
    var i := 0;
    assert xs[0..] == xs;
    while i < |xs|
      invariant 0 <= i <= |xs|
      invariant out' + FilenamesOfElems(xs[i..]) == out + FilenamesOfElems(xs)
    {
      assert xs[i..][1..] == xs[i + 1..];
      ghost var prev := out';
      out' := CollectAnyFilenames(xs[i], out');
      ConcatAssoc(prev, AnyFilenames(xs[i]), FilenamesOfElems(xs[i + 1..]));
      i := i + 1;
    }
    assert out' + [] == out';
  }

  // ---------------------------------------------------------------------------
  // collect_prompt_ids
  // ---------------------------------------------------------------------------

  /** The number of bytes of a character in UTF-8. */
  function Utf8Width(c: char): nat
  {
    if c as int < 0x80 then 1 else if c as int < 0x800 then 2 else if c as int < 0x1_0000 then 3 else 4
  }

  /** `str::len`: the length in UTF-8 bytes. */
  function Utf8Len(s: string): (n: nat)
    ensures |s| <= n <= 4 * |s|
  {
    if s == [] then 0 else Utf8Width(s[0]) + Utf8Len(s[1..])
  }

  /** A key taken as a prompt id: at least 8 bytes long, with an object value. */
  predicate IsIdEntry(f: Field)
  {
    Utf8Len(f.key) >= 8 && f.val.Obj?
  }

  /**
   * The prompt ids of a history document: in each visited object, every key
   * of at least 8 bytes with an object value, in entry order; only `history`
   * values and array elements are visited.
   */
  function PromptIds(v: Value): seq<string>
  {
    match v
    case Obj(fs) => IdsOfFields(fs)
    case Arr(xs) => IdsOfElems(xs)
    case _ => []
  }

  function IdsOfFields(fs: seq<Field>): seq<string>
  {
    if fs == [] then []
    else
      (if IsIdEntry(fs[0]) then [fs[0].key] else [])
      + (if fs[0].key == "history" then PromptIds(fs[0].val) else [])
      + IdsOfFields(fs[1..])
  }

  function IdsOfElems(xs: seq<Value>): seq<string>
  {
    if xs == [] then [] else PromptIds(xs[0]) + IdsOfElems(xs[1..])
  }

  /** `k` is an id entry of an object reached through `history` values and array elements. */
  predicate HasPromptId(v: Value, k: string)
  {
    match v
    case Obj(fs) => exists i :: 0 <= i < |fs| && ((fs[i].key == k && IsIdEntry(fs[i])) || (fs[i].key == "history" && HasPromptId(fs[i].val, k)))
    case Arr(xs) => exists i :: 0 <= i < |xs| && HasPromptId(xs[i], k)
    case _ => false
  }

  /** The collected ids are exactly the id entries reachable through `history` and arrays. */
  lemma {:induction false} PromptIdsMembers(v: Value, k: string)
    ensures k in PromptIds(v) <==> HasPromptId(v, k)
  {
    match v
    case Obj(fs) => FieldsIdsMembers(fs, k);
    case Arr(xs) => ElemsIdsMembers(xs, k);
    case _ =>
  }

  lemma {:induction false} FieldsIdsMembers(fs: seq<Field>, k: string)
    ensures k in IdsOfFields(fs) <==>
      exists i :: 0 <= i < |fs| && ((fs[i].key == k && IsIdEntry(fs[i])) || (fs[i].key == "history" && HasPromptId(fs[i].val, k)))
  {
    if fs != [] {
      var rest := fs[1..];
      PromptIdsMembers(fs[0].val, k);
      FieldsIdsMembers(rest, k);
      var own := if IsIdEntry(fs[0]) then [fs[0].key] else [];
      var below := if fs[0].key == "history" then PromptIds(fs[0].val) else [];
      assert IdsOfFields(fs) == own + below + IdsOfFields(rest);
      assert k in IdsOfFields(fs) <==> k in own || k in below || k in IdsOfFields(rest);
      if k in IdsOfFields(rest) {
        var i :| 0 <= i < |rest| && ((rest[i].key == k && IsIdEntry(rest[i])) || (rest[i].key == "history" && HasPromptId(rest[i].val, k)));
        assert fs[i + 1] == rest[i];
      }
      if exists i :: 0 <= i < |fs| && ((fs[i].key == k && IsIdEntry(fs[i])) || (fs[i].key == "history" && HasPromptId(fs[i].val, k))) {
        var i :| 0 <= i < |fs| && ((fs[i].key == k && IsIdEntry(fs[i])) || (fs[i].key == "history" && HasPromptId(fs[i].val, k)));
        if i > 0 {
          assert rest[i - 1] == fs[i];
        }
      }
    }
  }

  lemma {:induction false} ElemsIdsMembers(xs: seq<Value>, k: string)
    ensures k in IdsOfElems(xs) <==> exists i :: 0 <= i < |xs| && HasPromptId(xs[i], k)
  {
    if xs != [] {
      PromptIdsMembers(xs[0], k);
      ElemsIdsMembers(xs[1..], k);
      assert forall i :: 1 <= i < |xs| ==> xs[i] == xs[1..][i - 1];
      if exists i :: 0 <= i < |xs| && HasPromptId(xs[i], k) {
        var i :| 0 <= i < |xs| && HasPromptId(xs[i], k);
        if i > 0 { assert xs[1..][i - 1] == xs[i]; }
      }
    }
  }

  /** Every collected id is at least 8 bytes long. */
  lemma PromptIdsLong(v: Value)
    ensures forall k :: k in PromptIds(v) ==> Utf8Len(k) >= 8
  {
    forall k | k in PromptIds(v) ensures Utf8Len(k) >= 8 {
      PromptIdsMembers(v, k);
      IdEntryLong(v, k);
    }
  }

  lemma {:induction false} IdEntryLong(v: Value, k: string)
    requires HasPromptId(v, k)
    ensures Utf8Len(k) >= 8
  {
    match v
    case Obj(fs) =>
      var i :| 0 <= i < |fs| && ((fs[i].key == k && IsIdEntry(fs[i])) || (fs[i].key == "history" && HasPromptId(fs[i].val, k)));
      if !(fs[i].key == k && IsIdEntry(fs[i])) { IdEntryLong(fs[i].val, k); }
    case Arr(xs) =>
      var i :| 0 <= i < |xs| && HasPromptId(xs[i], k);
      IdEntryLong(xs[i], k);
  }

  /** `collect_prompt_ids`: append the prompt ids found in `v` to `out`. */
  method CollectPromptIds(v: Value, out: seq<string>) returns (out': seq<string>)
    ensures out' == out + PromptIds(v)
    decreases v, 1
  {
    match v {
      case Obj(fs) =>
        out' := CollectIdsInFields(fs, out);
      case Arr(xs) =>
        out' := CollectIdsInElems(xs, out);
      case _ =>
        out' := out;
        assert out' + [] == out';
    }
  }

  /** The loop of `collect_prompt_ids` over an object's entries. */
  method CollectIdsInFields(fs: seq<Field>, out: seq<string>) returns (out': seq<string>)
    ensures out' == out + IdsOfFields(fs)
    decreases fs, 0
  {
    out' := out;
    var i := 0;
    assert fs[0..] == fs;
    while i < |fs|
      invariant 0 <= i <= |fs|
      invariant out' + IdsOfFields(fs[i..]) == out + IdsOfFields(fs)
    {
      assert fs[i..][1..] == fs[i + 1..];
      var f := fs[i];
      ghost var prev := out';
      ghost var own := if IsIdEntry(f) then [f.key] else [];
      ghost var below := if f.key == "history" then PromptIds(f.val) else [];
      ghost var rest := IdsOfFields(fs[i + 1..]);
      assert IdsOfFields(fs[i..]) == (own + below) + rest;
      out' := out' + (if Utf8Len(f.key) >= 8 && f.val.Obj? then [f.key] else []);
      ghost var mid := out';
      if f.key == "history" {
        out' := CollectPromptIds(f.val, out');
      } else {
        assert out' + [] == out';
      }
      assert mid == prev + own && out' == mid + below;
      ConcatAssoc(prev, own, below);
      ConcatAssoc(prev, own + below, rest);
      i := i + 1;
    }
    assert out' + [] == out';
  }

  /** The loop of `collect_prompt_ids` over an array's elements. */
  method CollectIdsInElems(xs: seq<Value>, out: seq<string>) returns (out': seq<string>)
    ensures out' == out + IdsOfElems(xs)
    decreases xs, 0
  {
    out' := out;
    var i := 0;
    assert xs[0..] == xs;
    while i < |xs|
      invariant 0 <= i <= |xs|
      invariant out' + IdsOfElems(xs[i..]) == out + IdsOfElems(xs)
    {
      assert xs[i..][1..] == xs[i + 1..];
      ghost var prev := out';
      out' := CollectPromptIds(xs[i], out');
      ConcatAssoc(prev, PromptIds(xs[i]), IdsOfElems(xs[i + 1..]));
      i := i + 1;
    }
    assert out' + [] == out';
  }

  // ---------------------------------------------------------------------------
  // collect_filenames_for_id
  // ---------------------------------------------------------------------------

  /**
   * The filenames of one prompt: at every visited object, those under its
   * entry `id`, then those found from its `history` entry, then those found
   * from every entry (so `history` is searched twice); arrays are searched
   * element by element.
   */
  function FilenamesForId(v: Value, id: string): seq<string>
  {
    match v
    case Obj(fs) => EntryFilenames(fs, id) + HistoryFilenames(fs, id) + ForIdOfFields(fs, id)
    case Arr(xs) => ForIdOfElems(xs, id)
    case _ => []
  }

  /** The filenames under the object's entry `id`. */
  function EntryFilenames(fs: seq<Field>, id: string): seq<string>
  {
    match Lookup(fs, id)
    case Some(e) => AnyFilenames(e)
    case None => []
  }

  /** The filenames of prompt `id` found from the object's `history` entry. */
  function HistoryFilenames(fs: seq<Field>, id: string): seq<string>
  {
    match Lookup(fs, "history")
    case Some(h) => FilenamesForId(h, id)
    case None => []
  }

  function ForIdOfFields(fs: seq<Field>, id: string): seq<string>
  {
    if fs == [] then [] else FilenamesForId(fs[0].val, id) + ForIdOfFields(fs[1..], id)
  }

  function ForIdOfElems(xs: seq<Value>, id: string): seq<string>
  {
    if xs == [] then [] else FilenamesForId(xs[0], id) + ForIdOfElems(xs[1..], id)
  }

  /** The filenames below an entry are among the filenames of the object. */
  lemma {:induction false} FieldFilenamesWithin(fs: seq<Field>, k: string, x: Value, s: string)
    requires Field(k, x) in fs && s in AnyFilenames(x)
    ensures s in FilenamesOfFields(fs)
  {
    if fs[0] != Field(k, x) {
      FieldFilenamesWithin(fs[1..], k, x, s);
    }
  }

  /** Every filename found for a prompt id is a filename of the document. */
  lemma {:induction false} FilenamesForIdWithin(v: Value, id: string, s: string)
    requires s in FilenamesForId(v, id)
    ensures s in AnyFilenames(v)
  {
    match v
    case Obj(fs) =>
      if s in EntryFilenames(fs, id) {
        FieldFilenamesWithin(fs, id, Lookup(fs, id).value, s);
      } else if s in HistoryFilenames(fs, id) {
        var h := Lookup(fs, "history").value;
        FilenamesForIdWithin(h, id, s);
        FieldFilenamesWithin(fs, "history", h, s);
      } else {
        ForIdOfFieldsWithin(fs, id, s);
      }
    case Arr(xs) => ForIdOfElemsWithin(xs, id, s);
  }

  lemma {:induction false} ForIdOfFieldsWithin(fs: seq<Field>, id: string, s: string)
    requires s in ForIdOfFields(fs, id)
    ensures s in FilenamesOfFields(fs)
  {
    if s in FilenamesForId(fs[0].val, id) {
      FilenamesForIdWithin(fs[0].val, id, s);
    } else {
      ForIdOfFieldsWithin(fs[1..], id, s);
    }
  }

  lemma {:induction false} ForIdOfElemsWithin(xs: seq<Value>, id: string, s: string)
    requires s in ForIdOfElems(xs, id)
    ensures s in FilenamesOfElems(xs)
  {
    if s in FilenamesForId(xs[0], id) {
      FilenamesForIdWithin(xs[0], id, s);
    } else {
      ForIdOfElemsWithin(xs[1..], id, s);
    }
  }

  /**
   * `s` is found for prompt `id` in `v`: some object reached by descending
   * through values holds an entry `id` below which `s` is stored under a
   * `filename` key.
   */
  predicate HasFilenameForId(v: Value, id: string, s: string)
  {
    match v
    case Obj(fs) =>
      || (Lookup(fs, id).Some? && HasFilename(Lookup(fs, id).value, s))
      || exists i :: 0 <= i < |fs| && HasFilenameForId(fs[i].val, id, s)
    case Arr(xs) => exists i :: 0 <= i < |xs| && HasFilenameForId(xs[i], id, s)
    case _ => false
  }

  /**
   * The filenames collected for `id` are exactly those stored below an entry
   * `id` of some object the walk reaches; the extra visit of `history` adds
   * no new ones.
   */
  lemma {:induction false} FilenamesForIdMembers(v: Value, id: string, s: string)
    ensures s in FilenamesForId(v, id) <==> HasFilenameForId(v, id, s)
  {
    match v
    case Obj(fs) =>
      assert FilenamesForId(v, id) == EntryFilenames(fs, id) + HistoryFilenames(fs, id) + ForIdOfFields(fs, id);
      ForIdOfFieldsMembers(fs, id, s);
      if Lookup(fs, id).Some? {
        AnyFilenamesMembers(Lookup(fs, id).value, s);
      }
      if Lookup(fs, "history").Some? {
        var h := Lookup(fs, "history").value;
        assert Field("history", h) in fs;
        FilenamesForIdMembers(h, id, s);
        if s in FilenamesForId(h, id) {
          var i :| 0 <= i < |fs| && fs[i] == Field("history", h);
          assert HasFilenameForId(fs[i].val, id, s);
        }
      }
    case Arr(xs) => ForIdOfElemsMembers(xs, id, s);
    case _ =>
  }

  lemma {:induction false} ForIdOfFieldsMembers(fs: seq<Field>, id: string, s: string)
    ensures s in ForIdOfFields(fs, id) <==> exists i :: 0 <= i < |fs| && HasFilenameForId(fs[i].val, id, s)
  {
    if fs != [] {
      assert fs[0] in fs;
      FilenamesForIdMembers(fs[0].val, id, s);
      ForIdOfFieldsMembers(fs[1..], id, s);
      if exists i :: 0 <= i < |fs| && HasFilenameForId(fs[i].val, id, s) {
        var i :| 0 <= i < |fs| && HasFilenameForId(fs[i].val, id, s);
        if i > 0 { assert fs[1..][i - 1] == fs[i]; }
      }
      if exists i :: 0 <= i < |fs[1..]| && HasFilenameForId(fs[1..][i].val, id, s) {
        var i :| 0 <= i < |fs[1..]| && HasFilenameForId(fs[1..][i].val, id, s);
        assert fs[i + 1] == fs[1..][i];
      }
    }
  }

  lemma {:induction false} ForIdOfElemsMembers(xs: seq<Value>, id: string, s: string)
    ensures s in ForIdOfElems(xs, id) <==> exists i :: 0 <= i < |xs| && HasFilenameForId(xs[i], id, s)
  {
    if xs != [] {
      assert xs[0] in xs;
      FilenamesForIdMembers(xs[0], id, s);
      ForIdOfElemsMembers(xs[1..], id, s);
      if exists i :: 0 <= i < |xs| && HasFilenameForId(xs[i], id, s) {
        var i :| 0 <= i < |xs| && HasFilenameForId(xs[i], id, s);
        if i > 0 { assert xs[1..][i - 1] == xs[i]; }
      }
      if exists i :: 0 <= i < |xs[1..]| && HasFilenameForId(xs[1..][i], id, s) {
        var i :| 0 <= i < |xs[1..]| && HasFilenameForId(xs[1..][i], id, s);
        assert xs[i + 1] == xs[1..][i];
      }
    }
  }

  /** A lone `history` entry is searched twice, so its filenames come out twice. */
  lemma HistoryVisitedTwice(h: Value, id: string)
    requires id != "history"
    ensures FilenamesForId(Obj([Field("history", h)]), id) == FilenamesForId(h, id) + FilenamesForId(h, id)
  {
    var fs := [Field("history", h)];
    var hf := FilenamesForId(h, id);
    assert fs[1..] == [];
    assert Lookup(fs, id) == None;
    assert EntryFilenames(fs, id) == [];
    assert HistoryFilenames(fs, id) == hf;
    assert ForIdOfFields(fs, id) == hf + [];
    assert FilenamesForId(Obj(fs), id) == [] + hf + (hf + []);
    assert [] + hf + (hf + []) == hf + hf;
  }

  /** `collect_filenames_for_id`: append the filenames of prompt `id` found in `v` to `out`. */
  method CollectFilenamesForId(v: Value, id: string, out: seq<string>) returns (out': seq<string>)
    ensures out' == out + FilenamesForId(v, id)
    decreases v, 1
  {
    match v {
      case Obj(fs) =>
        out' := out;
        var entry := Lookup(fs, id);
        if entry.Some? {
          out' := CollectAnyFilenames(entry.value, out');
        } else {
          assert out' + [] == out';
        }
        ghost var e, h, f := EntryFilenames(fs, id), HistoryFilenames(fs, id), ForIdOfFields(fs, id);
        assert out' == out + e;
        var history := Lookup(fs, "history");
        if history.Some? {
          out' := CollectFilenamesForId(history.value, id, out');
        } else {
          assert out' + [] == out';
        }
        assert out' == (out + e) + h;
        out' := CollectForIdInFields(fs, id, out');
        ConcatAssoc(out + e, h, f);
        ConcatAssoc(out, e, h + f);
        ConcatAssoc(e, h, f);
      case Arr(xs) =>
        out' := CollectForIdInElems(xs, id, out);
      case _ =>
        out' := out;
        assert out' + [] == out';
    }
  }

  /** The loop of `collect_filenames_for_id` over an object's entries. */
  method CollectForIdInFields(fs: seq<Field>, id: string, out: seq<string>) returns (out': seq<string>)
    ensures out' == out + ForIdOfFields(fs, id)
    decreases fs, 0
  {
    out' := out;
    var i := 0;
    assert fs[0..] == fs;
    while i < |fs|
      invariant 0 <= i <= |fs|
      invariant out' + ForIdOfFields(fs[i..], id) == out + ForIdOfFields(fs, id)
    {
      assert fs[i..][1..] == fs[i + 1..];
      assert ForIdOfFields(fs[i..], id) == FilenamesForId(fs[i].val, id) + ForIdOfFields(fs[i + 1..], id);
      ghost var prev := out';
      out' := CollectFilenamesForId(fs[i].val, id, out');
      ConcatAssoc(prev, FilenamesForId(fs[i].val, id), ForIdOfFields(fs[i + 1..], id));
      i := i + 1;
    }
    assert out' + [] == out';
  }

  /** The loop of `collect_filenames_for_id` over an array's elements. */
  method CollectForIdInElems(xs: seq<Value>, id: string, out: seq<string>) returns (out': seq<string>)
    ensures out' == out + ForIdOfElems(xs, id)
    decreases xs, 0
  {
    out' := out;
    var i := 0;
    assert xs[0..] == xs;
    while i < |xs|
      invariant 0 <= i <= |xs|
      invariant out' + ForIdOfElems(xs[i..], id) == out + ForIdOfElems(xs, id)
    {
      assert xs[i..][1..] == xs[i + 1..];
      ghost var prev := out';
      out' := CollectFilenamesForId(xs[i], id, out');
      ConcatAssoc(prev, FilenamesForId(xs[i], id), ForIdOfElems(xs[i + 1..], id));
      i := i + 1;
    }
    assert out' + [] == out';
  }
}
