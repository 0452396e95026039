/**
 * `{{placeholder}}` substitution (`src/prompt/constructor.rs`): every string
 * of the form `{{ key }}` in a template is replaced by `inputs[key]`, and a
 * placeholder whose key has no input is an error.
 */
module Constructor {
  import opened Wrappers
  import opened Json
  import opened Text

  datatype AppError = PromptConstruction(msg: string)

  function MissingInput(key: string): AppError
  {
    PromptConstruction("Missing input for placeholder: " + key)
  }

  /** A template string that is replaced: it starts with `{{` and ends with `}}`. */
  predicate IsPlaceholder(s: string)
  {
    StartsWith(s, "{{") && EndsWith(s, "}}")
  }

  /** Strip every leading `{{` and every trailing `}}`, then surrounding whitespace. */
  function PlaceholderKey(s: string): string
  {
    Trim(TrimEndMatches(TrimStartMatches(s, "{{"), "}}"))
  }

  // ---------------------------------------------------------------------------
  // The substitution as a function
  // ---------------------------------------------------------------------------

  /** The template with its placeholders replaced, or the first missing input in walk order. */
  function Substituted(v: Value, inputs: Value): Result<Value, AppError>
  {
    match v
    case Str(s) =>
      if IsPlaceholder(s) then
        match Get(inputs, PlaceholderKey(s))
        case Some(x) => Ok(x)
        case None => Err(MissingInput(PlaceholderKey(s)))
      else Ok(v)
    case Arr(xs) =>
      (match SubstitutedElems(xs, inputs)
       case Ok(ys) => Ok(Arr(ys))
       case Err(e) => Err(e))
    case Obj(fs) =>
      (match SubstitutedFields(fs, inputs)
       case Ok(gs) => Ok(Obj(gs))
       case Err(e) => Err(e))
    case _ => Ok(v)
  }

  function SubstitutedElems(xs: seq<Value>, inputs: Value): Result<seq<Value>, AppError>
  {
    if xs == [] then Ok([])
    else match Substituted(xs[0], inputs)
      case Err(e) => Err(e)
      case Ok(y) =>
        match SubstitutedElems(xs[1..], inputs)
        case Err(e) => Err(e)
        case Ok(ys) => Ok([y] + ys)
  }

  function SubstitutedFields(fs: seq<Field>, inputs: Value): Result<seq<Field>, AppError>
  {
    if fs == [] then Ok([])
    else match Substituted(fs[0].val, inputs)
      case Err(e) => Err(e)
      case Ok(y) =>
        match SubstitutedFields(fs[1..], inputs)
        case Err(e) => Err(e)
        case Ok(gs) => Ok([Field(fs[0].key, y)] + gs)
  }

  // ---------------------------------------------------------------------------
  // A relational reference: what a correct instantiation looks like
  // ---------------------------------------------------------------------------

  /**
   * `w` is `v` with each placeholder replaced by its input: other leaves are
   * equal, arrays keep their length and order, objects keep their keys and order.
   */
  predicate Instance(v: Value, w: Value, inputs: Value)
  {
    match v
    case Str(s) => if IsPlaceholder(s) then Get(inputs, PlaceholderKey(s)) == Some(w) else w == v
    case Arr(xs) => w.Arr? && |w.elems| == |xs| && forall i :: 0 <= i < |xs| ==> Instance(xs[i], w.elems[i], inputs)
    case Obj(fs) =>
      && w.Obj? && FieldKeys(w.fields) == FieldKeys(fs)
      && forall i :: 0 <= i < |fs| ==> Instance(fs[i].val, w.fields[i].val, inputs)
    case _ => w == v
  }

  /** The substitution succeeds with `w` exactly when `w` is an instance of the template. */
  lemma {:induction false} SubstitutedInstance(v: Value, w: Value, inputs: Value)
    ensures Substituted(v, inputs) == Ok(w) <==> Instance(v, w, inputs)
  {
    match v
    case Arr(xs) =>
      if w.Arr? { ElemsInstance(xs, w.elems, inputs); }
    case Obj(fs) =>
      if w.Obj? { FieldsInstance(fs, w.fields, inputs); }
    case _ =>
  }

  lemma {:induction false} ElemsInstance(xs: seq<Value>, ys: seq<Value>, inputs: Value)
    ensures SubstitutedElems(xs, inputs) == Ok(ys) <==>
      |ys| == |xs| && forall i :: 0 <= i < |xs| ==> Instance(xs[i], ys[i], inputs)
  {
    if xs != [] && ys != [] {
      assert xs[0] in xs;
      SubstitutedInstance(xs[0], ys[0], inputs);
      ElemsInstance(xs[1..], ys[1..], inputs);
      assert forall i :: 1 <= i < |xs| ==> xs[i] == xs[1..][i - 1];
      assert forall i :: 1 <= i < |ys| ==> ys[i] == ys[1..][i - 1];
      assert ys == [ys[0]] + ys[1..];
    }
  }

  /** A non-empty object substitutes to `gs` exactly when its first entry and its remainder do. */
  lemma FieldsUnfold(fs: seq<Field>, gs: seq<Field>, inputs: Value)
    requires fs != []
    ensures SubstitutedFields(fs, inputs) == Ok(gs) <==>
      gs != [] && gs[0].key == fs[0].key && Substituted(fs[0].val, inputs) == Ok(gs[0].val) &&
      SubstitutedFields(fs[1..], inputs) == Ok(gs[1..])
  {
    var x := Substituted(fs[0].val, inputs);
    var t := SubstitutedFields(fs[1..], inputs);
    if x.Ok? && t.Ok? {
      var hs := [Field(fs[0].key, x.value)] + t.value;
      assert SubstitutedFields(fs, inputs) == Ok(hs);
      assert hs[0] == Field(fs[0].key, x.value) && hs[1..] == t.value;
      if gs != [] && gs[0].key == fs[0].key && x == Ok(gs[0].val) && t == Ok(gs[1..]) {
        assert gs == hs;
      }
    }
  }

  /** Keys and pointwise instances of two non-empty entry lists split into the first entry and the rest. */
  lemma FieldsPointwiseUnfold(fs: seq<Field>, gs: seq<Field>, inputs: Value)
    requires fs != [] && gs != []
    ensures FieldKeys(gs) == FieldKeys(fs) <==> gs[0].key == fs[0].key && FieldKeys(gs[1..]) == FieldKeys(fs[1..])
    ensures |gs| == |fs| ==>
      ((forall i :: 0 <= i < |fs| ==> Instance(fs[i].val, gs[i].val, inputs)) <==>
       Instance(fs[0].val, gs[0].val, inputs) &&
       forall i :: 0 <= i < |fs[1..]| ==> Instance(fs[1..][i].val, gs[1..][i].val, inputs))
  {
    assert FieldKeys(gs) == [gs[0].key] + FieldKeys(gs[1..]);
    assert FieldKeys(fs) == [fs[0].key] + FieldKeys(fs[1..]);
    if FieldKeys(gs) == FieldKeys(fs) {
      assert FieldKeys(gs)[0] == gs[0].key && FieldKeys(gs)[1..] == FieldKeys(gs[1..]);
      assert FieldKeys(fs)[0] == fs[0].key && FieldKeys(fs)[1..] == FieldKeys(fs[1..]);
    }
    if |gs| == |fs| {
      forall i | 1 <= i < |fs| ensures fs[i] == fs[1..][i - 1] && gs[i] == gs[1..][i - 1] {
      }
    }
  }

  /** An object's entries substitute to `gs` exactly when `gs` keeps the keys and each value is an instance. */
  lemma {:induction false} FieldsInstance(fs: seq<Field>, gs: seq<Field>, inputs: Value)
    ensures SubstitutedFields(fs, inputs) == Ok(gs) <==>
      FieldKeys(gs) == FieldKeys(fs) && forall i :: 0 <= i < |fs| ==> Instance(fs[i].val, gs[i].val, inputs)
  {
    if fs != [] && gs != [] {
      assert fs[0] in fs;
      SubstitutedInstance(fs[0].val, gs[0].val, inputs);
      FieldsInstance(fs[1..], gs[1..], inputs);
      FieldsUnfold(fs, gs, inputs);
      FieldsPointwiseUnfold(fs, gs, inputs);
      assert FieldKeys(gs) == FieldKeys(fs) ==> |gs| == |fs|;
    }
  }

  // ---------------------------------------------------------------------------
  // When the substitution fails
  // ---------------------------------------------------------------------------

  /** The keys of the template's placeholders, in walk order. */
  function PlaceholderKeys(v: Value): seq<string>
  {
    match v
    case Str(s) => if IsPlaceholder(s) then [PlaceholderKey(s)] else []
    case Arr(xs) => ElemsKeys(xs)
    case Obj(fs) => FieldsKeys(fs)
    case _ => []
  }

  function ElemsKeys(xs: seq<Value>): seq<string>
  {
    if xs == [] then [] else PlaceholderKeys(xs[0]) + ElemsKeys(xs[1..])
  }

  function FieldsKeys(fs: seq<Field>): seq<string>
  {
    if fs == [] then [] else PlaceholderKeys(fs[0].val) + FieldsKeys(fs[1..])
  }

  /** The first of `ks` that `inputs` has no entry for. */
  function FirstMissing(ks: seq<string>, inputs: Value): Option<string>
  {
    if ks == [] then None
    else if Get(inputs, ks[0]).None? then Some(ks[0])
    else FirstMissing(ks[1..], inputs)
  }

  /** A key is reported exactly when some key has no input, and the one reported is the earliest such key. */
  lemma {:induction false} FirstMissingFound(ks: seq<string>, inputs: Value)
    ensures FirstMissing(ks, inputs).Some? <==> exists i :: 0 <= i < |ks| && Get(inputs, ks[i]).None?
    ensures FirstMissing(ks, inputs).Some? ==>
      exists i :: && 0 <= i < |ks| && ks[i] == FirstMissing(ks, inputs).value && Get(inputs, ks[i]).None?
                  && forall j :: 0 <= j < i ==> Get(inputs, ks[j]).Some?
  {
    if ks != [] {
      if Get(inputs, ks[0]).None? {
        assert FirstMissing(ks, inputs) == Some(ks[0]);
      } else {
        var rest := ks[1..];
        FirstMissingFound(rest, inputs);
        var r := FirstMissing(rest, inputs);
        assert FirstMissing(ks, inputs) == r;
        if r.Some? {
          var i :| && 0 <= i < |rest| && rest[i] == r.value && Get(inputs, rest[i]).None?
                   && forall j :: 0 <= j < i ==> Get(inputs, rest[j]).Some?;
          assert ks[i + 1] == rest[i];
          forall j | 0 <= j < i + 1 ensures Get(inputs, ks[j]).Some? {
            if j > 0 { assert ks[j] == rest[j - 1]; }
          }
        } else {
          forall i | 0 <= i < |ks| ensures Get(inputs, ks[i]).Some? {
            if i > 0 { assert ks[i] == rest[i - 1]; }
          }
        }
      }
    }
  }

  /** A single key is the first missing one exactly when it has no input. */
  lemma FirstMissingSingle(k: string, inputs: Value)
    ensures FirstMissing([k], inputs) == if Get(inputs, k).None? then Some(k) else None
  {
    assert [k][0] == k && [k][1..] == [];
  }

  lemma {:induction false} FirstMissingAppend(a: seq<string>, b: seq<string>, inputs: Value)
    ensures FirstMissing(a + b, inputs) == if FirstMissing(a, inputs).Some? then FirstMissing(a, inputs) else FirstMissing(b, inputs)
  {
    if a != [] {
      assert (a + b)[1..] == a[1..] + b;
      FirstMissingAppend(a[1..], b, inputs);
    } else {
      assert a + b == b;
    }
  }

  /** The error of a result, if any. */
  function ErrorOf<T>(r: Result<T, AppError>): Option<AppError>
  {
    if r.Err? then Some(r.error) else None
  }

  function MissingFor(k: Option<string>): Option<AppError>
  {
    if k.Some? then Some(MissingInput(k.value)) else None
  }

  /**
   * The substitution fails exactly when some placeholder's key has no input,
   * and it reports the first such key in walk order.
   */
  lemma {:induction false} SubstitutedError(v: Value, inputs: Value)
    ensures ErrorOf(Substituted(v, inputs)) == MissingFor(FirstMissing(PlaceholderKeys(v), inputs))
  {
    match v
    case Str(s) =>
      if IsPlaceholder(s) {
        assert PlaceholderKeys(v) == [PlaceholderKey(s)];
        FirstMissingSingle(PlaceholderKey(s), inputs);
      } else {
        assert PlaceholderKeys(v) == [];
      }
    case Arr(xs) => ElemsError(xs, inputs);
    case Obj(fs) => FieldsError(fs, inputs);
    case _ =>
  }

  lemma {:induction false} ElemsError(xs: seq<Value>, inputs: Value)
    ensures ErrorOf(SubstitutedElems(xs, inputs)) == MissingFor(FirstMissing(ElemsKeys(xs), inputs))
  {
    if xs != [] {
      assert xs[0] in xs;
      SubstitutedError(xs[0], inputs);
      ElemsError(xs[1..], inputs);
      FirstMissingAppend(PlaceholderKeys(xs[0]), ElemsKeys(xs[1..]), inputs);
    }
  }

  lemma {:induction false} FieldsError(fs: seq<Field>, inputs: Value)
    ensures ErrorOf(SubstitutedFields(fs, inputs)) == MissingFor(FirstMissing(FieldsKeys(fs), inputs))
  {
    if fs != [] {
      assert fs[0] in fs;
      SubstitutedError(fs[0].val, inputs);
      FieldsError(fs[1..], inputs);
      FirstMissingAppend(PlaceholderKeys(fs[0].val), FieldsKeys(fs[1..]), inputs);
    }
  }

  /** When `inputs` is not an object, every placeholder is missing. */
  lemma NonObjectInputs(v: Value, inputs: Value)
    requires !inputs.Obj? && PlaceholderKeys(v) != []
    ensures Substituted(v, inputs) == Err(MissingInput(PlaceholderKeys(v)[0]))
  {
    SubstitutedError(v, inputs);
  }

  /** A template without placeholders comes back unchanged. */
  lemma {:induction false} NoPlaceholders(v: Value, inputs: Value)
    requires PlaceholderKeys(v) == []
    ensures Substituted(v, inputs) == Ok(v)
  {
    match v
    case Arr(xs) => NoPlaceholdersElems(xs, inputs);
    case Obj(fs) => NoPlaceholdersFields(fs, inputs);
    case _ =>
  }

  lemma {:induction false} NoPlaceholdersElems(xs: seq<Value>, inputs: Value)
    requires ElemsKeys(xs) == []
    ensures SubstitutedElems(xs, inputs) == Ok(xs)
  {
    if xs != [] {
      assert xs[0] in xs;
      NoPlaceholders(xs[0], inputs);
      NoPlaceholdersElems(xs[1..], inputs);
      assert [xs[0]] + xs[1..] == xs;
    }
  }

  lemma {:induction false} NoPlaceholdersFields(fs: seq<Field>, inputs: Value)
    requires FieldsKeys(fs) == []
    ensures SubstitutedFields(fs, inputs) == Ok(fs)
  {
    if fs != [] {
      assert fs[0] in fs;
      NoPlaceholders(fs[0].val, inputs);
      NoPlaceholdersFields(fs[1..], inputs);
      assert [Field(fs[0].key, fs[0].val)] + fs[1..] == fs;
    }
  }

  /**
   * A replacement is inserted as it is, whatever it holds: a placeholder
   * inside it is not expanded again.
   */
  lemma ReplacementVerbatim(s: string, inputs: Value)
    requires IsPlaceholder(s) && Get(inputs, PlaceholderKey(s)).Some?
    ensures Substituted(Str(s), inputs) == Ok(Get(inputs, PlaceholderKey(s)).value)
  {
  }

  /** Stripping the leading braces of `"{{a}}"` leaves `"a}}"`. */
  lemma OpeningBracesStripped()
    ensures TrimStartMatches("{{a}}", "{{") == "a}}"
  {
    var s := "{{a}}";
    assert s[..2] == "{{" && s[2..] == "a}}";
    assert "a}}"[..2][0] == 'a';
  }

  /** Stripping the trailing braces of `"a}}"` leaves `"a"`. */
  lemma ClosingBracesStripped()
    ensures TrimEndMatches("a}}", "}}") == "a"
  {
    assert "a}}"[1..] == "}}" && "a}}"[..1] == "a";
    assert "a"[..] != "}}";
  }

  /** `"a"` has no surrounding whitespace. */
  lemma SingleLetterTrimmed()
    ensures Trim("a") == "a"
  {
    assert "a"[0] == 'a' && "a"[|"a"| - 1] == 'a' && !IsWhitespace('a');
    assert TrimStart("a") == "a";
  }

  /** `"{{a}}"` is a placeholder. */
  lemma PlaceholderA()
    ensures IsPlaceholder("{{a}}")
  {
    var s := "{{a}}";
    assert s[..2] == "{{" && s[|s| - 2..] == "}}";
  }

  /** The key of `"{{a}}"` is `"a"`. */
  lemma KeyOfPlaceholderA()
    ensures PlaceholderKey("{{a}}") == "a"
  {
    OpeningBracesStripped();
    ClosingBracesStripped();
    SingleLetterTrimmed();
  }

  /** `"{{a}}"` with `a` bound to `"{{b}}"` gives `"{{b}}"`, although `b` has an input too. */
  lemma ReplacementNotRescanned()
    ensures Substituted(Str("{{a}}"), Obj([Field("a", Str("{{b}}")), Field("b", Int(1))])) == Ok(Str("{{b}}"))
  {
    PlaceholderA();
    KeyOfPlaceholderA();
    var inputs := Obj([Field("a", Str("{{b}}")), Field("b", Int(1))]);
    assert Get(inputs, "a") == Some(Str("{{b}}"));
  }

  // ---------------------------------------------------------------------------
  // PromptConstructor
  // ---------------------------------------------------------------------------

  /** Prepend `acc` to a successful result; an error stays as it is. */
  function AfterElems(acc: seq<Value>, r: Result<seq<Value>, AppError>): Result<seq<Value>, AppError>
  {
    match r
    case Ok(ys) => Ok(acc + ys)
    case Err(e) => Err(e)
  }

  function AfterFields(acc: seq<Field>, r: Result<seq<Field>, AppError>): Result<seq<Field>, AppError>
  {
    match r
    case Ok(gs) => Ok(acc + gs)
    case Err(e) => Err(e)
  }

  /**
   * `replace_placeholders`: walk the tree, replacing each placeholder string
   * and stopping at the first missing input.
   */
  method ReplacePlaceholders(value: Value, inputs: Value) returns (r: Result<Value, AppError>)
    ensures r == Substituted(value, inputs)
    decreases value, 1
  {
    match value {
      case Obj(fs) =>
        var gs := ReplaceInFields(fs, inputs);
        if gs.Err? {
          return Err(gs.error);
        }
        return Ok(Obj(gs.value));
      case Arr(xs) =>
        var ys := ReplaceInElems(xs, inputs);
        if ys.Err? {
          return Err(ys.error);
        }
        return Ok(Arr(ys.value));
      case Str(s) =>
        r := ReplaceString(s, inputs);
      case _ =>
        return Ok(value);
    }
  }

  /** A string leaf: a placeholder is replaced by its input, any other string stays. */
  method ReplaceString(s: string, inputs: Value) returns (r: Result<Value, AppError>)
    ensures r == Substituted(Str(s), inputs)
  {
    if IsPlaceholder(s) {
      var key := PlaceholderKey(s);
      var replacement := Get(inputs, key);
      if replacement.None? {
        return Err(MissingInput(key));
      }
      return Ok(replacement.value);
    }
    return Ok(Str(s));
  }

  /** One loop step over an object's entries: an error ends the walk, a replaced value moves into `acc`. */
  lemma FieldsStep(fs: seq<Field>, i: nat, acc: seq<Field>, inputs: Value)
    requires i < |fs|
    ensures Substituted(fs[i].val, inputs).Err? ==>
      AfterFields(acc, SubstitutedFields(fs[i..], inputs)) == Err(Substituted(fs[i].val, inputs).error)
    ensures Substituted(fs[i].val, inputs).Ok? ==>
      AfterFields(acc, SubstitutedFields(fs[i..], inputs)) ==
      AfterFields(acc + [Field(fs[i].key, Substituted(fs[i].val, inputs).value)], SubstitutedFields(fs[i + 1..], inputs))
  {
    var s := fs[i..];
    assert s != [] && s[0] == fs[i] && s[1..] == fs[i + 1..];
    var x := Substituted(fs[i].val, inputs);
    if x.Ok? {
      var g := Field(fs[i].key, x.value);
      var rest := SubstitutedFields(fs[i + 1..], inputs);
      assert SubstitutedFields(s, inputs) == AfterFields([g], rest);
      if rest.Ok? {
        assert acc + ([g] + rest.value) == (acc + [g]) + rest.value;
      }
    }
  }

  /** The loop over an object's entries. */
  method ReplaceInFields(fs: seq<Field>, inputs: Value) returns (r: Result<seq<Field>, AppError>)
    ensures r == SubstitutedFields(fs, inputs)
    decreases fs, 0
  {
    var acc: seq<Field> := [];
    var i := 0;
    assert fs[0..] == fs;
    var all := SubstitutedFields(fs, inputs);
    assert all.Ok? ==> [] + all.value == all.value;
    while i < |fs|
      invariant 0 <= i <= |fs|
      invariant SubstitutedFields(fs, inputs) == AfterFields(acc, SubstitutedFields(fs[i..], inputs))
    {
      FieldsStep(fs, i, acc, inputs);
      assert fs[i] in fs;
      var x := ReplacePlaceholders(fs[i].val, inputs);
      if x.Err? {
        return Err(x.error);
      }
      acc := acc + [Field(fs[i].key, x.value)];
      i := i + 1;
    }
    assert acc + [] == acc;
    return Ok(acc);
  }

  /** One loop step over an array's elements. */
  lemma ElemsStep(xs: seq<Value>, i: nat, acc: seq<Value>, inputs: Value)
    requires i < |xs|
    ensures Substituted(xs[i], inputs).Err? ==>
      AfterElems(acc, SubstitutedElems(xs[i..], inputs)) == Err(Substituted(xs[i], inputs).error)
    ensures Substituted(xs[i], inputs).Ok? ==>
      AfterElems(acc, SubstitutedElems(xs[i..], inputs)) ==
      AfterElems(acc + [Substituted(xs[i], inputs).value], SubstitutedElems(xs[i + 1..], inputs))
  {
    var s := xs[i..];
    assert s != [] && s[0] == xs[i] && s[1..] == xs[i + 1..];
    var x := Substituted(xs[i], inputs);
    if x.Ok? {
      var rest := SubstitutedElems(xs[i + 1..], inputs);
      assert SubstitutedElems(s, inputs) == AfterElems([x.value], rest);
      if rest.Ok? {
        assert acc + ([x.value] + rest.value) == (acc + [x.value]) + rest.value;
      }
    }
  }

  /** The loop over an array's elements. */
  method ReplaceInElems(xs: seq<Value>, inputs: Value) returns (r: Result<seq<Value>, AppError>)
    ensures r == SubstitutedElems(xs, inputs)
    decreases xs, 0
  {
    var acc: seq<Value> := [];
    var i := 0;
    assert xs[0..] == xs;
    var all := SubstitutedElems(xs, inputs);
    assert all.Ok? ==> [] + all.value == all.value;
    while i < |xs|
      invariant 0 <= i <= |xs|
      invariant SubstitutedElems(xs, inputs) == AfterElems(acc, SubstitutedElems(xs[i..], inputs))
    {
      ElemsStep(xs, i, acc, inputs);
      assert xs[i] in xs;
      var x := ReplacePlaceholders(xs[i], inputs);
      if x.Err? {
        return Err(x.error);
      }
      acc := acc + [x.value];
      i := i + 1;
    }
    assert acc + [] == acc;
    return Ok(acc);
  }

  /** The template check: it accepts every template. */
  function ValidateTemplate(template: Value): (r: Result<(), AppError>)
    ensures r.Ok?
  {
    Ok(())
  }

  /** The inputs check: it accepts every input. */
  function ValidateInputs(inputs: Value): (r: Result<(), AppError>)
    ensures r.Ok?
  {
    Ok(())
  }

  /**
   * `construct_prompt`: validate, then substitute into a copy of the
   * template (the template itself is a value and is never changed).
   */
  method ConstructPrompt(template: Value, inputs: Value) returns (r: Result<Value, AppError>)
    ensures r == Substituted(template, inputs)
  {
    // Both checks accept every value, so neither `?` can return early.
    var checkedTemplate := ValidateTemplate(template);
    var checkedInputs := ValidateInputs(inputs);
    assert checkedTemplate.Ok? && checkedInputs.Ok?;
    var constructed := template;
    r := ReplacePlaceholders(constructed, inputs);
  }
}
