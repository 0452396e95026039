/**
 * The override primitives (`src/utils/prompt_ops.rs`): typing a raw override
 * value, splitting `a.b.c=value` items, writing along a dot-path, defaulting
 * `filename_prefix` and broadcasting known parameters.
 *
 * The source mutates a `&mut Value` in place; here each mutating operation is
 * a method that takes the tree and returns the updated tree, proved equal to a
 * specification function whose properties are lemmas.
 */
module PromptOps {
  import opened Wrappers
  import opened Json
  import opened Text

  // ---------------------------------------------------------------------------
  // parse_value
  // ---------------------------------------------------------------------------

  /** `serde_json::from_str::<Value>`: a complete JSON document, or an error text. */
  type JsonParser = string -> Result<Value, string>

  /** `str::parse::<f64>` followed by `json!(f)` (which maps NaN and infinities to null). */
  type FloatParser = string -> Option<Value>

  const I64Min: int := -0x8000_0000_0000_0000
  const I64Max: int := 0x7FFF_FFFF_FFFF_FFFF

  predicate IsDigit(c: char) { '0' <= c <= '9' }

  predicate AllDigits(s: string) { forall i :: 0 <= i < |s| ==> IsDigit(s[i]) }

  /** The number a string of decimal digits denotes. */
  function DigitsValue(ds: string): nat
    requires AllDigits(ds)
  {
    if ds == [] then 0
    else 10 * DigitsValue(ds[..|ds| - 1]) + (ds[|ds| - 1] as int - '0' as int)
  }

  /**
   * `str::parse::<i64>`: an optional `+` or `-`, then at least one decimal
   * digit and nothing else, denoting a value within the 64-bit signed range.
   */
  function ParseI64(s: string): (r: Option<int>)
    ensures r.Some? <==>
      || (s != [] && AllDigits(s) && DigitsValue(s) <= I64Max)
      || (|s| > 1 && s[0] == '+' && AllDigits(s[1..]) && DigitsValue(s[1..]) <= I64Max)
      || (|s| > 1 && s[0] == '-' && AllDigits(s[1..]) && DigitsValue(s[1..]) <= -I64Min)
    ensures r.Some? ==> I64Min <= r.value <= I64Max
    ensures r.Some? ==>
      r.value == (if IsDigit(s[0]) then DigitsValue(s) else if s[0] == '+' then DigitsValue(s[1..]) else -(DigitsValue(s[1..]) as int))
  {
    var signed := s != [] && (s[0] == '+' || s[0] == '-');
    var ds := if signed then s[1..] else s;
    if ds == [] || !AllDigits(ds) then None
    else
      var n: int := if signed && s[0] == '-' then -(DigitsValue(ds) as int) else DigitsValue(ds);
      if I64Min <= n <= I64Max then Some(n) else None
  }

  /** The shortest decimal rendering of a non-negative integer. */
  function NatText(n: nat): (s: string)
    ensures s != [] && AllDigits(s)
  {
    if n < 10 then ['0' + n as char]
    else NatText(n / 10) + ['0' + (n % 10) as char]
  }

  /** The decimal rendering of an integer, with `-` for negatives. */
  function DecimalText(n: int): string
  {
    if n < 0 then "-" + NatText(-n) else NatText(n)
  }

  lemma {:induction false} NatTextValue(n: nat)
    ensures DigitsValue(NatText(n)) == n
  {
    if n >= 10 {
      var s := NatText(n);
      assert s[..|s| - 1] == NatText(n / 10);
      NatTextValue(n / 10);
    }
  }

  /** Every integer in range, written in decimal, parses back to itself. */
  lemma ParseI64Decimal(n: int)
    requires I64Min <= n <= I64Max
    ensures ParseI64(DecimalText(n)) == Some(n)
  {
    if n < 0 {
      var t := NatText(-n);
      NatTextValue(-n);
      assert DecimalText(n) == "-" + t;
      assert ("-" + t)[0] == '-' && ("-" + t)[1..] == t;
    } else {
      var t := NatText(n);
      NatTextValue(n);
      assert IsDigit(t[0]);
    }
  }

  /**
   * `parse_value`: the first of these that applies wins — JSON, a
   * case-insensitive `null`/`true`/`false`, a 64-bit integer, a float, and
   * otherwise the text itself as a string.
   */
  function ParseValue(src: string, json: JsonParser, float: FloatParser): (r: Value)
    ensures json(src).Ok? ==> r == json(src).value
    ensures json(src).Err? && EqIgnoreAsciiCase(src, "null") ==> r == Null
    ensures json(src).Err? && EqIgnoreAsciiCase(src, "true") ==> r == Bool(true)
    ensures json(src).Err? && EqIgnoreAsciiCase(src, "false") ==> r == Bool(false)
    ensures json(src).Err? && ParseI64(src).Some? ==> r == Int(ParseI64(src).value)
    ensures json(src).Err? && ParseI64(src).None? && float(src).Some? && !IsLiteral(src) ==> r == float(src).value
    ensures json(src).Err? && ParseI64(src).None? && float(src).None? && !IsLiteral(src) ==> r == Str(src)
  {
    LiteralsDistinct(src);
    if json(src).Ok? then json(src).value
    else if EqIgnoreAsciiCase(src, "null") then Null
    else if EqIgnoreAsciiCase(src, "true") then Bool(true)
    else if EqIgnoreAsciiCase(src, "false") then Bool(false)
    else match ParseI64(src)
      case Some(i) => Int(i)
      case None =>
        match float(src)
        case Some(f) => f
        case None => Str(src)
  }

  /** No text matches two of the literals, and no literal starts like a number. */
  lemma LiteralsDistinct(src: string)
    ensures EqIgnoreAsciiCase(src, "null") ==> !EqIgnoreAsciiCase(src, "true") && !EqIgnoreAsciiCase(src, "false")
    ensures EqIgnoreAsciiCase(src, "true") ==> !EqIgnoreAsciiCase(src, "false")
    ensures IsLiteral(src) ==> ParseI64(src).None?
  {
    if src != [] {
      assert AsciiLower("null"[0]) == 'n' && AsciiLower("true"[0]) == 't' && AsciiLower("false"[0]) == 'f';
      assert IsLiteral(src) ==> AsciiLower(src[0]) in {'n', 't', 'f'};
    }
  }

  /** A case-insensitive `null`, `true` or `false`. */
  predicate IsLiteral(src: string)
  {
    EqIgnoreAsciiCase(src, "null") || EqIgnoreAsciiCase(src, "true") || EqIgnoreAsciiCase(src, "false")
  }

  /**
   * Text that JSON rejects and that is an optional sign followed by decimal
   * digits (leading zeros allowed) denoting an in-range value becomes that
   * integer.
   */
  lemma ParseValueInteger(sign: string, ds: string, json: JsonParser, float: FloatParser)
    requires sign == "" || sign == "+" || sign == "-"
    requires ds != [] && AllDigits(ds)
    requires I64Min <= (if sign == "-" then -(DigitsValue(ds) as int) else DigitsValue(ds)) <= I64Max
    requires json(sign + ds).Err?
    ensures ParseValue(sign + ds, json, float) == Int(if sign == "-" then -(DigitsValue(ds) as int) else DigitsValue(ds))
  {
    var s := sign + ds;
    if sign == "" {
      assert s == ds;
    } else {
      assert s[0] == sign[0] && s[1..] == ds;
    }
    assert ParseI64(s).Some?;
    assert AsciiLower(s[0]) != AsciiLower("null"[0]);
    assert AsciiLower(s[0]) != AsciiLower("true"[0]);
    assert AsciiLower(s[0]) != AsciiLower("false"[0]);
  }

  /** The integer texts JSON rejects: an explicit `+`, and leading zeros. */
  lemma ParseValueSignedAndPadded(json: JsonParser, float: FloatParser)
    requires json("+5").Err? && json("007").Err? && json("-007").Err?
    ensures ParseValue("+5", json, float) == Int(5)
    ensures ParseValue("007", json, float) == Int(7)
    ensures ParseValue("-007", json, float) == Int(-7)
  {
    assert "007"[..2] == "00" && "00"[..1] == "0" && "0"[..0] == [];
    assert DigitsValue("007") == 7;
    assert DigitsValue("5") == 5;
    assert "+" + "5" == "+5" && "" + "007" == "007" && "-" + "007" == "-007";
    ParseValueInteger("+", "5", json, float);
    ParseValueInteger("", "007", json, float);
    ParseValueInteger("-", "007", json, float);
  }

  /** A bare word such as `sdxl`, rejected by every parser, stays the same string. */
  lemma ParseValueBareWord(json: JsonParser, float: FloatParser)
    requires json("sdxl").Err? && float("sdxl").None?
    ensures ParseValue("sdxl", json, float) == Str("sdxl")
  {
    assert AsciiLower("sdxl"[0]) != AsciiLower("null"[0]);
    assert AsciiLower("sdxl"[0]) != AsciiLower("true"[0]);
  }

  /** Upper- or mixed-case literals are recognised once JSON has rejected them. */
  lemma ParseValueUpperCaseTrue(json: JsonParser, float: FloatParser)
    requires json("TRUE").Err?
    ensures ParseValue("TRUE", json, float) == Bool(true)
  {
    assert AsciiLower("TRUE"[0]) != AsciiLower("null"[0]);
  }

  // ---------------------------------------------------------------------------
  // parse_set_pairs
  // ---------------------------------------------------------------------------

  /** One parsed `--set` item: a dot-path and the value to write there. */
  datatype SetPair = SetPair(path: seq<string>, val: Value)

  /** The error `parse_set_pairs` reports for an item without `=`. */
  function InvalidSetMessage(item: string): string
  {
    "Invalid --set '" + item + "', expected KEY=VALUE"
  }

  /** One item: the text before the first `=`, split on `.`, and the value after it. */
  function ParseSetPair(item: string, json: JsonParser, float: FloatParser): (r: Option<SetPair>)
    ensures r.None? <==> '=' !in item
  {
    match SplitOnce(item, '=')
    case None => None
    case Some((k, v)) => Some(SetPair(Split(k, '.'), ParseValue(v, json, float)))
  }

  /** The meaning of a parsed item: its path re-joined with `.` is the key text before the first `=`. */
  lemma ParseSetPairParts(item: string, json: JsonParser, float: FloatParser)
    requires '=' in item
    ensures var p := ParseSetPair(item, json, float).value;
      && |p.path| >= 1
      && (forall i :: 0 <= i < |p.path| ==> '.' !in p.path[i] && '=' !in p.path[i])
      && exists rest :: Join(p.path, '.') + "=" + rest == item && p.val == ParseValue(rest, json, float)
  {
    var (k, v) := SplitOnce(item, '=').value;
    var p := ParseSetPair(item, json, float).value;
    JoinSplit(k, '.');
    forall i | 0 <= i < |p.path| ensures '=' !in p.path[i] {
      PieceOfSplit(k, '.', '=', i);
    }
    assert Join(p.path, '.') + "=" + v == item;
  }

  /** A piece of a split holds no character its source lacks. */
  lemma {:induction false} PieceOfSplit(s: string, c: char, d: char, i: nat)
    requires d !in s
    requires i < |Split(s, c)|
    ensures d !in Split(s, c)[i]
    decreases |s|
  {
    match SplitOnce(s, c)
    case None =>
    case Some((before, after)) =>
      assert s == before + [c] + after;
      if i > 0 {
        PieceOfSplit(after, c, d, i - 1);
      }
  }

  /** `parse_set_pairs` as a function: every item parsed, or the first malformed one reported. */
  function SetPairsParsed(items: seq<string>, json: JsonParser, float: FloatParser): Result<seq<SetPair>, string>
  {
    if items == [] then Ok([])
    else match ParseSetPair(items[0], json, float)
      case None => Err(InvalidSetMessage(items[0]))
      case Some(p) =>
        match SetPairsParsed(items[1..], json, float)
        case Err(e) => Err(e)
        case Ok(ps) => Ok([p] + ps)
  }

  /** `ps` holds, in order, the pair parsed from each of `items`. */
  predicate PairsOf(items: seq<string>, ps: seq<SetPair>, json: JsonParser, float: FloatParser)
  {
    |ps| == |items| && forall i :: 0 <= i < |items| ==> Some(ps[i]) == ParseSetPair(items[i], json, float)
  }

  /** Success exactly when every item holds `=`; then one pair per item, in order. */
  lemma {:induction false} SetPairsParsedOk(items: seq<string>, json: JsonParser, float: FloatParser)
    ensures SetPairsParsed(items, json, float).Ok? <==> forall i :: 0 <= i < |items| ==> '=' in items[i]
    ensures SetPairsParsed(items, json, float).Ok? ==> PairsOf(items, SetPairsParsed(items, json, float).value, json, float)
  {
    if items != [] {
      var rest := items[1..];
      SetPairsParsedOk(rest, json, float);
      var p := ParseSetPair(items[0], json, float);
      var tail := SetPairsParsed(rest, json, float);
      if p.None? {
        assert SetPairsParsed(items, json, float).Err? && '=' !in items[0];
      } else if tail.Err? {
        assert SetPairsParsed(items, json, float).Err?;
        var j :| 0 <= j < |rest| && '=' !in rest[j];
        assert '=' !in items[j + 1];
      } else {
        var ps := [p.value] + tail.value;
        assert SetPairsParsed(items, json, float) == Ok(ps);
        assert PairsOf(rest, tail.value, json, float);
        forall i | 0 <= i < |items| ensures '=' in items[i] && Some(ps[i]) == ParseSetPair(items[i], json, float) {
          if i > 0 {
            assert items[i] == rest[i - 1] && ps[i] == tail.value[i - 1];
          }
        }
        assert PairsOf(items, ps, json, float);
      }
    }
  }

  /** A failure names the first item that lacks `=`. */
  lemma {:induction false} SetPairsParsedErr(items: seq<string>, json: JsonParser, float: FloatParser)
    requires SetPairsParsed(items, json, float).Err?
    ensures exists i :: && 0 <= i < |items| && '=' !in items[i]
                        && (forall j :: 0 <= j < i ==> '=' in items[j])
                        && SetPairsParsed(items, json, float).error == InvalidSetMessage(items[i])
  {
    if '=' in items[0] {
      SetPairsParsedErr(items[1..], json, float);
      var i :| 0 <= i < |items[1..]| && '=' !in items[1..][i]
        && (forall j :: 0 <= j < i ==> '=' in items[1..][j])
        && SetPairsParsed(items[1..], json, float).error == InvalidSetMessage(items[1..][i]);
      assert forall j :: 1 <= j < i + 1 ==> items[j] == items[1..][j - 1];
      assert items[i + 1] == items[1..][i];
    } else {
      assert '=' !in items[0];
    }
  }

  /** `out` followed by the pairs of `rest`, or the error of `rest`. */
  function AfterParsed(out: seq<SetPair>, rest: Result<seq<SetPair>, string>): Result<seq<SetPair>, string>
  {
    if rest.Ok? then Ok(out + rest.value) else rest
  }

  /** One loop step of `parse_set_pairs`: an item without `=` ends the walk, any other item moves into `out`. */
  lemma ParsedStep(items: seq<string>, i: nat, out: seq<SetPair>, json: JsonParser, float: FloatParser)
    requires i < |items|
    ensures ParseSetPair(items[i], json, float).None? ==>
      AfterParsed(out, SetPairsParsed(items[i..], json, float)) == Err(InvalidSetMessage(items[i]))
    ensures ParseSetPair(items[i], json, float).Some? ==>
      AfterParsed(out, SetPairsParsed(items[i..], json, float)) ==
      AfterParsed(out + [ParseSetPair(items[i], json, float).value], SetPairsParsed(items[i + 1..], json, float))
  {
    var s := items[i..];
    assert s != [] && s[0] == items[i] && s[1..] == items[i + 1..];
    var pair := ParseSetPair(items[i], json, float);
    if pair.Some? {
      var rest := SetPairsParsed(items[i + 1..], json, float);
      assert SetPairsParsed(s, json, float) == AfterParsed([pair.value], rest);
      if rest.Ok? {
        assert out + ([pair.value] + rest.value) == (out + [pair.value]) + rest.value;
      }
    }
  }

  /** `parse_set_pairs`: push one pair per item, stopping at the first item without `=`. */
  method ParseSetPairs(items: seq<string>, json: JsonParser, float: FloatParser) returns (r: Result<seq<SetPair>, string>)
    ensures r == SetPairsParsed(items, json, float)
  {
    var out: seq<SetPair> := [];
    var i := 0;
    assert items[0..] == items;
    var all := SetPairsParsed(items, json, float);
    assert all.Ok? ==> [] + all.value == all.value;
    while i < |items|
      invariant 0 <= i <= |items|
      invariant SetPairsParsed(items, json, float) == AfterParsed(out, SetPairsParsed(items[i..], json, float))
    {
      ParsedStep(items, i, out, json, float);
      var pair := ParseSetPair(items[i], json, float);
      if pair.None? {
        return Err(InvalidSetMessage(items[i]));
      }
      out := out + [pair.value];
      i := i + 1;
    }
    assert items[i..] == [];
    assert out + [] == out;
    return Ok(out);
  }

  // ---------------------------------------------------------------------------
  // apply_set_path
  // ---------------------------------------------------------------------------

  /** The value found by following `path` from `v` through object fields. */
  function ReadPath(v: Value, path: seq<string>): Option<Value>
  {
    if path == [] then Some(v)
    else match Get(v, path[0])
      case None => None
      case Some(c) => ReadPath(c, path[1..])
  }

  /**
   * `apply_set_path` as a function: the new tree, or `None` when the source
   * returns false (and leaves the tree alone). A missing intermediate key is
   * created as an empty object; an existing non-object stops the walk.
   */
  function SetPath(root: Value, path: seq<string>, x: Value): Option<Value>
    decreases |path|
  {
    if path == [] || !root.Obj? then None
    else if |path| == 1 then Some(Obj(Insert(root.fields, path[0], x)))
    else
      match SetPath(Lookup(root.fields, path[0]).GetOr(Obj([])), path[1..], x)
      case None => None
      case Some(c) => Some(Obj(Insert(root.fields, path[0], c)))
  }

  /** On success, reading the tree along `path` gives the value written. */
  lemma {:induction false} SetPathReadBack(root: Value, path: seq<string>, x: Value)
    requires SetPath(root, path, x).Some?
    ensures ReadPath(SetPath(root, path, x).value, path) == Some(x)
    decreases |path|
  {
    LookupInsert(root.fields, path[0], x, path[0]);
    if |path| > 1 {
      var child := Lookup(root.fields, path[0]).GetOr(Obj([]));
      SetPathReadBack(child, path[1..], x);
      LookupInsert(root.fields, path[0], SetPath(child, path[1..], x).value, path[0]);
    }
  }

  /** Two paths that differ at some position both of them have. */
  predicate Diverge(p: seq<string>, q: seq<string>)
  {
    exists i :: 0 <= i < |p| && i < |q| && p[i] != q[i]
  }

  /** On success, every path that leaves `path` somewhere reads as before. */
  lemma {:induction false} SetPathFrame(root: Value, path: seq<string>, x: Value, q: seq<string>)
    requires SetPath(root, path, x).Some?
    requires Diverge(path, q)
    ensures ReadPath(SetPath(root, path, x).value, q) == ReadPath(root, q)
    decreases |path|
  {
    var r := SetPath(root, path, x).value;
    if q[0] != path[0] {
      LookupInsert(root.fields, path[0], r.fields[0].val, q[0]);
      var child := Lookup(root.fields, path[0]).GetOr(Obj([]));
      var c := if |path| == 1 then x else SetPath(child, path[1..], x).value;
      assert r == Obj(Insert(root.fields, path[0], c));
      LookupInsert(root.fields, path[0], c, q[0]);
    } else {
      var i :| 0 <= i < |path| && i < |q| && path[i] != q[i];
      assert i > 0 && |path| > 1;
      assert path[1..][i - 1] != q[1..][i - 1];
      var child := Lookup(root.fields, path[0]).GetOr(Obj([]));
      var c := SetPath(child, path[1..], x).value;
      LookupInsert(root.fields, path[0], c, q[0]);
      SetPathFrame(child, path[1..], x, q[1..]);
      if Lookup(root.fields, path[0]).None? {
        assert ReadPath(child, q[1..]) == None;
      }
    }
  }

  /** The keys an object along the path has after a write (a fresh object holds only the next key). */
  function KeysAfterWrite(before: Option<Value>, k: string): seq<string>
  {
    if before.Some? && before.value.Obj? then
      var ks := FieldKeys(before.value.fields);
      if k in ks then ks else ks + [k]
    else [k]
  }

  /**
   * On success, each object along `path` gains at most the next key of the
   * path; an object that was missing is created holding only that key.
   */
  lemma {:induction false} SetPathIntermediates(root: Value, path: seq<string>, x: Value, j: nat)
    requires SetPath(root, path, x).Some?
    requires j < |path|
    ensures var at := ReadPath(SetPath(root, path, x).value, path[..j]);
      at.Some? && at.value.Obj? && FieldKeys(at.value.fields) == KeysAfterWrite(ReadPath(root, path[..j]), path[j])
    decreases |path|
  {
    var r := SetPath(root, path, x).value;
    if j == 0 {
      assert path[..0] == [];
      if |path| > 1 {
        SetPathStep(root, path, x);
      }
    } else {
      SetPathShift(root, path, x, j);
      SetPathIntermediates(Lookup(root.fields, path[0]).GetOr(Obj([])), path[1..], x, j - 1);
    }
  }

  /**
   * Below the first key, the objects along a successful write and their
   * keys before it are those of the write into the child.
   */
  lemma SetPathShift(root: Value, path: seq<string>, x: Value, j: nat)
    requires SetPath(root, path, x).Some?
    requires 0 < j < |path|
    ensures var child := Lookup(root.fields, path[0]).GetOr(Obj([]));
      && SetPath(child, path[1..], x).Some?
      && ReadPath(SetPath(root, path, x).value, path[..j]) == ReadPath(SetPath(child, path[1..], x).value, path[1..][..j - 1])
      && KeysAfterWrite(ReadPath(root, path[..j]), path[j]) == KeysAfterWrite(ReadPath(child, path[1..][..j - 1]), path[1..][j - 1])
  {
    SetPathStep(root, path, x);
    var r := SetPath(root, path, x).value;
    var child := Lookup(root.fields, path[0]).GetOr(Obj([]));
    var c := SetPath(child, path[1..], x).value;
    var q := path[1..][..j - 1];
    assert path[..j][0] == path[0] && path[..j][1..] == q;
    assert path[1..][j - 1] == path[j];
    LookupInsert(root.fields, path[0], c, path[0]);
    ReadPathStep(r, path[..j]);
    ReadPathStep(root, path[..j]);
    if Lookup(root.fields, path[0]).None? {
      EmptyReadPath(q);
      if q == [] {
        assert FieldKeys(Obj([]).fields) + [path[j]] == [path[j]];
      }
    }
  }

  /** A successful write below the first key is a successful write into its child. */
  lemma SetPathStep(root: Value, path: seq<string>, x: Value)
    requires SetPath(root, path, x).Some? && |path| > 1
    ensures root.Obj?
    ensures var child := Lookup(root.fields, path[0]).GetOr(Obj([]));
      && SetPath(child, path[1..], x).Some?
      && SetPath(root, path, x).value == Obj(Insert(root.fields, path[0], SetPath(child, path[1..], x).value))
  {
  }

  /** Reading a non-empty path goes through its first key. */
  lemma ReadPathStep(v: Value, q: seq<string>)
    requires q != []
    ensures Get(v, q[0]).None? ==> ReadPath(v, q) == None
    ensures Get(v, q[0]).Some? ==> ReadPath(v, q) == ReadPath(Get(v, q[0]).value, q[1..])
  {
  }

  /** Only the empty path reads anything from an empty object. */
  lemma EmptyReadPath(q: seq<string>)
    ensures ReadPath(Obj([]), q) == if q == [] then Some(Obj([])) else None
  {
  }

  /** The walk reaches an existing value that is not an object at `path[..j]`. */
  predicate BlockedAt(root: Value, path: seq<string>, j: nat)
    requires j <= |path|
  {
    ReadPath(root, path[..j]).Some? && !ReadPath(root, path[..j]).value.Obj?
  }

  /**
   * A write fails exactly when the path is empty or the walk meets an
   * existing non-object before the last key; otherwise it always succeeds
   * (intermediates are created as needed).
   */
  lemma {:induction false} SetPathFails(root: Value, path: seq<string>, x: Value)
    ensures SetPath(root, path, x).None? <==> path == [] || exists j :: 0 <= j < |path| && BlockedAt(root, path, j)
    decreases |path|
  {
    if path != [] {
      assert path[..0] == [];
      if !root.Obj? {
        assert BlockedAt(root, path, 0);
      } else if |path| > 1 {
        var tail := path[1..];
        assert tail != [];
        BlockedSomewhereShift(root, path);
        ghost var here := exists j :: 0 <= j < |path| && BlockedAt(root, path, j);
        if Lookup(root.fields, path[0]).None? {
          var child := Obj([]);
          SetPathFails(child, tail, x);
          assert SetPath(root, path, x).None? == SetPath(child, tail, x).None?;
          forall j | 0 <= j < |tail| ensures !BlockedAt(child, tail, j) {
            EmptyReadPath(tail[..j]);
          }
          assert !here;
        } else {
          var child := Lookup(root.fields, path[0]).value;
          SetPathFails(child, tail, x);
          assert SetPath(root, path, x).None? == SetPath(child, tail, x).None?;
        }
      }
    }
  }

  /** An object's walk is blocked somewhere exactly when its first key exists and the walk below it is. */
  lemma BlockedSomewhereShift(root: Value, path: seq<string>)
    requires root.Obj? && |path| > 1
    ensures (exists j :: 0 <= j < |path| && BlockedAt(root, path, j)) <==>
      Lookup(root.fields, path[0]).Some? &&
      exists j :: 0 <= j < |path[1..]| && BlockedAt(Lookup(root.fields, path[0]).value, path[1..], j)
  {
    assert path[..0] == [];
    assert !BlockedAt(root, path, 0);
    forall j | 1 <= j < |path|
      ensures BlockedAt(root, path, j) ==
        (Lookup(root.fields, path[0]).Some? && BlockedAt(Lookup(root.fields, path[0]).GetOr(Obj([])), path[1..], j - 1))
    {
      BlockedShift(root, path, j);
    }
    if Lookup(root.fields, path[0]).Some? {
      var child := Lookup(root.fields, path[0]).value;
      assert Lookup(root.fields, path[0]).GetOr(Obj([])) == child;
      if exists j :: 0 <= j < |path| && BlockedAt(root, path, j) {
        var j :| 0 <= j < |path| && BlockedAt(root, path, j);
        assert j >= 1;
        assert 0 <= j - 1 < |path[1..]| && BlockedAt(child, path[1..], j - 1);
      }
      if exists j :: 0 <= j < |path[1..]| && BlockedAt(child, path[1..], j) {
        var j :| 0 <= j < |path[1..]| && BlockedAt(child, path[1..], j);
        assert 0 <= j + 1 < |path| && BlockedAt(root, path, j + 1);
      }
    } else {
      forall j | 0 <= j < |path| ensures !BlockedAt(root, path, j) {
      }
    }
  }

  /** Below the first key of an object, the walk is blocked where the walk from that key's value is. */
  lemma BlockedShift(root: Value, path: seq<string>, j: nat)
    requires root.Obj? && 1 <= j < |path|
    ensures BlockedAt(root, path, j) ==
      (Lookup(root.fields, path[0]).Some? && BlockedAt(Lookup(root.fields, path[0]).GetOr(Obj([])), path[1..], j - 1))
  {
    assert path[..j][0] == path[0] && path[..j][1..] == path[1..][..j - 1];
    ReadPathStep(root, path[..j]);
  }

  /** The objects above the cursor: each holds the fields `fields` and is entered at `key`. */
  datatype Frame = Frame(fields: seq<Field>, key: string)

  /** Put `v` back in place under the frames above it, innermost last. */
  function Plug(ctx: seq<Frame>, v: Value): Value
  {
    if ctx == [] then v
    else Plug(ctx[..|ctx| - 1], Obj(Insert(ctx[|ctx| - 1].fields, ctx[|ctx| - 1].key, v)))
  }

  function PlugResult(ctx: seq<Frame>, r: Option<Value>): Option<Value>
  {
    if r.Some? then Some(Plug(ctx, r.value)) else None
  }

  /** Moving the cursor into the child under `path[i]` pushes one frame and leaves the final tree as it was. */
  lemma CursorStep(cur: Value, ctx: seq<Frame>, path: seq<string>, i: nat, x: Value)
    requires cur.Obj? && i + 1 < |path|
    ensures PlugResult(ctx, SetPath(cur, path[i..], x)) ==
      PlugResult(ctx + [Frame(cur.fields, path[i])], SetPath(Lookup(cur.fields, path[i]).GetOr(Obj([])), path[i + 1..], x))
  {
    var q := path[i..];
    assert q != [] && |q| != 1 && q[0] == path[i] && q[1..] == path[i + 1..];
    var ctx' := ctx + [Frame(cur.fields, path[i])];
    assert ctx' != [] && ctx'[..|ctx'| - 1] == ctx && ctx'[|ctx'| - 1] == Frame(cur.fields, path[i]);
  }

  /** The cursor stops: a non-object fails the write, an object takes the value under the last key. */
  lemma CursorExit(cur: Value, ctx: seq<Frame>, path: seq<string>, i: nat, x: Value)
    requires i < |path|
    ensures !cur.Obj? ==> PlugResult(ctx, SetPath(cur, path[i..], x)) == None
    ensures cur.Obj? && i + 1 == |path| ==>
      PlugResult(ctx, SetPath(cur, path[i..], x)) == Some(Plug(ctx, Obj(Insert(cur.fields, path[i], x))))
  {
    assert path[i..] != [];
    if i + 1 == |path| {
      assert path[i..] == [path[i]];
    }
  }

  /**
   * `apply_set_path`: walk a cursor down the tree, creating missing
   * intermediates, and write `newVal` under the last key. The frames above
   * the cursor are kept so that the updated tree can be reassembled.
   */
  method ApplySetPath(root: Value, path: seq<string>, newVal: Value) returns (applied: bool, root': Value)
    ensures applied == SetPath(root, path, newVal).Some?
    ensures root' == SetPath(root, path, newVal).GetOr(root)
  {
    if path == [] {
      return false, root;
    }
    var cur := root;
    var ctx: seq<Frame> := [];
    var i := 0;
    assert path[0..] == path;
    while i < |path| - 1
      invariant 0 <= i <= |path| - 1
      invariant SetPath(root, path, newVal) == PlugResult(ctx, SetPath(cur, path[i..], newVal))
    {
      CursorExit(cur, ctx, path, i, newVal);
      if !cur.Obj? {
        return false, root;
      }
      CursorStep(cur, ctx, path, i, newVal);
      var child := Lookup(cur.fields, path[i]).GetOr(Obj([]));
      ctx := ctx + [Frame(cur.fields, path[i])];
      cur := child;
      i := i + 1;
    }
    CursorExit(cur, ctx, path, i, newVal);
    if !cur.Obj? {
      return false, root;
    }
    return true, Plug(ctx, Obj(Insert(cur.fields, path[i], newVal)));
  }

  // ---------------------------------------------------------------------------
  // ensure_filename_prefix
  // ---------------------------------------------------------------------------

  const FilenamePrefixKey: string := "filename_prefix"

  /** A node whose `class_type` is the string `SaveImage`. */
  predicate IsSaveImage(node: Value)
  {
    Get(node, "class_type") == Some(Str("SaveImage"))
  }

  /** Give a node's `inputs` object a `filename_prefix` of `prefix` if it has none. */
  function WithPrefix(node: Value, prefix: string): Value
  {
    match Get(node, "inputs")
    case Some(Obj(ins)) =>
      if FilenamePrefixKey in FieldKeys(ins) then node
      else Obj(Insert(node.fields, "inputs", Obj(Insert(ins, FilenamePrefixKey, Str(prefix)))))
    case _ => node
  }

  /**
   * Replacing the `inputs` object of a node keeps the node's keys and every
   * other field.
   */
  lemma ReplaceInputs(node: Value, ins': seq<Field>)
    requires Get(node, "inputs").Some?
    ensures var node' := Obj(Insert(node.fields, "inputs", Obj(ins')));
      && FieldKeys(node'.fields) == FieldKeys(node.fields)
      && Get(node', "inputs") == Some(Obj(ins'))
      && forall k :: k != "inputs" ==> Lookup(node'.fields, k) == Lookup(node.fields, k)
  {
    LookupInsert(node.fields, "inputs", Obj(ins'), "inputs");
    forall k | k != "inputs" ensures Lookup(Insert(node.fields, "inputs", Obj(ins')), k) == Lookup(node.fields, k) {
      LookupInsert(node.fields, "inputs", Obj(ins'), k);
    }
  }

  /**
   * Outside its `inputs` object a node is untouched by `WithPrefix`: it keeps
   * its keys and every other field, and a node without an `inputs` object
   * does not change.
   */
  lemma WithPrefixEffect(node: Value, prefix: string)
    ensures !(Get(node, "inputs").Some? && Get(node, "inputs").value.Obj?) ==> WithPrefix(node, prefix) == node
    ensures Get(node, "inputs").Some? && Get(node, "inputs").value.Obj? ==>
      var node' := WithPrefix(node, prefix);
      && node'.Obj? && FieldKeys(node'.fields) == FieldKeys(node.fields)
      && (forall k :: k != "inputs" ==> Lookup(node'.fields, k) == Lookup(node.fields, k))
  {
    match Get(node, "inputs")
    case Some(Obj(ins)) =>
      if FilenamePrefixKey !in FieldKeys(ins) {
        var ins' := Insert(ins, FilenamePrefixKey, Str(prefix));
        assert WithPrefix(node, prefix) == Obj(Insert(node.fields, "inputs", Obj(ins')));
        ReplaceInputs(node, ins');
      }
    case _ =>
  }

  /**
   * Inside the `inputs` object, `WithPrefix` adds `filename_prefix`, set to
   * the default, only when it is absent, and every other input stays as it was.
   */
  lemma WithPrefixInputs(node: Value, prefix: string)
    requires Get(node, "inputs").Some? && Get(node, "inputs").value.Obj?
    ensures var ins := Get(node, "inputs").value.fields;
      var node' := WithPrefix(node, prefix);
      && Get(node', "inputs").Some? && Get(node', "inputs").value.Obj?
      && var ins' := Get(node', "inputs").value.fields;
      && FieldKeys(ins') == (if FilenamePrefixKey in FieldKeys(ins) then FieldKeys(ins) else FieldKeys(ins) + [FilenamePrefixKey])
      && (forall k :: k != FilenamePrefixKey ==> Lookup(ins', k) == Lookup(ins, k))
      && Lookup(ins', FilenamePrefixKey) == if FilenamePrefixKey in FieldKeys(ins) then Lookup(ins, FilenamePrefixKey) else Some(Str(prefix))
  {
    var ins := Get(node, "inputs").value.fields;
    if FilenamePrefixKey in FieldKeys(ins) {
      assert WithPrefix(node, prefix) == node;
    } else {
      var ins' := Insert(ins, FilenamePrefixKey, Str(prefix));
      assert WithPrefix(node, prefix) == Obj(Insert(node.fields, "inputs", Obj(ins')));
      ReplaceInputs(node, ins');
      assert Get(WithPrefix(node, prefix), "inputs") == Some(Obj(ins'));
      assert FieldKeys(ins') == FieldKeys(ins) + [FilenamePrefixKey];
      forall k | k != FilenamePrefixKey ensures Lookup(ins', k) == Lookup(ins, k) {
        LookupInsert(ins, FilenamePrefixKey, Str(prefix), k);
      }
      LookupInsert(ins, FilenamePrefixKey, Str(prefix), FilenamePrefixKey);
    }
  }

  /** Defaulting a node twice is defaulting it once, and never changes its class. */
  lemma WithPrefixIdempotent(node: Value, prefix: string)
    ensures WithPrefix(WithPrefix(node, prefix), prefix) == WithPrefix(node, prefix)
    ensures IsSaveImage(WithPrefix(node, prefix)) == IsSaveImage(node)
  {
    WithPrefixEffect(node, prefix);
    if Get(node, "inputs").Some? && Get(node, "inputs").value.Obj? {
      WithPrefixInputs(node, prefix);
    }
  }

  function PrefixIfSaveImage(node: Value, prefix: string): Value
  {
    if IsSaveImage(node) then WithPrefix(node, prefix) else node
  }

  /** The first step: node `"8"`, whatever its class, gets the default. */
  function Node8Prefixed(fs: seq<Field>, prefix: string): seq<Field>
  {
    match Lookup(fs, "8")
    case Some(n8) => Insert(fs, "8", WithPrefix(n8, prefix))
    case None => fs
  }

  /** `ensure_filename_prefix` as a function: node `"8"` first, then every `SaveImage` node. */
  function FilenamePrefixed(graph: Value, prefix: string): Value
  {
    if graph.Obj? then Obj(MapValues(Node8Prefixed(graph.fields, prefix), n => PrefixIfSaveImage(n, prefix)))
    else graph
  }

  /**
   * The graph keeps its node ids, and a node changes only if it is node `"8"`
   * or a `SaveImage` node, in which case it is defaulted as `WithPrefix` says.
   */
  lemma FilenamePrefixedLookup(graph: Value, prefix: string, k: string)
    requires graph.Obj?
    ensures FilenamePrefixed(graph, prefix).Obj?
    ensures FieldKeys(FilenamePrefixed(graph, prefix).fields) == FieldKeys(graph.fields)
    ensures Lookup(FilenamePrefixed(graph, prefix).fields, k) ==
      match Lookup(graph.fields, k)
      case None => None
      case Some(n) => Some(if k == "8" || IsSaveImage(n) then WithPrefix(n, prefix) else n)
  {
    var fs1 := Node8Prefixed(graph.fields, prefix);
    LookupMapValues(fs1, n => PrefixIfSaveImage(n, prefix), k);
    match Lookup(graph.fields, "8")
    case Some(n8) =>
      LookupInsert(graph.fields, "8", WithPrefix(n8, prefix), k);
      WithPrefixIdempotent(n8, prefix);
    case None =>
  }

  /** Defaulting is idempotent. */
  lemma FilenamePrefixedIdempotent(graph: Value, prefix: string)
    ensures FilenamePrefixed(FilenamePrefixed(graph, prefix), prefix) == FilenamePrefixed(graph, prefix)
  {
    if graph.Obj? {
      var g1 := FilenamePrefixed(graph, prefix);
      FilenamePrefixedLookup(graph, prefix, "8");
      var fs := Node8Prefixed(g1.fields, prefix);
      match Lookup(graph.fields, "8") {
        case Some(n8) =>
          WithPrefixIdempotent(n8, prefix);
          InsertExisting(g1.fields, "8", WithPrefix(n8, prefix));
        case None =>
      }
      assert fs == g1.fields;
      var fs0 := Node8Prefixed(graph.fields, prefix);
      forall i | 0 <= i < |fs| ensures PrefixIfSaveImage(fs[i].val, prefix) == fs[i].val {
        WithPrefixIdempotent(fs0[i].val, prefix);
      }
    }
  }

  /** `ensure_filename_prefix`: default node `"8"`, then every `SaveImage` node, in place. */
  method EnsureFilenamePrefix(graph: Value, prefix: string) returns (graph': Value)
    ensures graph' == FilenamePrefixed(graph, prefix)
    ensures !graph.Obj? ==> graph' == graph
  {
    if !graph.Obj? {
      return graph;
    }
    var nodes := graph.fields;
    var node8 := Lookup(nodes, "8");
    if node8.Some? {
      nodes := Insert(nodes, "8", WithPrefix(node8.value, prefix));
    }
    assert nodes == Node8Prefixed(graph.fields, prefix);
    var nodes' := PrefixSaveImages(nodes, prefix);
    MapValuesPointwise(nodes, n => PrefixIfSaveImage(n, prefix), nodes');
    return Obj(nodes');
  }

  /** The loop of `ensure_filename_prefix` over the nodes: default every `SaveImage` node. */
  method PrefixSaveImages(nodes: seq<Field>, prefix: string) returns (nodes': seq<Field>)
    ensures |nodes'| == |nodes|
    ensures forall j :: 0 <= j < |nodes| ==> nodes'[j] == Field(nodes[j].key, PrefixIfSaveImage(nodes[j].val, prefix))
  {
    nodes' := nodes;
    var i := 0;
    while i < |nodes'|
      invariant 0 <= i <= |nodes'| == |nodes|
      invariant forall j :: 0 <= j < i ==> nodes'[j] == Field(nodes[j].key, PrefixIfSaveImage(nodes[j].val, prefix))
      invariant forall j :: i <= j < |nodes'| ==> nodes'[j] == nodes[j]
    {
      var node := nodes'[i];
      if IsSaveImage(node.val) {
        nodes' := nodes'[i := Field(node.key, WithPrefix(node.val, prefix))];
      }
      i := i + 1;
    }
  }

  // ---------------------------------------------------------------------------
  // apply_params_map
  // ---------------------------------------------------------------------------

  /** The parameter names `apply_params_map` broadcasts into node inputs. */
  const KnownParamKeys: seq<string> :=
    ["seed", "steps", "cfg", "sampler_name", "scheduler", "denoise",
     "width", "height", "batch_size", "ckpt_name", "text"]

  /** The `(key, value)` pairs of `params` for the given keys, in key order. */
  function KnownParams(params: seq<Field>, keys: seq<string>): (kvs: seq<(string, Value)>)
    ensures forall j :: 0 <= j < |kvs| ==> kvs[j].0 in keys && Lookup(params, kvs[j].0) == Some(kvs[j].1)
  {
    if keys == [] then []
    else
      var k := keys[|keys| - 1];
      KnownParams(params, keys[..|keys| - 1]) + (if Lookup(params, k).Some? then [(k, Lookup(params, k).value)] else [])
  }

  /** The value the last pair for `k` carries. */
  function KvLookup(kvs: seq<(string, Value)>, k: string): Option<Value>
  {
    if kvs == [] then None
    else if kvs[|kvs| - 1].0 == k then Some(kvs[|kvs| - 1].1)
    else KvLookup(kvs[..|kvs| - 1], k)
  }

  /** The pairs found are exactly the given keys that `params` holds. */
  lemma {:induction false} KnownParamsLookup(params: seq<Field>, keys: seq<string>, k: string)
    ensures KvLookup(KnownParams(params, keys), k) == if k in keys then Lookup(params, k) else None
  {
    if keys != [] {
      var init := keys[..|keys| - 1];
      KnownParamsLookup(params, init, k);
      var last := keys[|keys| - 1];
      assert keys == init + [last];
      var prev := KnownParams(params, init);
      if Lookup(params, last).Some? {
        assert (prev + [(last, Lookup(params, last).value)])[..|prev|] == prev;
      } else {
        assert prev + [] == prev;
      }
    }
  }

  /** Overwrite, for each pair in turn, an input that already exists. */
  function ApplyKvs(ins: seq<Field>, kvs: seq<(string, Value)>): (r: seq<Field>)
    ensures FieldKeys(r) == FieldKeys(ins)
  {
    if kvs == [] then ins
    else
      var prev := ApplyKvs(ins, kvs[..|kvs| - 1]);
      var (k, v) := kvs[|kvs| - 1];
      if k in FieldKeys(prev) then Insert(prev, k, v) else prev
  }

  /** An input reads the last value broadcast for it if it existed, and as before otherwise. */
  lemma {:induction false} ApplyKvsLookup(ins: seq<Field>, kvs: seq<(string, Value)>, k: string)
    ensures Lookup(ApplyKvs(ins, kvs), k) ==
      if k in FieldKeys(ins) && KvLookup(kvs, k).Some? then KvLookup(kvs, k) else Lookup(ins, k)
  {
    if kvs != [] {
      var prev := ApplyKvs(ins, kvs[..|kvs| - 1]);
      ApplyKvsLookup(ins, kvs[..|kvs| - 1], k);
      var (k', v) := kvs[|kvs| - 1];
      if k' in FieldKeys(prev) {
        LookupInsert(prev, k', v, k);
      }
    }
  }

  /** Broadcasting values that every existing input already holds changes nothing. */
  lemma {:induction false} ApplyKvsFixpoint(ins: seq<Field>, kvs: seq<(string, Value)>)
    requires forall j :: 0 <= j < |kvs| && kvs[j].0 in FieldKeys(ins) ==> Lookup(ins, kvs[j].0) == Some(kvs[j].1)
    ensures ApplyKvs(ins, kvs) == ins
  {
    if kvs != [] {
      ApplyKvsFixpoint(ins, kvs[..|kvs| - 1]);
      var (k, v) := kvs[|kvs| - 1];
      if k in FieldKeys(ins) {
        InsertExisting(ins, k, v);
      }
    }
  }

  /** One node: broadcast into its `inputs` object, if it has one. */
  function ParamsNode(node: Value, kvs: seq<(string, Value)>): Value
  {
    match Get(node, "inputs")
    case Some(Obj(ins)) => Obj(Insert(node.fields, "inputs", Obj(ApplyKvs(ins, kvs))))
    case _ => node
  }

  /** `apply_params_map` as a function. */
  function ParamsMapped(graph: Value, params: Value): Value
  {
    if !params.Obj? then graph
    else
      var kvs := KnownParams(params.fields, KnownParamKeys);
      if kvs == [] || !graph.Obj? then graph
      else Obj(MapValues(graph.fields, n => ParamsNode(n, kvs)))
  }

  /** Nothing changes when `params` is not an object, when the graph is not, or when no known key is given. */
  lemma ParamsMappedNoop(graph: Value, params: Value)
    requires !params.Obj? || !graph.Obj? || forall k :: k in KnownParamKeys ==> !Has(params, k)
    ensures ParamsMapped(graph, params) == graph
  {
    if params.Obj? && graph.Obj? {
      var kvs := KnownParams(params.fields, KnownParamKeys);
      if kvs != [] {
        assert kvs[0].0 in KnownParamKeys && Has(params, kvs[0].0);
      }
    }
  }

  /**
   * Outside its `inputs` object a node is untouched: it keeps every key and
   * every other field, and a node without an `inputs` object does not change.
   */
  lemma ParamsNodeEffect(node: Value, params: seq<Field>)
    ensures var node' := ParamsNode(node, KnownParams(params, KnownParamKeys));
      && (node.Obj? ==> node'.Obj? && FieldKeys(node'.fields) == FieldKeys(node.fields))
      && (forall k :: k != "inputs" ==> Get(node', k) == Get(node, k))
      && (!(Get(node, "inputs").Some? && Get(node, "inputs").value.Obj?) ==> node' == node)
  {
    var kvs := KnownParams(params, KnownParamKeys);
    match Get(node, "inputs")
    case Some(Obj(ins)) =>
      assert ParamsNode(node, kvs) == Obj(Insert(node.fields, "inputs", Obj(ApplyKvs(ins, kvs))));
      ReplaceInputs(node, ApplyKvs(ins, kvs));
    case _ =>
  }

  /**
   * Inside a node's `inputs` object, the broadcast keeps the input names and
   * overwrites an input only when it already exists and `params` gives a
   * known key for it.
   */
  lemma ParamsNodeInputs(node: Value, params: seq<Field>)
    requires Get(node, "inputs").Some? && Get(node, "inputs").value.Obj?
    ensures var node' := ParamsNode(node, KnownParams(params, KnownParamKeys));
      var ins := Get(node, "inputs").value.fields;
      && Get(node', "inputs").Some? && Get(node', "inputs").value.Obj?
      && var ins' := Get(node', "inputs").value.fields;
      && FieldKeys(ins') == FieldKeys(ins)
      && forall k :: Lookup(ins', k) ==
           if k in FieldKeys(ins) && k in KnownParamKeys && k in FieldKeys(params) then Lookup(params, k) else Lookup(ins, k)
  {
    var kvs := KnownParams(params, KnownParamKeys);
    var ins := Get(node, "inputs").value.fields;
    var ins' := ApplyKvs(ins, kvs);
    assert ParamsNode(node, kvs) == Obj(Insert(node.fields, "inputs", Obj(ins')));
    ReplaceInputs(node, ins');
    forall k ensures Lookup(ins', k) ==
      if k in FieldKeys(ins) && k in KnownParamKeys && k in FieldKeys(params) then Lookup(params, k) else Lookup(ins, k)
    {
      ApplyKvsLookup(ins, kvs, k);
      KnownParamsLookup(params, KnownParamKeys, k);
    }
  }

  /** Broadcasting into one node twice is broadcasting once. */
  lemma ParamsNodeIdempotent(node: Value, params: seq<Field>)
    ensures var kvs := KnownParams(params, KnownParamKeys);
      ParamsNode(ParamsNode(node, kvs), kvs) == ParamsNode(node, kvs)
  {
    var kvs := KnownParams(params, KnownParamKeys);
    match Get(node, "inputs")
    case Some(Obj(ins)) =>
      var ins' := ApplyKvs(ins, kvs);
      var node' := Obj(Insert(node.fields, "inputs", Obj(ins')));
      LookupInsert(node.fields, "inputs", Obj(ins'), "inputs");
      forall j | 0 <= j < |kvs| && kvs[j].0 in FieldKeys(ins') ensures Lookup(ins', kvs[j].0) == Some(kvs[j].1) {
        ApplyKvsLookup(ins, kvs, kvs[j].0);
        KnownParamsLookup(params, KnownParamKeys, kvs[j].0);
      }
      ApplyKvsFixpoint(ins', kvs);
      InsertExisting(node'.fields, "inputs", Obj(ins'));
    case _ =>
  }

  /**
   * Broadcasting keeps the graph's node ids in order and changes each node
   * only as `ParamsNodeEffect` says.
   */
  lemma ParamsMappedNodes(graph: Value, params: Value)
    requires graph.Obj? && params.Obj?
    ensures ParamsMapped(graph, params).Obj?
    ensures FieldKeys(ParamsMapped(graph, params).fields) == FieldKeys(graph.fields)
    ensures forall i :: 0 <= i < |graph.fields| ==>
      ParamsMapped(graph, params).fields[i].val == ParamsNode(graph.fields[i].val, KnownParams(params.fields, KnownParamKeys))
  {
    var kvs := KnownParams(params.fields, KnownParamKeys);
    if kvs == [] {
      forall i | 0 <= i < |graph.fields| ensures ParamsNode(graph.fields[i].val, kvs) == graph.fields[i].val {
        var node := graph.fields[i].val;
        if Get(node, "inputs").Some? && Get(node, "inputs").value.Obj? {
          InsertExisting(node.fields, "inputs", Get(node, "inputs").value);
        }
      }
    }
  }

  /** Broadcasting is idempotent. */
  lemma ParamsMappedIdempotent(graph: Value, params: Value)
    ensures ParamsMapped(ParamsMapped(graph, params), params) == ParamsMapped(graph, params)
  {
    if params.Obj? && graph.Obj? {
      var kvs := KnownParams(params.fields, KnownParamKeys);
      if kvs != [] {
        var g1 := ParamsMapped(graph, params);
        forall i | 0 <= i < |g1.fields| ensures ParamsNode(g1.fields[i].val, kvs) == g1.fields[i].val {
          ParamsNodeIdempotent(graph.fields[i].val, params.fields);
        }
      }
    }
  }

  /** The first loop of `apply_params_map`: the given keys `params` holds, with their values. */
  method CollectKnownParams(params: seq<Field>, keys: seq<string>) returns (kvs: seq<(string, Value)>)
    ensures kvs == KnownParams(params, keys)
  {
    kvs := [];
    var i := 0;
    while i < |keys|
      invariant 0 <= i <= |keys|
      invariant kvs == KnownParams(params, keys[..i])
    {
      assert keys[..i + 1][..i] == keys[..i];
      var k := keys[i];
      var v := Lookup(params, k);
      if v.Some? {
        kvs := kvs + [(k, v.value)];
      }
      i := i + 1;
    }
    assert keys[..i] == keys;
  }

  /** The inner loop of `apply_params_map`: overwrite the inputs that exist. */
  method BroadcastInputs(ins: seq<Field>, kvs: seq<(string, Value)>) returns (ins': seq<Field>)
    ensures ins' == ApplyKvs(ins, kvs)
  {
    ins' := ins;
    var j := 0;
    while j < |kvs|
      invariant 0 <= j <= |kvs|
      invariant ins' == ApplyKvs(ins, kvs[..j])
    {
      assert kvs[..j + 1][..j] == kvs[..j];
      if kvs[j].0 in FieldKeys(ins') {
        ins' := Insert(ins', kvs[j].0, kvs[j].1);
      }
      j := j + 1;
    }
    assert kvs[..j] == kvs;
  }

  /** The body of the node loop of `apply_params_map`. */
  method BroadcastNode(node: Value, kvs: seq<(string, Value)>) returns (node': Value)
    ensures node' == ParamsNode(node, kvs)
  {
    node' := node;
    var inputs := Get(node, "inputs");
    if inputs.Some? && inputs.value.Obj? {
      var ins := BroadcastInputs(inputs.value.fields, kvs);
      node' := Obj(Insert(node.fields, "inputs", Obj(ins)));
    }
  }

  /** The node loop of `apply_params_map`. */
  method BroadcastNodes(nodes: seq<Field>, kvs: seq<(string, Value)>) returns (nodes': seq<Field>)
    ensures |nodes'| == |nodes|
    ensures forall j :: 0 <= j < |nodes| ==> nodes'[j] == Field(nodes[j].key, ParamsNode(nodes[j].val, kvs))
  {
    nodes' := nodes;
    var n := 0;
    while n < |nodes'|
      invariant 0 <= n <= |nodes'| == |nodes|
      invariant forall j :: 0 <= j < n ==> nodes'[j] == Field(nodes[j].key, ParamsNode(nodes[j].val, kvs))
      invariant forall j :: n <= j < |nodes'| ==> nodes'[j] == nodes[j]
    {
      var node' := BroadcastNode(nodes'[n].val, kvs);
      nodes' := nodes'[n := Field(nodes'[n].key, node')];
      n := n + 1;
    }
  }

  /** `apply_params_map`: collect the known pairs, then overwrite existing inputs node by node. */
  method ApplyParamsMap(graph: Value, params: Value) returns (graph': Value)
    ensures graph' == ParamsMapped(graph, params)
  {
    if !params.Obj? {
      return graph;
    }
    var kvs := CollectKnownParams(params.fields, KnownParamKeys);
    if kvs == [] || !graph.Obj? {
      return graph;
    }
    var nodes := BroadcastNodes(graph.fields, kvs);
    MapValuesPointwise(graph.fields, n => ParamsNode(n, kvs), nodes);
    return Obj(nodes);
  }
}
