/**
 * The JSON value tree that every operation of the override engine works on
 * (the role `serde_json::Value` plays in the source).
 *
 * An object is an association list of fields. Its order stands for the
 * iteration order of the underlying map, which the source does not fix
 * (a key-sorted map by default, insertion order with `preserve_order`):
 * traversals follow the list, and a newly inserted key goes at the end.
 * JSON objects never hold a key twice; the operations below act on the
 * first field with a given key, which is the only one in a well-formed object.
 */
module Json {
  import opened Wrappers

  datatype Value =
    | Null
    | Bool(b: bool)
    | Int(i: int)
    /** A floating-point number; its bits are opaque to the model. */
    | Float(bits: bv64)
    | Str(s: string)
    | Arr(elems: seq<Value>)
    | Obj(fields: seq<Field>)

  datatype Field = Field(key: string, val: Value)

  /** The keys of an object, in field order. */
  function FieldKeys(fs: seq<Field>): (ks: seq<string>)
    ensures |ks| == |fs|
    ensures forall i :: 0 <= i < |fs| ==> ks[i] == fs[i].key
  {
    if fs == [] then [] else [fs[0].key] + FieldKeys(fs[1..])
  }

  /** No key occurs twice: the invariant of every JSON object. */
  predicate UniqueKeys(fs: seq<Field>)
  {
    forall i, j :: 0 <= i < j < |fs| ==> fs[i].key != fs[j].key
  }

  /** The value stored under `k` (`Map::get`). */
  function Lookup(fs: seq<Field>, k: string): (r: Option<Value>)
    ensures r.Some? <==> k in FieldKeys(fs)
    ensures r.Some? ==> Field(k, r.value) in fs
  {
    if fs == [] then None
    else if fs[0].key == k then Some(fs[0].val)
    else Lookup(fs[1..], k)
  }

  /** `Value::get` with a string index: a field of an object, nothing otherwise. */
  function Get(v: Value, k: string): (r: Option<Value>)
    ensures r.Some? <==> v.Obj? && k in FieldKeys(v.fields)
  {
    if v.Obj? then Lookup(v.fields, k) else None
  }

  /** Whether `v` is an object holding key `k`. */
  predicate Has(v: Value, k: string)
  {
    v.Obj? && k in FieldKeys(v.fields)
  }

  /**
   * `Map::insert`: overwrite the value under `k` in place, or append a new
   * field when `k` is absent.
   */
  function Insert(fs: seq<Field>, k: string, x: Value): (r: seq<Field>)
    ensures FieldKeys(r) == if k in FieldKeys(fs) then FieldKeys(fs) else FieldKeys(fs) + [k]
  {
    if fs == [] then [Field(k, x)]
    else if fs[0].key == k then [Field(k, x)] + fs[1..]
    else [fs[0]] + Insert(fs[1..], k, x)
  }

  /** After an insert, `k` reads back `x` and every other key reads as before. */
  lemma {:induction false} LookupInsert(fs: seq<Field>, k: string, x: Value, k': string)
    ensures Lookup(Insert(fs, k, x), k') == if k' == k then Some(x) else Lookup(fs, k')
  {
    if fs != [] && fs[0].key != k {
      LookupInsert(fs[1..], k, x, k');
    }
  }

  /** Writing back the value that is already there changes nothing. */
  lemma {:induction false} InsertExisting(fs: seq<Field>, k: string, x: Value)
    requires Lookup(fs, k) == Some(x)
    ensures Insert(fs, k, x) == fs
  {
    if fs != [] && fs[0].key != k {
      InsertExisting(fs[1..], k, x);
    }
  }

  /** Inserting keeps an object free of duplicate keys. */
  lemma InsertKeepsUniqueKeys(fs: seq<Field>, k: string, x: Value)
    requires UniqueKeys(fs)
    ensures UniqueKeys(Insert(fs, k, x))
  {
    var r := Insert(fs, k, x);
    var ks, rs := FieldKeys(fs), FieldKeys(r);
    assert forall i, j :: 0 <= i < j < |fs| ==> ks[i] != ks[j];
    forall i, j | 0 <= i < j < |r| ensures r[i].key != r[j].key {
      assert rs[i] == r[i].key && rs[j] == r[j].key;
    }
  }

  /** Apply `g` to the value of every field, in place (an `iter_mut` pass over an object). */
  function MapValues(fs: seq<Field>, g: Value -> Value): (r: seq<Field>)
    ensures |r| == |fs|
    ensures forall i :: 0 <= i < |fs| ==> r[i] == Field(fs[i].key, g(fs[i].val))
    ensures FieldKeys(r) == FieldKeys(fs)
  {
    var r := seq(|fs|, i requires 0 <= i < |fs| => Field(fs[i].key, g(fs[i].val)));
    assert FieldKeys(r) == FieldKeys(fs);
    r
  }

  /** A pass that maps every value as `g` does is `MapValues` with `g`. */
  lemma MapValuesPointwise(fs: seq<Field>, g: Value -> Value, r: seq<Field>)
    requires |r| == |fs|
    requires forall i :: 0 <= i < |fs| ==> r[i] == Field(fs[i].key, g(fs[i].val))
    ensures r == MapValues(fs, g)
  {
  }

  /** Reading a key after a pointwise pass reads `g` of the value before it. */
  lemma {:induction false} LookupMapValues(fs: seq<Field>, g: Value -> Value, k: string)
    ensures Lookup(MapValues(fs, g), k) == if k in FieldKeys(fs) then Some(g(Lookup(fs, k).value)) else None
  {
    if fs != [] {
      assert MapValues(fs, g)[1..] == MapValues(fs[1..], g);
      LookupMapValues(fs[1..], g, k);
    }
  }
}
