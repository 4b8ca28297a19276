/**
 * The JavaScript values a JXON object is built from: strings, arrays, plain
 * objects and null. An object is a list of fields in insertion order, which is
 * the order `for ... in`, `Object.keys` and lodash's `forOwn` visit them in.
 * Assigning a property (`o[k] = v`) is `Set`: it replaces the value in place
 * when `k` is already a key and appends a field otherwise; `delete o[k]` is
 * `Delete`.
 */
module Json {
  import opened Wrappers

  datatype Json =
    | Null
    | Str(s: string)
    | Arr(items: seq<Json>)
    | Obj(fields: seq<Field>)

  datatype Field = Field(key: string, val: Json)

  /**
   * What a JXON operation throws: `convert`'s "Unsupported node type" error,
   * or the TypeError JavaScript raises on a property access or an `in` test
   * applied to a value that does not support it.
   */
  datatype Failure = UnsupportedNodeType(nodeType: nat) | TypeError

  /** The keys of an object, in order. */
  function Keys(fs: seq<Field>): (ks: seq<string>)
    ensures |ks| == |fs|
  {
    if fs == [] then [] else [fs[0].key] + Keys(fs[1..])
  }

  /** A JavaScript object never holds the same key twice. */
  predicate Unique(fs: seq<Field>)
  {
    fs == [] || (fs[0].key !in Keys(fs[1..]) && Unique(fs[1..]))
  }

  /** No key occurs twice in the list. */
  predicate Distinct(ks: seq<string>)
  {
    ks == [] || (ks[0] !in ks[1..] && Distinct(ks[1..]))
  }

  /** The keys of an object are distinct. */
  lemma {:induction false} UniqueKeysDistinct(fs: seq<Field>)
    requires Unique(fs)
    ensures Distinct(Keys(fs))
  {
    if fs != [] {
      UniqueKeysDistinct(fs[1..]);
      assert Keys(fs)[1..] == Keys(fs[1..]);
    }
  }

  /** `o[k]`, with `None` for `undefined`. */
  function Get(fs: seq<Field>, k: string): (r: Option<Json>)
    ensures r.Some? <==> k in Keys(fs)
    ensures r.Some? ==> Field(k, r.value) in fs
  {
    if fs == [] then None
    else if fs[0].key == k then Some(fs[0].val)
    else Get(fs[1..], k)
  }

  /** `o[k] = v`. */
  function Set(fs: seq<Field>, k: string, v: Json): (r: seq<Field>)
    ensures Get(r, k) == Some(v)
    ensures forall k' :: k' != k ==> Get(r, k') == Get(fs, k')
    ensures Unique(fs) ==> Unique(r)
  {
    if fs == [] then [Field(k, v)]
    else if fs[0].key == k then [Field(k, v)] + fs[1..]
    else
      var rest := Set(fs[1..], k, v);
      KeysCons(fs[0], rest);
      assert fs[0].key in Keys(rest) ==> Get(rest, fs[0].key).Some?;
      [fs[0]] + rest
  }

  /** `delete o[k]`. */
  function Delete(fs: seq<Field>, k: string): (r: seq<Field>)
    ensures k !in Keys(fs) ==> r == fs
    ensures Unique(fs) ==> Unique(r) && k !in Keys(r)
    ensures forall k' :: k' != k ==> Get(r, k') == Get(fs, k')
  {
    if fs == [] then []
    else if fs[0].key == k then fs[1..]
    else
      var rest := Delete(fs[1..], k);
      KeysCons(fs[0], rest);
      assert fs[0].key in Keys(rest) ==> Get(rest, fs[0].key).Some?;
      [fs[0]] + rest
  }

  /** Assigning an existing key keeps the key order; a new key goes last. */
  lemma {:induction false} KeysOfSet(fs: seq<Field>, k: string, v: Json)
    ensures Keys(Set(fs, k, v)) == if k in Keys(fs) then Keys(fs) else Keys(fs) + [k]
  {
    if fs != [] {
      KeysCons(fs[0], fs[1..]);
      assert [fs[0]] + fs[1..] == fs;
      if fs[0].key == k {
        KeysCons(Field(k, v), fs[1..]);
      } else {
        var rest := Set(fs[1..], k, v);
        assert Set(fs, k, v) == [fs[0]] + rest;
        KeysOfSet(fs[1..], k, v);
        KeysCons(fs[0], rest);
        assert [fs[0].key] + (Keys(fs[1..]) + [k]) == ([fs[0].key] + Keys(fs[1..])) + [k];
      }
    }
  }

  /** Assigning a key twice is assigning the second value. */
  lemma {:induction false} SetTwice(fs: seq<Field>, k: string, a: Json, b: Json)
    ensures Set(Set(fs, k, a), k, b) == Set(fs, k, b)
  {
    if fs != [] && fs[0].key != k {
      var rest := Set(fs[1..], k, a);
      assert Set(fs, k, a) == [fs[0]] + rest;
      KeysCons(fs[0], rest);
      SetTwice(fs[1..], k, a, b);
    }
  }

  lemma KeysCons(f: Field, fs: seq<Field>)
    ensures Keys([f] + fs) == [f.key] + Keys(fs)
    ensures ([f] + fs)[1..] == fs
  {
  }

  /** JavaScript truthiness of a value (`undefined` is `None`). */
  predicate Truthy(v: Option<Json>)
  {
    match v
    case None => false
    case Some(Null) => false
    case Some(Str(s)) => s != ""
    case Some(_) => true
  }

  /** `a || b` on possibly-undefined values. */
  function Or(a: Option<Json>, b: Option<Json>): Option<Json>
  {
    if Truthy(a) then a else b
  }

  /** `String(v)`: the conversion JavaScript applies when a value is concatenated or stored as text. */
  function ToJsString(v: Option<Json>): string
  {
    match v
    case None => "undefined"
    case Some(j) => StringOf(j)
  }

  function StringOf(j: Json): string
  {
    match j
    case Null => "null"
    case Str(s) => s
    case Obj(_) => "[object Object]"
    case Arr(items) => JoinItems(items)
  }

  /** `Array.prototype.join(",")`, which writes null elements as empty strings. */
  function JoinItems(items: seq<Json>): string
  {
    if items == [] then ""
    else
      var first := if items[0].Null? then "" else StringOf(items[0]);
      if |items| == 1 then first else first + "," + JoinItems(items[1..])
  }

  /** A measure that decreases from an object to the values stored in it. */
  function Size(j: Json): nat
  {
    match j
    case Null => 1
    case Str(_) => 1
    case Arr(items) => 1 + SizeSeq(items)
    case Obj(fs) => 1 + SizeFields(fs)
  }

  function SizeSeq(items: seq<Json>): nat
  {
    if items == [] then 0 else Size(items[0]) + SizeSeq(items[1..])
  }

  function SizeFields(fs: seq<Field>): nat
  {
    if fs == [] then 0 else Size(fs[0].val) + SizeFields(fs[1..])
  }

  lemma {:induction false} SizeOfItem(items: seq<Json>, i: nat)
    requires i < |items|
    ensures Size(items[i]) <= SizeSeq(items)
  {
    if i > 0 {
      SizeOfItem(items[1..], i - 1);
    }
  }

  lemma {:induction false} SizeOfValue(fs: seq<Field>, k: string)
    requires k in Keys(fs)
    ensures Size(Get(fs, k).value) <= SizeFields(fs)
  {
    if fs[0].key != k {
      SizeOfValue(fs[1..], k);
    }
  }

  /** The value under the first key of an object is smaller than the object. */
  lemma SizeOfFirst(fs: seq<Field>)
    requires |fs| > 0
    ensures Size(fs[0].val) < Size(Obj(fs))
  {
  }
}
