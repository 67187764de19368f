/**
 * JavaScript values and collections as the ShareDB client code sees them.
 *
 * ShareDB json1 ops arrive as plain JSON arrays; the interpreter inspects them
 * with `typeof`, `Array.isArray`, property reads and truthiness tests. This
 * module gives those tests a precise meaning, and models the insertion-ordered
 * JavaScript `Map` and `Set` that the client keeps its state in.
 */
module Js {

  datatype Option<T> = None | Some(value: T)

  /** Why a call stopped early: a failed `assert(...)` of nexteditor-core, a
      JavaScript TypeError (reading a property of null, calling a missing
      method), or an input shape this model does not interpret. */
  datatype ErrorKind = AssertionFailed | TypeError | Unsupported

  datatype Result<T> = Ok(value: T) | Err(error: ErrorKind)

  /** A JavaScript value. Numbers are integers: ShareDB paths only hold
      indexes, so floating point is not modelled. */
  datatype Value =
    | Undefined
    | Null
    | Bool(b: bool)
    | Num(n: int)
    | Str(s: string)
    | Arr(items: seq<Value>)
    | Obj(fields: map<string, Value>)

  /** JavaScript truthiness: `if (v)`. */
  predicate Truthy(v: Value)
  {
    match v
    case Undefined => false
    case Null => false
    case Bool(b) => b
    case Num(n) => n != 0
    case Str(s) => s != ""
    case Arr(_) => true
    case Obj(_) => true
  }

  /** `typeof v === 'object'`, which holds for null and arrays as well. */
  predicate TypeofObject(v: Value)
  {
    v.Null? || v.Arr? || v.Obj?
  }

  /** `s[i]` on an array: `undefined` past its end. */
  function At(s: seq<Value>, i: nat): Value
  {
    if i < |s| then s[i] else Undefined
  }

  /** `v.key` where `v` is known not to be null or undefined. */
  function Field(v: Value, key: string): Value
  {
    if v.Obj? && key in v.fields then v.fields[key] else Undefined
  }

  /** `v.key`: a TypeError on null and undefined; on anything other than a
      plain object the keys the client reads are absent. */
  function Prop(v: Value, key: string): (r: Result<Value>)
    ensures r.Err? <==> v.Null? || v.Undefined?
    ensures r.Ok? ==> r.value == Field(v, key)
    ensures r.Ok? && r.value != Undefined ==> v.Obj? && key in v.fields
  {
    if v.Null? || v.Undefined? then Err(TypeError) else Ok(Field(v, key))
  }

  /** A finite size of values, used to show that replaying multi-container
      ops terminates. */
  function Size(v: Value): (r: nat)
    ensures r >= 1
  {
    match v
    case Arr(items) => 1 + SizeSeq(items)
    case _ => 1
  }

  function SizeSeq(s: seq<Value>): nat
  {
    if s == [] then 0 else Size(s[0]) + SizeSeq(s[1..])
  }

  lemma {:induction false} SizeSeqElement(s: seq<Value>, i: nat)
    requires i < |s|
    ensures Size(s[i]) <= SizeSeq(s)
  {
    if i > 0 {
      SizeSeqElement(s[1..], i - 1);
    }
  }

  /** `[...'abc']`: spreading a string yields its characters. */
  function Chars(s: string): (r: seq<Value>)
    ensures |r| == |s|
    ensures forall i | 0 <= i < |s| :: r[i] == Str([s[i]])
  {
    seq(|s|, i requires 0 <= i < |s| => Str([s[i]]))
  }

  // ---------------------------------------------------------------------
  // Sequences
  // ---------------------------------------------------------------------

  predicate NoDup<T(==,!new)>(s: seq<T>)
  {
    forall i, j | 0 <= i < j < |s| :: s[i] != s[j]
  }

  /** `Array.prototype.reverse`. */
  function Reverse<T>(s: seq<T>): (r: seq<T>)
    ensures |r| == |s|
    ensures forall i | 0 <= i < |s| :: r[i] == s[|s| - 1 - i]
  {
    if s == [] then [] else Reverse(s[1..]) + [s[0]]
  }

  /** `s` with every occurrence of `x` taken out, the rest in order. */
  function Remove<T(==,!new)>(s: seq<T>, x: T): (r: seq<T>)
    ensures forall y :: y in r <==> y in s && y != x
    ensures NoDup(s) ==> NoDup(r)
    ensures |r| <= |s|
  {
    if s == [] then []
    else if s[0] == x then Remove(s[1..], x)
    else
      var rest := Remove(s[1..], x);
      assert forall j | 0 < j < |[s[0]] + rest| :: ([s[0]] + rest)[j] in s[1..];
      [s[0]] + rest
  }

  /** `set.add(x)` on a JavaScript `Set`, kept as its iteration order. */
  function AddTo<T(==,!new)>(s: seq<T>, x: T): (r: seq<T>)
    ensures forall y :: y in r <==> y in s || y == x
    ensures NoDup(s) ==> NoDup(r)
    ensures x in s ==> r == s
    ensures x !in s ==> r == s + [x]
  {
    if x in s then s else s + [x]
  }

  /** `new Set(s)`: the first occurrence of each element, in order. */
  function Dedup<T(==,!new)>(s: seq<T>): (r: seq<T>)
    ensures NoDup(r)
    ensures forall y :: y in r <==> y in s
  {
    DedupInto([], s)
  }

  function DedupInto<T(==,!new)>(acc: seq<T>, s: seq<T>): (r: seq<T>)
    requires NoDup(acc)
    ensures NoDup(r)
    ensures forall y :: y in r <==> y in acc || y in s
    ensures acc <= r
    decreases |s|
  {
    if s == [] then acc else DedupInto(AddTo(acc, s[0]), s[1..])
  }

  // ---------------------------------------------------------------------
  // Insertion-ordered maps
  // ---------------------------------------------------------------------

  /** A JavaScript `Map`, or a plain object used as one: its keys in
      insertion order and the value stored under each. */
  datatype JsMap<K(==,!new), V> = JsMap(keys: seq<K>, values: map<K, V>)
  {
    ghost predicate Valid()
    {
      && NoDup(keys)
      && (forall i | 0 <= i < |keys| :: keys[i] in values)
      && (forall k | k in values :: k in keys)
    }

    predicate Has(k: K)
    {
      k in values
    }

    function Get(k: K): Option<V>
    {
      if k in values then Some(values[k]) else None
    }

    /** `map.set(k, v)`: an existing key keeps its place, a new key goes last. */
    function Set(k: K, v: V): (r: JsMap<K, V>)
      ensures Valid() ==> r.Valid()
      ensures r.values == values[k := v]
      ensures k in values ==> r.keys == keys
      ensures k !in values ==> r.keys == keys + [k]
    {
      if k in values then JsMap(keys, values[k := v]) else JsMap(keys + [k], values[k := v])
    }

    /** `map.delete(k)`. */
    function Delete(k: K): (r: JsMap<K, V>)
      ensures Valid() ==> r.Valid()
      ensures r.values == values - {k}
      ensures forall y :: y in r.keys <==> y in keys && y != k
    {
      var r := JsMap(Remove(keys, k), values - {k});
      assert forall i | 0 <= i < |r.keys| :: r.keys[i] in r.keys;
      r
    }

    /** `Array.from(map.values())`. */
    function Values(): (r: seq<V>)
      requires Valid()
      ensures |r| == |keys|
      ensures forall i | 0 <= i < |keys| :: r[i] == values[keys[i]]
    {
      seq(|keys|, i requires 0 <= i < |keys| => values[keys[i]])
    }

    /** `Array.from(map.entries())`. */
    function Entries(): (r: seq<(K, V)>)
      requires Valid()
      ensures |r| == |keys|
      ensures forall i | 0 <= i < |keys| :: r[i] == (keys[i], values[keys[i]])
    {
      seq(|keys|, i requires 0 <= i < |keys| => (keys[i], values[keys[i]]))
    }
  }

  function EmptyMap<K(==,!new), V>(): (r: JsMap<K, V>)
    ensures r.Valid() && r.keys == [] && r.values == map[]
  {
    JsMap([], map[])
  }
}
