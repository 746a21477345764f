/**
  * Values shared by every part of the model: an Option type, the JavaScript
  * values the framework inspects, their truthiness, property access, and the
  * insertion-ordered dictionaries that stand for JS objects, Maps and Headers.
  */
module Base {

  datatype Option<T> = None | Some(value: T) {
    /** The `??` operator: the value, or the default when absent. */
    function GetOr(default: T): T {
      match this
      case Some(v) => v
      case None => default
    }
  }

  newtype byte = x: int | 0 <= x < 256

  /**
    * A JavaScript value as the framework sees it. `Payload` is an instance of
    * the Success or Error record (its `success` field tells which), `Stream` a
    * ReadableStream given by the chunks it delivers, `Thunk` a zero-argument
    * function and `Promise` a promise, each given by what it yields.
    */
  datatype Value =
    | Undefined
    | Null
    | Bool(b: bool)
    | Num(n: int)
    | Str(s: string)
    | Arr(items: seq<Value>)
    | Obj(fields: seq<(string, Value)>)
    | Payload(content: Value, status: Value, success: bool, transform: Value)
    | Stream(chunks: seq<Value>, closed: bool, errored: bool, pipes: seq<string>)
    | Thunk(result: Value)
    | Promise(resolved: Value)
    | NativeResponse(id: nat)
    | Bytes(data: seq<byte>)

  /** JavaScript truthiness (`if (v)`). */
  predicate Truthy(v: Value) {
    match v
    case Undefined => false
    case Null => false
    case Bool(b) => b
    case Num(n) => n != 0
    case Str(s) => s != ""
    case _ => true
  }

  /** `v === null || v === undefined`, the test behind `??` and `?.`. */
  predicate Nullish(v: Value) {
    v.Undefined? || v.Null?
  }

  /** Whether the value has a `pop` method, i.e. is an array. */
  predicate IsArray(v: Value) {
    v.Arr?
  }

  /** Property access `v[name]` (and `v?.[name]`) on the values the framework reads. */
  function Field(v: Value, name: string): (r: Value)
    ensures v.Obj? ==> r == Lookup(v.fields, name).GetOr(Undefined)
    ensures !v.Obj? && !v.Payload? ==> r == Undefined
  {
    match v
    case Payload(c, st, ok, tr) =>
      if name == "content" then c
      else if name == "status" then st
      else if name == "success" then Bool(ok)
      else if name == "transform" then tr
      else Undefined
    case Obj(fields) => Lookup(fields, name).GetOr(Undefined)
    case _ => Undefined
  }

  /** Concatenation regroups freely; stated once so that proofs can cite it instead of re-deriving it. */
  lemma Regroup<T>(a: seq<T>, b: seq<T>, c: seq<T>)
    ensures (a + b) + c == a + (b + c)
  {
  }

  // ---------------------------------------------------------------------------
  // Insertion-ordered dictionaries (JS objects, Map, Set of keys)
  // ---------------------------------------------------------------------------

  type Dict<V> = seq<(string, V)>

  /**
    * A `Headers` collection. `Headers` compares names case-insensitively and
    * reports them in lower case, so the model keeps every name in lower case.
    */
  type Headers = Dict<string>

  function Keys<V>(d: Dict<V>): (ks: seq<string>)
    ensures |ks| == |d|
    ensures forall i :: 0 <= i < |d| ==> ks[i] == d[i].0
  {
    if d == [] then [] else [d[0].0] + Keys(d[1..])
  }

  predicate UniqueKeys<V>(d: Dict<V>) {
    forall i, j :: 0 <= i < j < |d| ==> d[i].0 != d[j].0
  }

  /** `d[k]`: the value stored under `k`, if any. */
  function Lookup<V>(d: Dict<V>, k: string): Option<V> {
    if d == [] then None
    else if d[0].0 == k then Some(d[0].1)
    else Lookup(d[1..], k)
  }

  /** A key looks something up exactly when it is one of the keys. */
  lemma {:induction false} LookupKeys<V>(d: Dict<V>, k: string)
    ensures Lookup(d, k).Some? <==> k in Keys(d)
    decreases |d|
  {
    if d != [] {
      LookupKeys(d[1..], k);
      assert Keys(d) == [d[0].0] + Keys(d[1..]);
    }
  }

  /**
    * `d[k] = v`: an existing key keeps its position and gets the new value,
    * a new key is added at the end.
    */
  function Put<V>(d: Dict<V>, k: string, v: V): (r: Dict<V>)
    ensures Lookup(r, k) == Some(v)
    ensures forall j :: j != k ==> Lookup(r, j) == Lookup(d, j)
  {
    if d == [] then [(k, v)]
    else if d[0].0 == k then [(k, v)] + d[1..]
    else [d[0]] + Put(d[1..], k, v)
  }

  /** An existing key keeps its position; a new key goes to the end. */
  lemma {:induction false} PutKeys<V>(d: Dict<V>, k: string, v: V)
    ensures Keys(Put(d, k, v)) == if k in Keys(d) then Keys(d) else Keys(d) + [k]
    decreases |d|
  {
    if d != [] && d[0].0 != k {
      PutKeys(d[1..], k, v);
      var rest := Put(d[1..], k, v);
      assert Keys([d[0]] + rest) == [d[0].0] + Keys(rest);
      assert Keys(d) == [d[0].0] + Keys(d[1..]);
    }
  }

  /** `delete d[k]` / `headers.delete(k)`. */
  function Remove<V>(d: Dict<V>, k: string): (r: Dict<V>)
    requires UniqueKeys(d)
    ensures UniqueKeys(r)
    ensures forall j :: j in Keys(r) ==> j in Keys(d)
    ensures Lookup(r, k) == None
    ensures forall j :: j != k ==> Lookup(r, j) == Lookup(d, j)
  {
    if d == [] then []
    else if d[0].0 == k then
      assert k !in Keys(d[1..]);
      LookupKeys(d[1..], k);
      d[1..]
    else
      var rest := Remove(d[1..], k);
      assert d[0].0 !in Keys(d[1..]);
      assert Keys([d[0]] + rest) == [d[0].0] + Keys(rest);
      [d[0]] + rest
  }

  lemma {:induction false} PutKeepsUnique<V>(d: Dict<V>, k: string, v: V)
    requires UniqueKeys(d)
    ensures UniqueKeys(Put(d, k, v))
  {
    var r := Put(d, k, v);
    PutKeys(d, k, v);
    forall i, j | 0 <= i < j < |r| ensures r[i].0 != r[j].0 {
      assert Keys(r)[i] == r[i].0 && Keys(r)[j] == r[j].0;
      if k in Keys(d) {
        assert Keys(d)[i] != Keys(d)[j];
      } else if j < |d| {
        assert Keys(d)[i] != Keys(d)[j];
      } else {
        assert r[j].0 == k && Keys(d)[i] == r[i].0;
      }
    }
  }

  /** The pairs written one after the other with Put, as a loop over them does. */
  function PutAll<V>(d: Dict<V>, pairs: seq<(string, V)>): Dict<V>
    decreases |pairs|
  {
    if pairs == [] then d else PutAll(Put(d, pairs[0].0, pairs[0].1), pairs[1..])
  }

  /** The value of the last pair with key `k`: a reference definition independent of Put. */
  function LastValue<V>(pairs: seq<(string, V)>, k: string): Option<V>
    decreases |pairs|
  {
    if pairs == [] then None
    else if pairs[|pairs| - 1].0 == k then Some(pairs[|pairs| - 1].1)
    else LastValue(pairs[..|pairs| - 1], k)
  }

  lemma {:induction false} PutAllSnoc<V>(d: Dict<V>, pairs: seq<(string, V)>, k: string, v: V)
    ensures PutAll(d, pairs + [(k, v)]) == Put(PutAll(d, pairs), k, v)
    decreases |pairs|
  {
    if pairs == [] {
      assert [] + [(k, v)] == [(k, v)];
    } else {
      assert (pairs + [(k, v)])[1..] == pairs[1..] + [(k, v)];
      PutAllSnoc(Put(d, pairs[0].0, pairs[0].1), pairs[1..], k, v);
    }
  }

  /**
    * Writing pairs in order leaves, under each key, the value of the LAST pair
    * with that key; keys no pair mentions keep their old value.
    */
  lemma {:induction false} LastWins<V>(d: Dict<V>, pairs: seq<(string, V)>, k: string)
    ensures Lookup(PutAll(d, pairs), k) ==
            (if LastValue(pairs, k).Some? then LastValue(pairs, k) else Lookup(d, k))
    decreases |pairs|
  {
    if pairs != [] {
      var n := |pairs| - 1;
      assert pairs == pairs[..n] + [pairs[n]];
      PutAllSnoc(d, pairs[..n], pairs[n].0, pairs[n].1);
      LastWins(d, pairs[..n], k);
    }
  }

  lemma {:induction false} PutAllKeepsUnique<V>(d: Dict<V>, pairs: seq<(string, V)>)
    requires UniqueKeys(d)
    ensures UniqueKeys(PutAll(d, pairs))
    decreases |pairs|
  {
    if pairs != [] {
      PutKeepsUnique(d, pairs[0].0, pairs[0].1);
      PutAllKeepsUnique(Put(d, pairs[0].0, pairs[0].1), pairs[1..]);
    }
  }

  lemma {:induction false} LastValueSome<V>(pairs: seq<(string, V)>, k: string)
    ensures LastValue(pairs, k).Some? <==> exists i :: 0 <= i < |pairs| && pairs[i].0 == k
    decreases |pairs|
  {
    if pairs != [] {
      var n := |pairs| - 1;
      LastValueSome(pairs[..n], k);
      if pairs[n].0 != k {
        forall i | 0 <= i < |pairs| && pairs[i].0 == k ensures i < n && pairs[..n][i].0 == k { }
      }
    }
  }

  /** With distinct keys, the entry at position `i` is what its key looks up. */
  lemma {:induction false} LookupAt<V>(d: Dict<V>, i: nat)
    requires UniqueKeys(d) && i < |d|
    ensures Lookup(d, d[i].0) == Some(d[i].1)
    decreases i
  {
    if i > 0 {
      assert d[0].0 != d[i].0;
      assert d[1..][i - 1] == d[i];
      LookupAt(d[1..], i - 1);
    }
  }
}
