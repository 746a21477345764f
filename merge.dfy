/**
  * `merge(object1, object2)`: the own keys of the second object are copied
  * onto the first, skipping the empty key.
  */
module Objects {
  import opened Base
  import opened Text

  /**
    * `Object.keys(v)` paired with the values: an object's fields, a Success
    * or Error record's four fields, the indices of an array or a string;
    * none for `null` and `undefined`, where `Object.keys` throws.
    */
  function OwnEntries(v: Value): Option<Dict<Value>> {
    match v
    case Undefined => None
    case Null => None
    case Obj(fields) => Some(fields)
    case Payload(c, st, ok, tr) => Some([("content", c), ("status", st), ("success", Bool(ok)), ("transform", tr)])
    case Arr(items) => Some(seq(|items|, i requires 0 <= i < |items| => (NatToString(i), items[i])))
    case Str(s) => Some(seq(|s|, i requires 0 <= i < |s| => (NatToString(i), Str([s[i]]))))
    case _ => Some([])
  }

  /** The assignments `merge` performs: each non-empty key of `source`, with the value the key reads there. */
  function Copies(source: Dict<Value>, n: nat): (r: Dict<Value>)
    requires n <= |source|
  {
    if n == 0 then []
    else
      var key := source[n - 1].0;
      if key == "" then Copies(source, n - 1)
      else Copies(source, n - 1) + [(key, Lookup(source, key).GetOr(Undefined))]
  }

  /** `merge(object1, object2)` over the object's entries. */
  method Merge(object1: Dict<Value>, object2: Dict<Value>) returns (r: Dict<Value>)
    ensures r == PutAll(object1, Copies(object2, |object2|))
  {
    r := object1;
    var i := 0;
    while i < |object2|
      invariant i <= |object2|
      invariant r == PutAll(object1, Copies(object2, i))
    {
      var key := object2[i].0;
      if key != "" {
        LookupKeys(object2, key);
        PutAllSnoc(object1, Copies(object2, i), key, Lookup(object2, key).GetOr(Undefined));
        r := Put(r, key, Lookup(object2, key).GetOr(Undefined));
      }
      i := i + 1;
    }
  }

  /** Every copy carries what its key reads in the source, and the copied keys are exactly the non-empty ones. */
  lemma {:induction false} CopiesFacts(source: Dict<Value>, n: nat, k: string)
    requires n <= |source|
    ensures LastValue(Copies(source, n), k).Some? ==> LastValue(Copies(source, n), k) == Some(Lookup(source, k).GetOr(Undefined))
    ensures LastValue(Copies(source, n), k).Some? <==> k != "" && exists i :: 0 <= i < n && source[i].0 == k
    decreases n
  {
    if n > 0 {
      CopiesFacts(source, n - 1, k);
    }
  }

  /**
    * After the merge, every non-empty key of the source reads the source's
    * value; every other key (the empty one included) reads what it read in
    * the target.
    */
  lemma MergeReads(object1: Dict<Value>, object2: Dict<Value>, k: string)
    ensures Lookup(PutAll(object1, Copies(object2, |object2|)), k) ==
            if k != "" && Lookup(object2, k).Some? then Lookup(object2, k) else Lookup(object1, k)
  {
    LastWins(object1, Copies(object2, |object2|), k);
    CopiesFacts(object2, |object2|, k);
    LookupKeys(object2, k);
    if k in Keys(object2) {
      var i :| 0 <= i < |object2| && Keys(object2)[i] == k;
      assert object2[i].0 == k;
    }
  }
}
