/**
  The values a Django view hands to `JsonResponse`: Python numbers, strings,
  lists and dictionaries. A dictionary keeps its keys in insertion order, as
  Python's `dict` does, so an object is a sequence of (key, value) pairs.
 */
module Json {
  import opened Wrappers

  datatype Value =
    | Integer(i: int)
    | Number(r: real)
    | Str(s: string)
    | Array(items: seq<Value>)
    | Object(fields: seq<(string, Value)>)

  /** The keys of a dictionary, in insertion order. */
  function Keys(fields: seq<(string, Value)>): (ks: seq<string>)
  {
    seq(|fields|, i requires 0 <= i < |fields| => fields[i].0)
  }

  /** Dictionary lookup `d.get(key)`: the value stored under the first occurrence of `key`. */
  function Get(fields: seq<(string, Value)>, key: string): (r: Option<Value>)
    ensures r.None? <==> (forall i :: 0 <= i < |fields| ==> fields[i].0 != key)
    ensures r.Some? ==> exists i :: 0 <= i < |fields| && fields[i] == (key, r.value) &&
                                    forall j :: 0 <= j < i ==> fields[j].0 != key
    decreases |fields|
  {
    if fields == [] then None
    else if fields[0].0 == key then Some(fields[0].1)
    else
      var r := Get(fields[1..], key);
      assert forall i :: 1 <= i < |fields| ==> fields[i] == fields[1..][i - 1];
      r
  }

  /** No key occurs twice, as in any Python dictionary. */
  predicate DistinctKeys(fields: seq<(string, Value)>)
  {
    forall j, k :: 0 <= j < k < |fields| ==> fields[j].0 != fields[k].0
  }

  /** In a dictionary whose keys are distinct, looking up the key at position i yields the value at position i. */
  lemma {:induction false} GetAt(fields: seq<(string, Value)>, i: nat)
    requires DistinctKeys(fields)
    requires i < |fields|
    ensures Get(fields, fields[i].0) == Some(fields[i].1)
  {
    if i > 0 {
      assert fields[0].0 != fields[i].0;
      assert fields[1..][i - 1] == fields[i];
      GetAt(fields[1..], i - 1);
    }
  }

  /** `v.get(key)` on a dictionary; `None` when `v` is not a dictionary or lacks the key. */
  function Field(v: Value, key: string): (r: Option<Value>)
  {
    if v.Object? then Get(v.fields, key) else None
  }
}
