/**
 * JSON values as the Django views see them after request parsing, and as they
 * hand them to the response renderer. A Python `dict` keeps insertion order, so
 * an object is an ordered sequence of members; lookups find the first member
 * with the key, which is the only one in a dict.
 */
module Json {
  import opened Wrappers

  datatype Json =
    | JNull
    | JBool(b: bool)
    | JInt(n: int)
    | JStr(s: string)
    | JArray(items: seq<Json>)
    | JObj(members: seq<(string, Json)>)

  type Members = seq<(string, Json)>

  /** The keys of a dict, in iteration order. */
  function Keys(ms: Members): seq<string>
  {
    if ms == [] then [] else [ms[0].0] + Keys(ms[1..])
  }

  /** `d.get(key)`: the value stored under `key`, or None when the key is absent. */
  function Get(ms: Members, key: string): (r: Option<Json>)
    ensures r.None? <==> key !in Keys(ms)
  {
    if ms == [] then None
    else if ms[0].0 == key then Some(ms[0].1)
    else Get(ms[1..], key)
  }

  /** `d[key] = value`: overwrite the member in place, or append a new one at the end. */
  function Put(ms: Members, key: string, value: Json): Members
  {
    if ms == [] then [(key, value)]
    else if ms[0].0 == key then [(key, value)] + ms[1..]
    else [ms[0]] + Put(ms[1..], key, value)
  }

  /** After `d[key] = value`, `key` reads `value`, every other key reads as before, and the key order is kept. */
  lemma {:induction false} PutSpec(ms: Members, key: string, value: Json, other: string)
    requires other != key
    ensures Get(Put(ms, key, value), key) == Some(value)
    ensures Get(Put(ms, key, value), other) == Get(ms, other)
    ensures key in Keys(ms) ==> Keys(Put(ms, key, value)) == Keys(ms)
    ensures key !in Keys(ms) ==> Keys(Put(ms, key, value)) == Keys(ms) + [key]
  {
    if ms != [] && ms[0].0 != key {
      PutSpec(ms[1..], key, value, other);
    }
  }

  /** Assigning a key the dict does not hold appends it at the end. */
  lemma {:induction false} PutNewKeyAppends(ms: Members, key: string, value: Json)
    requires key !in Keys(ms)
    ensures Put(ms, key, value) == ms + [(key, value)]
  {
    if ms != [] {
      PutNewKeyAppends(ms[1..], key, value);
      assert ms == [ms[0]] + ms[1..];
    }
  }

  /** The lookup finds the first member carrying the key. */
  lemma {:induction false} GetFirst(ms: Members, i: nat, key: string)
    requires i < |ms| && ms[i].0 == key
    requires forall j :: 0 <= j < i ==> ms[j].0 != key
    ensures Get(ms, key) == Some(ms[i].1)
  {
    if i > 0 {
      assert ms[0].0 != key;
      GetFirst(ms[1..], i - 1, key);
    }
  }

  lemma GetOfTwo(k1: string, v1: Json, k2: string, v2: Json, key: string)
    ensures Get([(k1, v1), (k2, v2)], key) ==
            if key == k1 then Some(v1) else if key == k2 then Some(v2) else None
    ensures Keys([(k1, v1), (k2, v2)]) == [k1, k2]
  {
    assert [(k1, v1), (k2, v2)][1..] == [(k2, v2)];
    assert [(k2, v2)][1..] == [];
  }

  lemma GetOfThree(k1: string, v1: Json, k2: string, v2: Json, k3: string, v3: Json, key: string)
    ensures Get([(k1, v1), (k2, v2), (k3, v3)], key) ==
            if key == k1 then Some(v1) else if key == k2 then Some(v2) else if key == k3 then Some(v3) else None
    ensures Keys([(k1, v1), (k2, v2), (k3, v3)]) == [k1, k2, k3]
  {
    assert [(k1, v1), (k2, v2), (k3, v3)][1..] == [(k2, v2), (k3, v3)];
    GetOfTwo(k2, v2, k3, v3, key);
  }

  /** Python's truth value of a JSON value (`bool(v)`). */
  predicate Truthy(v: Json)
  {
    match v
    case JNull => false
    case JBool(b) => b
    case JInt(n) => n != 0
    case JStr(s) => s != ""
    case JArray(xs) => xs != []
    case JObj(ms) => ms != []
  }

  /** `v or {}`: a falsy value is replaced by an empty dict. */
  function OrEmptyObject(v: Json): Json
  {
    if Truthy(v) then v else JObj([])
  }
}
