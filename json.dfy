/**
 * An abstract JSON document, the shape of every state document the server passes
 * around, with the dictionary operations the source performs on decoded objects
 * (`obj[k]`, `del obj[k]`, `obj[k] = v`). Objects keep their members in insertion
 * order, as Python dictionaries do.
 */
module Json {
  import opened Wrappers

  datatype Json =
    | JNull
    | JBool(b: bool)
    | JInt(i: int)
    | JStr(s: string)
    | JArr(items: seq<Json>)
    | JObj(members: seq<Member>)

  datatype Member = Member(key: string, value: Json)

  /** The members of a decoded JSON object, in insertion order. */
  type Dict = seq<Member>

  /** A well-formed dictionary: no key occurs twice. */
  predicate IsDict(d: Dict)
  {
    d == [] || (d[0].key !in Keys(d[1..]) && IsDict(d[1..]))
  }

  /** The keys of `d`, in order. */
  function Keys(d: Dict): (r: seq<string>)
    ensures |r| == |d| && forall i :: 0 <= i < |d| ==> r[i] == d[i].key
  {
    if d == [] then [] else [d[0].key] + Keys(d[1..])
  }

  predicate HasKey(d: Dict, k: string)
  {
    k in Keys(d)
  }

  /** `d.get(k)`: the value stored under `k`, if any. */
  function Get(d: Dict, k: string): (r: Option<Json>)
    ensures r.Some? <==> HasKey(d, k)
  {
    if d == [] then None
    else if d[0].key == k then Some(d[0].value)
    else
      assert Keys(d) == [d[0].key] + Keys(d[1..]);
      Get(d[1..], k)
  }

  /** In a dictionary, the value stored under a key is the one `Get` returns. */
  lemma GetAt(d: Dict, i: nat)
    requires IsDict(d) && i < |d|
    ensures Get(d, d[i].key) == Some(d[i].value)
  {
    if i > 0 {
      GetAt(d[1..], i - 1);
    }
  }

  /** `del d[k]` (every member with key `k` is dropped; order is kept). */
  function Remove(d: Dict, k: string): (r: Dict)
    ensures |r| <= |d|
  {
    if d == [] then []
    else if d[0].key == k then Remove(d[1..], k)
    else [d[0]] + Remove(d[1..], k)
  }

  /** Deleting a key: it is gone, every other key keeps its value, nothing is invented, keys stay distinct. */
  lemma {:induction false} RemoveSpec(d: Dict, k: string)
    ensures forall k' :: HasKey(Remove(d, k), k') <==> HasKey(d, k') && k' != k
    ensures forall k' :: k' != k ==> Get(Remove(d, k), k') == Get(d, k')
    ensures forall m :: m in Remove(d, k) ==> m in d
    ensures IsDict(d) ==> IsDict(Remove(d, k))
  {
    if d != [] {
      var rest := Remove(d[1..], k);
      RemoveSpec(d[1..], k);
      assert Keys(d) == [d[0].key] + Keys(d[1..]);
      if d[0].key != k {
        var r := [d[0]] + rest;
        assert r[1..] == rest;
        assert Keys(r) == [d[0].key] + Keys(rest);
        forall k' ensures HasKey(r, k') <==> HasKey(d, k') && k' != k {
          assert HasKey(rest, k') <==> HasKey(d[1..], k') && k' != k;
        }
        assert HasKey(rest, d[0].key) ==> HasKey(d[1..], d[0].key);
      }
    }
  }

  lemma {:induction false} RemoveAbsent(d: Dict, k: string)
    requires !HasKey(d, k)
    ensures Remove(d, k) == d
  {
    if d != [] {
      assert Keys(d) == [d[0].key] + Keys(d[1..]);
      RemoveAbsent(d[1..], k);
    }
  }

  /** `d[k] = v`: overwrite the value in place when `k` is present, otherwise append. */
  function Set(d: Dict, k: string, v: Json): (r: Dict)
    ensures |r| >= |d|
  {
    if d == [] then [Member(k, v)]
    else if d[0].key == k then [Member(k, v)] + d[1..]
    else [d[0]] + Set(d[1..], k, v)
  }

  /** Storing under a key: it now holds the value, every other key keeps its value, keys stay distinct. */
  lemma {:induction false} SetSpec(d: Dict, k: string, v: Json)
    ensures forall k' :: HasKey(Set(d, k, v), k') <==> HasKey(d, k') || k' == k
    ensures forall k' :: Get(Set(d, k, v), k') == if k' == k then Some(v) else Get(d, k')
    ensures IsDict(d) ==> IsDict(Set(d, k, v))
  {
    if d == [] {
      assert Keys([Member(k, v)]) == [k];
    } else {
      var rest := Set(d[1..], k, v);
      SetSpec(d[1..], k, v);
      assert Keys(d) == [d[0].key] + Keys(d[1..]);
      if d[0].key == k {
        var r := [Member(k, v)] + d[1..];
        assert r[1..] == d[1..];
        assert Keys(r) == [k] + Keys(d[1..]);
      } else {
        var r := [d[0]] + rest;
        assert r[1..] == rest;
        assert Keys(r) == [d[0].key] + Keys(rest);
        forall k' ensures HasKey(r, k') <==> HasKey(d, k') || k' == k {
          assert HasKey(rest, k') <==> HasKey(d[1..], k') || k' == k;
        }
        assert HasKey(rest, d[0].key) ==> HasKey(d[1..], d[0].key);
      }
    }
  }

  /** Python truthiness of a decoded value (`x or default`). */
  predicate Truthy(j: Json)
  {
    match j
    case JNull => false
    case JBool(b) => b
    case JInt(i) => i != 0
    case JStr(s) => s != ""
    case JArr(items) => items != []
    case JObj(members) => members != []
  }

  /**
   * The JSON library (`json.dumps`, `json.loads`), which is not modelled: any
   * serialiser and any partial parser (an `Err` is a `JSONDecodeError` and its message).
   */
  datatype Codec = Codec(dumps: Json -> string, loads: string -> Result<Json>)
}
