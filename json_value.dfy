/**
 * JSON documents as the OpenAPI rewriter sees them after `JSON.parse`: a tree with no
 * sharing, whose objects keep their keys in insertion order.
 */
module JsonValue {
  import opened Wrappers
  import Strings

  /** A field of a JSON object: its key and its value. */
  type Field = (string, Json)

  datatype Json =
    | JNull
    | JBool(b: bool)
    | JNum(n: real)
    | JStr(s: string)
    | JArr(items: seq<Json>)
    | JObj(fields: seq<Field>)

  /** JavaScript truthiness: `null`, `false`, `0` and `""` are falsy, everything else is truthy. */
  predicate Truthy(j: Json) {
    match j
    case JNull => false
    case JBool(b) => b
    case JNum(n) => n != 0.0
    case JStr(s) => s != ""
    case _ => true
  }

  /** The keys of an object, in order. */
  function KeyList(fields: seq<Field>): (ks: seq<string>)
    ensures |ks| == |fields|
    ensures forall k :: 0 <= k < |fields| ==> ks[k] == fields[k].0
  {
    if |fields| == 0 then [] else [fields[0].0] + KeyList(fields[1..])
  }

  /** `obj[key]`: the value stored under `key`, if any. */
  function Get(fields: seq<Field>, key: string): (r: Option<Json>)
    ensures r.None? <==> key !in KeyList(fields)
    ensures r.Some? ==> (key, r.value) in fields
  {
    if |fields| == 0 then None
    else if fields[0].0 == key then Some(fields[0].1)
    else Get(fields[1..], key)
  }

  /** `obj[key] = value`: replaces the value in place when the key is present, appends otherwise. */
  function Put(fields: seq<Field>, key: string, value: Json): (r: seq<Field>)
    ensures Get(r, key) == Some(value)
    ensures KeyList(r) == if key in KeyList(fields) then KeyList(fields) else KeyList(fields) + [key]
  {
    if |fields| == 0 then [(key, value)]
    else if fields[0].0 == key then
      var r := [(key, value)] + fields[1..];
      PutFront(fields, key, value);
      r
    else
      var rest := Put(fields[1..], key, value);
      PutBehind(fields, key, value, rest);
      [fields[0]] + rest
  }

  lemma PutFront(fields: seq<Field>, key: string, value: Json)
    requires |fields| > 0 && fields[0].0 == key
    ensures Get([(key, value)] + fields[1..], key) == Some(value)
    ensures KeyList([(key, value)] + fields[1..]) == KeyList(fields)
  {
    var r := [(key, value)] + fields[1..];
    assert r[0] == (key, value);
  }

  lemma PutBehind(fields: seq<Field>, key: string, value: Json, rest: seq<Field>)
    requires |fields| > 0 && fields[0].0 != key
    requires Get(rest, key) == Some(value)
    requires KeyList(rest) == if key in KeyList(fields[1..]) then KeyList(fields[1..]) else KeyList(fields[1..]) + [key]
    ensures Get([fields[0]] + rest, key) == Some(value)
    ensures KeyList([fields[0]] + rest) == if key in KeyList(fields) then KeyList(fields) else KeyList(fields) + [key]
  {
    var r := [fields[0]] + rest;
    assert r[1..] == rest;
    assert KeyList(r) == [fields[0].0] + KeyList(rest);
    assert KeyList(fields) == [fields[0].0] + KeyList(fields[1..]);
    assert key in KeyList(fields) <==> key in KeyList(fields[1..]);
    if key !in KeyList(fields) {
      assert [fields[0].0] + (KeyList(fields[1..]) + [key]) == ([fields[0].0] + KeyList(fields[1..])) + [key];
    }
  }

  /** Putting one key leaves every other key's value alone. */
  lemma {:induction false} PutOther(fields: seq<Field>, key: string, value: Json, other: string)
    requires other != key
    ensures Get(Put(fields, key, value), other) == Get(fields, other)
  {
    if |fields| > 0 && fields[0].0 != key {
      PutOther(fields[1..], key, value, other);
    }
  }

  /** The object built by `obj[key] = value` for each pair in turn, starting from `{}`. */
  function PutAll(pairs: seq<Field>): seq<Field> {
    if |pairs| == 0 then []
    else Put(PutAll(pairs[..|pairs| - 1]), pairs[|pairs| - 1].0, pairs[|pairs| - 1].1)
  }

  /** The value of the last pair with key `key`: the assignment that is not overwritten later. */
  function LastValue(pairs: seq<Field>, key: string): (r: Option<Json>)
    ensures r.None? <==> forall i :: 0 <= i < |pairs| ==> pairs[i].0 != key
  {
    if |pairs| == 0 then None
    else if pairs[|pairs| - 1].0 == key then Some(pairs[|pairs| - 1].1)
    else
      var init := pairs[..|pairs| - 1];
      assert forall i :: 0 <= i < |pairs| - 1 ==> init[i] == pairs[i];
      LastValue(init, key)
  }

  /** A value found is that of a pair with the key, and no later pair has the key. */
  lemma {:induction false} LastValueIsLast(pairs: seq<Field>, key: string) returns (i: nat)
    requires LastValue(pairs, key).Some?
    ensures i < |pairs| && pairs[i] == (key, LastValue(pairs, key).value)
    ensures forall j :: i < j < |pairs| ==> pairs[j].0 != key
  {
    var last := |pairs| - 1;
    if pairs[last].0 == key {
      i := last;
    } else {
      var init := pairs[..last];
      i := LastValueIsLast(init, key);
      assert pairs[i] == init[i];
    }
  }

  /** In the built object, each key holds the value of its last assignment. */
  lemma {:induction false} GetPutAll(pairs: seq<Field>, key: string)
    ensures Get(PutAll(pairs), key) == LastValue(pairs, key)
  {
    if |pairs| > 0 {
      var init := pairs[..|pairs| - 1];
      GetPutAll(init, key);
      if pairs[|pairs| - 1].0 != key {
        PutOther(PutAll(init), pairs[|pairs| - 1].0, pairs[|pairs| - 1].1, key);
      }
    }
  }

  /** `KeyList` without repetitions: an object never holds a key twice. */
  predicate DistinctKeys(fields: seq<Field>) {
    forall i, j :: 0 <= i < j < |fields| ==> fields[i].0 != fields[j].0
  }

  /** The built object has each assigned key exactly once. */
  lemma {:induction false} PutAllDistinct(pairs: seq<Field>)
    ensures DistinctKeys(PutAll(pairs))
  {
    if |pairs| > 0 {
      PutAllDistinct(pairs[..|pairs| - 1]);
      PutKeepsDistinct(PutAll(pairs[..|pairs| - 1]), pairs[|pairs| - 1].0, pairs[|pairs| - 1].1);
    }
  }

  /** Assigning a key keeps the keys distinct. */
  lemma PutKeepsDistinct(fields: seq<Field>, key: string, value: Json)
    requires DistinctKeys(fields)
    ensures DistinctKeys(Put(fields, key, value))
  {
    var r := Put(fields, key, value);
    var ks := KeyList(r);
    var old_ks := KeyList(fields);
    if key in old_ks {
      assert ks == old_ks;
      forall i, j | 0 <= i < j < |r| ensures r[i].0 != r[j].0 {
        assert r[i].0 == ks[i] == fields[i].0;
        assert r[j].0 == ks[j] == fields[j].0;
      }
    } else {
      assert ks == old_ks + [key];
      forall i, j | 0 <= i < j < |r| ensures r[i].0 != r[j].0 {
        assert r[i].0 == ks[i] == old_ks[i];
        assert r[j].0 == ks[j];
        if j == |fields| {
          assert ks[j] == key;
        } else {
          assert ks[j] == old_ks[j];
        }
      }
    }
  }

  /** Assigning a key the object does not hold appends it. */
  lemma {:induction false} PutAbsent(fields: seq<Field>, key: string, value: Json)
    requires forall i :: 0 <= i < |fields| ==> fields[i].0 != key
    ensures Put(fields, key, value) == fields + [(key, value)]
  {
    if |fields| > 0 {
      AbsentFromTail(fields, key);
      PutAbsent(fields[1..], key, value);
      PutSkips(fields, key, value);
      ConsAppend(fields, (key, value));
    }
  }

  lemma AbsentFromTail(fields: seq<Field>, key: string)
    requires |fields| > 0 && forall i :: 0 <= i < |fields| ==> fields[i].0 != key
    ensures fields[0].0 != key
    ensures forall i :: 0 <= i < |fields| - 1 ==> fields[1..][i].0 != key
  {
    forall i | 0 <= i < |fields| - 1 ensures fields[1..][i].0 != key {
      assert fields[1..][i] == fields[i + 1];
    }
  }

  lemma ConsAppend<T>(s: seq<T>, x: T)
    requires |s| > 0
    ensures [s[0]] + (s[1..] + [x]) == s + [x]
  {
  }

  /** Past a different key, `Put` leaves the first entry and assigns in the rest. */
  lemma PutSkips(fields: seq<Field>, key: string, value: Json)
    requires |fields| > 0 && fields[0].0 != key
    ensures Put(fields, key, value) == [fields[0]] + Put(fields[1..], key, value)
  {
  }

  /** Assignments to distinct keys build the object that lists them in order. */
  lemma {:induction false} PutAllOfDistinct(pairs: seq<Field>)
    requires DistinctKeys(pairs)
    ensures PutAll(pairs) == pairs
  {
    if |pairs| > 0 {
      var init := pairs[..|pairs| - 1];
      var last := pairs[|pairs| - 1];
      DistinctKeysOfInit(pairs, init, last);
      PutAllOfDistinct(init);
      PutAbsent(init, last.0, last.1);
      PutAllLast(pairs);
      InitAppendLast(pairs);
    }
  }

  /** `PutAll` applies the last assignment after all the others. */
  lemma PutAllLast(pairs: seq<Field>)
    requires |pairs| > 0
    ensures PutAll(pairs) == Put(PutAll(pairs[..|pairs| - 1]), pairs[|pairs| - 1].0, pairs[|pairs| - 1].1)
  {
  }

  lemma InitAppendLast<T>(s: seq<T>)
    requires |s| > 0
    ensures s[..|s| - 1] + [s[|s| - 1]] == s
  {
  }

  /** Without its last entry, an object with distinct keys still has them, and lacks the last key. */
  lemma DistinctKeysOfInit(pairs: seq<Field>, init: seq<Field>, last: Field)
    requires DistinctKeys(pairs) && |pairs| > 0
    requires init == pairs[..|pairs| - 1] && last == pairs[|pairs| - 1]
    ensures DistinctKeys(init)
    ensures forall i :: 0 <= i < |init| ==> init[i].0 != last.0
  {
    forall i, j | 0 <= i < j < |init| ensures init[i].0 != init[j].0 {
      assert init[i] == pairs[i] && init[j] == pairs[j];
    }
  }

  /** The string form of an array index, as `Object.keys` gives it. */
  function IndexKey(i: nat): string {
    Strings.NatToString(i)
  }

  /** The index/element pairs of an array. */
  function ArrayEntries(items: seq<Json>): (r: seq<Field>)
    ensures |r| == |items| && forall i :: 0 <= i < |r| ==> r[i] == (IndexKey(i), items[i])
  {
    if |items| == 0 then []
    else ArrayEntries(items[..|items| - 1]) + [(IndexKey(|items| - 1), items[|items| - 1])]
  }

  /** The index/character pairs of a string, each character as a one-letter string. */
  function StringEntries(s: string): (r: seq<Field>)
    ensures |r| == |s| && forall i :: 0 <= i < |r| ==> r[i] == (IndexKey(i), JStr([s[i]]))
  {
    if |s| == 0 then []
    else StringEntries(s[..|s| - 1]) + [(IndexKey(|s| - 1), JStr([s[|s| - 1]]))]
  }

  /**
   * `Object.entries(j)` (and `Object.keys(j)` paired with `j[key]`) for a value that is not
   * `null`: an object's fields, an array's or a string's elements under their index, and
   * nothing for a number or a boolean.
   */
  function Entries(j: Json): (r: seq<Field>)
    requires !j.JNull?
    ensures j.JObj? ==> r == j.fields
    ensures j.JArr? ==> |r| == |j.items| && forall i :: 0 <= i < |r| ==> r[i] == (IndexKey(i), j.items[i])
    ensures j.JStr? ==> |r| == |j.s| && forall i :: 0 <= i < |r| ==> r[i] == (IndexKey(i), JStr([j.s[i]]))
    ensures j.JNum? || j.JBool? ==> r == []
  {
    match j
    case JObj(fields) => fields
    case JArr(items) => ArrayEntries(items)
    case JStr(s) => StringEntries(s)
    case _ => []
  }

  /**
   * The TypeErrors that JavaScript throws on the rewriter's paths: reading a property of
   * `null`/`undefined`, `Object.entries`/`Object.keys` of `null`/`undefined`, the `in`
   * operator applied to a primitive, and calling `.includes` on a value that has none.
   */
  datatype JsError = ReadOfNullish | EntriesOfNullish | InOnPrimitive | NotAFunction
}
