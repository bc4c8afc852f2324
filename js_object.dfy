/**
 * A JavaScript plain object as the survey application uses it: an ordered list of
 * string-keyed properties. Reading a missing property gives `undefined` (`None`);
 * assigning an existing property replaces its value in place, assigning a new one
 * appends it, so `Object.keys`/`Object.entries` enumerate in insertion order.
 */
module JsObject {
  import opened Wrappers

  datatype Field<V> = Field(key: string, value: V)

  type Obj<V> = seq<Field<V>>

  /** `Object.keys(o)`. */
  function Keys<V>(o: Obj<V>): (ks: seq<string>)
    ensures |ks| == |o|
    ensures forall i :: 0 <= i < |o| ==> ks[i] == o[i].key
  {
    if o == [] then [] else [o[0].key] + Keys(o[1..])
  }

  /** `Object.values(o)`. */
  function Values<V>(o: Obj<V>): (vs: seq<V>)
    ensures |vs| == |o|
    ensures forall i :: 0 <= i < |o| ==> vs[i] == o[i].value
  {
    if o == [] then [] else [o[0].value] + Values(o[1..])
  }

  /** Every JavaScript object has pairwise different keys. */
  predicate DistinctKeys<V>(o: Obj<V>)
  {
    forall i, j :: 0 <= i < j < |o| ==> o[i].key != o[j].key
  }

  /** `o[k]`. */
  function Get<V>(o: Obj<V>, k: string): Option<V>
  {
    if o == [] then None
    else if o[0].key == k then Some(o[0].value)
    else Get(o[1..], k)
  }

  lemma {:induction false} GetNone<V>(o: Obj<V>, k: string)
    ensures Get(o, k).None? <==> k !in Keys(o)
  {
    if o != [] {
      GetNone(o[1..], k);
      assert Keys(o) == [o[0].key] + Keys(o[1..]);
    }
  }

  lemma {:induction false} GetAt<V>(o: Obj<V>, i: nat)
    requires DistinctKeys(o) && i < |o|
    ensures Get(o, o[i].key) == Some(o[i].value)
  {
    if i > 0 {
      GetAt(o[1..], i - 1);
    }
  }

  lemma {:induction false} GetAppend<V>(o: Obj<V>, f: Field<V>, k: string)
    ensures Get(o + [f], k) == if k in Keys(o) then Get(o, k) else if f.key == k then Some(f.value) else None
  {
    GetNone(o, k);
    if o != [] {
      assert (o + [f])[1..] == o[1..] + [f];
      GetAppend(o[1..], f, k);
      assert Keys(o) == [o[0].key] + Keys(o[1..]);
    }
  }

  /** `o[k] = v`. */
  function Set<V>(o: Obj<V>, k: string, v: V): (r: Obj<V>)
    ensures Get(r, k) == Some(v)
    ensures forall k' :: k' != k ==> Get(r, k') == Get(o, k')
    ensures k in Keys(o) ==> Keys(r) == Keys(o)
    ensures k !in Keys(o) ==> r == o + [Field(k, v)]
    ensures DistinctKeys(o) ==> DistinctKeys(r)
  {
    if o == [] then [Field(k, v)]
    else if o[0].key == k then [Field(k, v)] + o[1..]
    else
      var rest := Set(o[1..], k, v);
      assert Keys(o) == [o[0].key] + Keys(o[1..]);
      assert DistinctKeys(o) ==> o[0].key !in Keys(o[1..]);
      [o[0]] + rest
  }

  /** Assigns the fields of `src` to `o` one after the other: `{...o, ...src}`. */
  function Assign<V>(o: Obj<V>, src: seq<Field<V>>): Obj<V>
  {
    if src == [] then o
    else
      var last := src[|src| - 1];
      Set(Assign(o, src[..|src| - 1]), last.key, last.value)
  }

  /** Assigning one more field is one more `Set`. */
  lemma AssignSnoc<V>(o: Obj<V>, src: seq<Field<V>>, f: Field<V>)
    ensures Assign(o, src + [f]) == Set(Assign(o, src), f.key, f.value)
  {
    assert (src + [f])[..|src|] == src;
  }

  /** Assigning fields whose keys are all new appends them in order. */
  lemma {:induction false} AssignNewKeys<V>(o: Obj<V>, src: seq<Field<V>>)
    requires DistinctKeys(o + src)
    ensures Assign(o, src) == o + src
  {
    if src != [] {
      var init := src[..|src| - 1];
      var last := src[|src| - 1];
      assert o + src == (o + init) + [last];
      assert DistinctKeys(o + init) by {
        forall i, j | 0 <= i < j < |o + init| ensures (o + init)[i].key != (o + init)[j].key {
          assert (o + init)[i] == (o + src)[i] && (o + init)[j] == (o + src)[j];
        }
      }
      AssignNewKeys(o, init);
      assert last.key !in Keys(o + init) by {
        forall i | 0 <= i < |o + init| ensures (o + init)[i].key != last.key {
          assert (o + init)[i] == (o + src)[i] && last == (o + src)[|o + src| - 1];
        }
      }
    }
  }

  /** The value of the last field of `src` with key `k`. */
  function LastValue<V>(src: seq<Field<V>>, k: string): Option<V>
  {
    if src == [] then None
    else if src[|src| - 1].key == k then Some(src[|src| - 1].value)
    else LastValue(src[..|src| - 1], k)
  }

  /** When fields are assigned one after the other, the last assignment to a key wins. */
  lemma {:induction false} AssignGet<V>(o: Obj<V>, src: seq<Field<V>>, k: string)
    ensures Get(Assign(o, src), k) == if LastValue(src, k).Some? then LastValue(src, k) else Get(o, k)
  {
    if src != [] {
      AssignGet(o, src[..|src| - 1], k);
    }
  }

  lemma {:induction false} LastValueNone<V>(src: seq<Field<V>>, k: string)
    ensures LastValue(src, k).None? <==> k !in Keys(src)
  {
    if src != [] {
      var init := src[..|src| - 1];
      LastValueNone(init, k);
      assert Keys(src) == Keys(init) + [src[|src| - 1].key];
    }
  }

  lemma {:induction false} LastValueDistinct<V>(src: seq<Field<V>>, i: nat)
    requires DistinctKeys(src) && i < |src|
    ensures LastValue(src, src[i].key) == Some(src[i].value)
  {
    if i < |src| - 1 {
      LastValueDistinct(src[..|src| - 1], i);
    }
  }

  /** On an object, the last and the first field with a key are the same field. */
  lemma LastValueGet<V>(o: Obj<V>, k: string)
    requires DistinctKeys(o)
    ensures LastValue(o, k) == Get(o, k)
  {
    LastValueNone(o, k);
    GetNone(o, k);
    if k in Keys(o) {
      var i :| 0 <= i < |o| && Keys(o)[i] == k;
      GetAt(o, i);
      LastValueDistinct(o, i);
    }
  }

  /** Assignment keeps the existing keys in place and their order; new keys go after them. */
  lemma {:induction false} AssignKeepsKeys<V>(o: Obj<V>, src: seq<Field<V>>)
    ensures |Assign(o, src)| >= |o|
    ensures forall i :: 0 <= i < |o| ==> Assign(o, src)[i].key == o[i].key
  {
    if src != [] {
      var init := src[..|src| - 1];
      var last := src[|src| - 1];
      AssignKeepsKeys(o, init);
      var before := Assign(o, init);
      if last.key in Keys(before) {
        assert Keys(Set(before, last.key, last.value)) == Keys(before);
        assert forall i :: 0 <= i < |before| ==> Keys(before)[i] == before[i].key;
      }
    }
  }

  /** Assignment keeps the keys of an object distinct. */
  lemma {:induction false} AssignDistinct<V>(o: Obj<V>, src: seq<Field<V>>)
    requires DistinctKeys(o)
    ensures DistinctKeys(Assign(o, src))
  {
    if src != [] {
      AssignDistinct(o, src[..|src| - 1]);
    }
  }

  /** Sum of the values of an object of counters. */
  function SumValues(o: Obj<nat>): nat
  {
    if o == [] then 0 else o[0].value + SumValues(o[1..])
  }

  /** `o[k] = (o[k] || 0) + 1`. */
  function Increment(o: Obj<nat>, k: string): Obj<nat>
  {
    var n: nat := Get(o, k).GetOr(0) + 1;
    Set(o, k, n)
  }

  /** Incrementing one counter adds exactly one to the sum of the counters. */
  lemma {:induction false} IncrementSum(o: Obj<nat>, k: string)
    ensures SumValues(Increment(o, k)) == SumValues(o) + 1
  {
    if o != [] && o[0].key != k {
      var n: nat := Get(o, k).GetOr(0) + 1;
      assert Get(o, k) == Get(o[1..], k);
      var tail := Set(o[1..], k, n);
      assert Increment(o, k) == [o[0]] + tail;
      assert ([o[0]] + tail)[1..] == tail;
      IncrementSum(o[1..], k);
    }
  }
}
