/** A JavaScript object used as a dictionary: entries in the order their
  * keys were first assigned, `obj[key] = v` overwriting in place. */
module Objects {
  import opened Seqs

  datatype Entry<V> = Entry(key: string, value: V)

  function Keys<V>(m: seq<Entry<V>>): (r: seq<string>)
    ensures |r| == |m|
    ensures forall i :: 0 <= i < |m| ==> r[i] == m[i].key
  {
    seq(|m|, i requires 0 <= i < |m| => m[i].key)
  }

  /** No key occurs twice, as in any object. */
  predicate DistinctKeys<V>(m: seq<Entry<V>>) {
    forall i, j :: 0 <= i < j < |m| ==> m[i].key != m[j].key
  }

  /** `obj[key]`: the value of the first entry with that key, if any. */
  function Lookup<V>(m: seq<Entry<V>>, key: string): Option<V>
    decreases |m|
  {
    if m == [] then None
    else if m[0].key == key then Some(m[0].value)
    else Lookup(m[1..], key)
  }

  /** `obj[key] = value`. */
  function Put<V>(m: seq<Entry<V>>, key: string, value: V): seq<Entry<V>>
    decreases |m|
  {
    if m == [] then [Entry(key, value)]
    else if m[0].key == key then [Entry(key, value)] + m[1..]
    else [m[0]] + Put(m[1..], key, value)
  }

  /** A key is looked up when some entry has it. */
  lemma {:induction false} LookupSome<V>(m: seq<Entry<V>>, key: string)
    ensures Lookup(m, key).Some? <==> key in Keys(m)
    decreases |m|
  {
    if m != [] {
      LookupSome(m[1..], key);
      assert Keys(m) == [m[0].key] + Keys(m[1..]);
    }
  }

  /** With distinct keys, the entry at index i is what its key looks up. */
  lemma {:induction false} LookupAt<V>(m: seq<Entry<V>>, i: nat)
    requires DistinctKeys(m) && i < |m|
    ensures Lookup(m, m[i].key) == Some(m[i].value)
    decreases i
  {
    if i > 0 {
      assert m[1..][i - 1] == m[i];
      assert DistinctKeys(m[1..]);
      LookupAt(m[1..], i - 1);
    }
  }

  /** After `obj[key] = value` the key reads value, and every other key reads
    * what it read before. */
  lemma {:induction false} PutLookup<V>(m: seq<Entry<V>>, key: string, value: V, other: string)
    ensures Lookup(Put(m, key, value), key) == Some(value)
    ensures other != key ==> Lookup(Put(m, key, value), other) == Lookup(m, other)
    decreases |m|
  {
    if m != [] && m[0].key != key {
      PutLookup(m[1..], key, value, other);
    }
  }

  /** An assignment to a known key keeps the key order; a new key goes last. */
  lemma {:induction false} PutKeys<V>(m: seq<Entry<V>>, key: string, value: V)
    ensures Keys(Put(m, key, value)) == if key in Keys(m) then Keys(m) else Keys(m) + [key]
    decreases |m|
  {
    if m != [] {
      PutKeys(m[1..], key, value);
      assert Keys(m) == [m[0].key] + Keys(m[1..]);
      if m[0].key != key {
        assert Keys(Put(m, key, value)) == [m[0].key] + Keys(Put(m[1..], key, value));
      } else {
        assert Keys(Put(m, key, value)) == [key] + Keys(m[1..]);
      }
    }
  }

  lemma DistinctKeysOf<V>(m: seq<Entry<V>>)
    ensures DistinctKeys(m) <==> NoDuplicates(Keys(m))
  {
  }

  /** Assignment keeps the keys distinct. */
  lemma PutDistinct<V>(m: seq<Entry<V>>, key: string, value: V)
    requires DistinctKeys(m)
    ensures DistinctKeys(Put(m, key, value))
  {
    PutKeys(m, key, value);
    var k := Keys(m);
    if key !in k {
      var r := k + [key];
      forall i, j | 0 <= i < j < |r| ensures r[i] != r[j] {
        if j == |k| {
          assert r[i] == k[i];
        }
      }
    }
    DistinctKeysOf(Put(m, key, value));
  }

  /** An object literal `{k1: v1, k2: v2, ...}`: its entries assigned one after
    * another, so a key written twice keeps its first place and its last value. */
  function ObjectLiteral<V>(es: seq<Entry<V>>): seq<Entry<V>>
    decreases |es|
  {
    if es == [] then [] else Put(ObjectLiteral(es[..|es| - 1]), es[|es| - 1].key, es[|es| - 1].value)
  }

  /** The value last written for a key in a list of entries. */
  function LastWritten<V>(es: seq<Entry<V>>, key: string): Option<V>
    decreases |es|
  {
    if es == [] then None
    else if es[|es| - 1].key == key then Some(es[|es| - 1].value)
    else LastWritten(es[..|es| - 1], key)
  }

  /** Looking a key up in an object literal gives the last value written for it. */
  lemma {:induction false} ObjectLiteralLookup<V>(es: seq<Entry<V>>, key: string)
    ensures Lookup(ObjectLiteral(es), key) == LastWritten(es, key)
    decreases |es|
  {
    if es != [] {
      var last := es[|es| - 1];
      ObjectLiteralLookup(es[..|es| - 1], key);
      PutLookup(ObjectLiteral(es[..|es| - 1]), last.key, last.value, key);
    }
  }

  /** One step back through the entries of a literal. */
  lemma LastWrittenStep<V>(es: seq<Entry<V>>, n: nat, key: string)
    requires 0 < n <= |es|
    ensures LastWritten(es[..n], key) ==
      if es[n - 1].key == key then Some(es[n - 1].value) else LastWritten(es[..n - 1], key)
  {
    assert es[..n][..n - 1] == es[..n - 1];
  }

  /** A key never written reads nothing. */
  lemma {:induction false} LastWrittenNone<V>(es: seq<Entry<V>>, key: string)
    requires key !in Keys(es)
    ensures LastWritten(es, key) == None
    decreases |es|
  {
    if es != [] {
      assert Keys(es[..|es| - 1]) == Keys(es)[..|es| - 1];
      LastWrittenNone(es[..|es| - 1], key);
    }
  }

  /** What a key reads was written for it by some entry. */
  lemma {:induction false} LastWrittenSome<V>(es: seq<Entry<V>>, key: string)
    ensures LastWritten(es, key).Some? ==>
      exists i :: 0 <= i < |es| && es[i].key == key && es[i].value == LastWritten(es, key).value
    decreases |es|
  {
    if es != [] && es[|es| - 1].key != key {
      LastWrittenSome(es[..|es| - 1], key);
      if LastWritten(es, key).Some? {
        var i :| 0 <= i < |es| - 1 && es[..|es| - 1][i].key == key && es[..|es| - 1][i].value == LastWritten(es, key).value;
        assert es[i] == es[..|es| - 1][i];
      }
    }
  }
}
