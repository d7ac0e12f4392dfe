/**
 * Insertion-ordered dictionaries with string keys, as a sequence of (key, value)
 * entries. They model both JavaScript plain objects (Object.entries order, property
 * assignment) and Python dicts (insertion order, `d[k] = v`, `d.update(other)`).
 */
module Dicts {
  import opened Wrappers

  type Entries<V> = seq<(string, V)>

  function Keys<V>(d: Entries<V>): (ks: seq<string>)
    ensures |ks| == |d|
    ensures forall i :: 0 <= i < |d| ==> ks[i] == d[i].0
  {
    seq(|d|, i requires 0 <= i < |d| => d[i].0)
  }

  predicate HasKey<V>(d: Entries<V>, k: string)
  {
    exists i :: 0 <= i < |d| && d[i].0 == k
  }

  /** No key occurs twice: true of every object and dict the program builds. */
  predicate DistinctKeys<V>(d: Entries<V>)
  {
    forall i, j :: 0 <= i < j < |d| ==> d[i].0 != d[j].0
  }

  /** Lookup of a key (`obj[k]` on an own property, `d.get(k)`). */
  function Get<V>(d: Entries<V>, k: string): (r: Option<V>)
    ensures r.None? <==> !HasKey(d, k)
    ensures r.Some? ==> (k, r.value) in d
  {
    if d == [] then None
    else if d[0].0 == k then Some(d[0].1)
    else
      assert forall i :: 1 <= i < |d| ==> d[i] == d[1..][i - 1];
      Get(d[1..], k)
  }

  /** In a dictionary without repeated keys, every entry is what lookup finds. */
  lemma {:induction false} GetEntry<V>(d: Entries<V>, i: nat)
    requires DistinctKeys(d) && i < |d|
    ensures Get(d, d[i].0) == Some(d[i].1)
  {
    if i > 0 {
      assert d[1..][i - 1] == d[i];
      GetEntry(d[1..], i - 1);
    }
  }

  /**
   * Assignment `d[k] = v`: an existing key keeps its position and takes the new
   * value, a new key is appended.
   */
  function Put<V>(d: Entries<V>, k: string, v: V): (r: Entries<V>)
    ensures Get(r, k) == Some(v)
    ensures forall k' :: k' != k ==> Get(r, k') == Get(d, k')
    ensures HasKey(d, k) ==> |r| == |d| && forall i :: 0 <= i < |d| ==> r[i].0 == d[i].0
    ensures !HasKey(d, k) ==> r == d + [(k, v)]
  {
    if d == [] then [(k, v)]
    else if d[0].0 == k then
      [(k, v)] + d[1..]
    else
      var rest := Put(d[1..], k, v);
      HasKeyTail(d, k);
      ConsFacts(d[0], d[1..], rest, k);
      [d[0]] + rest
  }

  lemma HasKeyTail<V>(d: Entries<V>, k: string)
    requires d != []
    ensures HasKey(d, k) <==> d[0].0 == k || HasKey(d[1..], k)
  {
    assert forall i :: 1 <= i < |d| ==> d[i] == d[1..][i - 1];
  }

  /** Putting the same first entry in front of two tails that agree off `k` keeps them agreeing. */
  lemma ConsFacts<V>(e: (string, V), tail: Entries<V>, rest: Entries<V>, k: string)
    requires e.0 != k
    requires forall k' :: k' != k ==> Get(rest, k') == Get(tail, k')
    ensures forall k' :: k' != k ==> Get([e] + rest, k') == Get([e] + tail, k')
    ensures Get([e] + rest, k) == Get(rest, k)
    ensures ([e] + rest)[1..] == rest && ([e] + tail)[1..] == tail
  {
    assert ([e] + rest)[1..] == rest;
    assert ([e] + tail)[1..] == tail;
  }

  lemma {:induction false} PutDistinct<V>(d: Entries<V>, k: string, v: V)
    requires DistinctKeys(d)
    ensures DistinctKeys(Put(d, k, v))
  {
    var r := Put(d, k, v);
    if !HasKey(d, k) {
      forall i, j | 0 <= i < j < |r| ensures r[i].0 != r[j].0 {
        if j == |d| {
          assert r[i] == d[i];
        }
      }
    }
  }

  /** `d.update(other)`: the entries of `other` are assigned one by one, in order. */
  function PutAll<V>(d: Entries<V>, other: Entries<V>): (r: Entries<V>)
    ensures forall k :: !HasKey(other, k) ==> Get(r, k) == Get(d, k)
    ensures |d| <= |r| && forall i :: 0 <= i < |d| ==> r[i].0 == d[i].0
    decreases |other|
  {
    if other == [] then d
    else
      var (k, v) := other[0];
      var r := PutAll(Put(d, k, v), other[1..]);
      assert forall k' :: HasKey(other[1..], k') ==> HasKey(other, k') by {
        assert forall i :: 1 <= i < |other| ==> other[i] == other[1..][i - 1];
      }
      assert |d| <= |Put(d, k, v)| && forall i :: 0 <= i < |d| ==> Put(d, k, v)[i].0 == d[i].0;
      r
  }

  /** With `other` free of repeated keys, each of its keys ends up with its value. */
  lemma {:induction false} PutAllGet<V>(d: Entries<V>, other: Entries<V>, k: string)
    requires DistinctKeys(other)
    ensures Get(PutAll(d, other), k) == if HasKey(other, k) then Get(other, k) else Get(d, k)
    decreases |other|
  {
    if other != [] {
      var (k0, v0) := other[0];
      TailKeys(other, k);
      PutAllGet(Put(d, k0, v0), other[1..], k);
    }
  }

  /** Assigning one more entry after the others is one more `Put`. */
  lemma {:induction false} PutAllSnoc<V>(d: Entries<V>, other: Entries<V>, k: string, v: V)
    ensures PutAll(d, other + [(k, v)]) == Put(PutAll(d, other), k, v)
    decreases |other|
  {
    if other == [] {
      assert ([] + [(k, v)])[1..] == [];
    } else {
      var (k0, v0) := other[0];
      assert (other + [(k, v)])[0] == other[0];
      assert (other + [(k, v)])[1..] == other[1..] + [(k, v)];
      PutAllSnoc(Put(d, k0, v0), other[1..], k, v);
    }
  }

  /** `PutAll` over one more entry of `other`. */
  lemma PutAllPrefix<V>(d: Entries<V>, other: Entries<V>, i: nat)
    requires i < |other|
    ensures PutAll(d, other[..i + 1]) == Put(PutAll(d, other[..i]), other[i].0, other[i].1)
  {
    assert other[..i + 1] == other[..i] + [(other[i].0, other[i].1)];
    PutAllSnoc(d, other[..i], other[i].0, other[i].1);
  }

  /** The keys after the first entry of a dictionary without repeated keys. */
  lemma TailKeys<V>(d: Entries<V>, k: string)
    requires DistinctKeys(d) && d != []
    ensures DistinctKeys(d[1..]) && !HasKey(d[1..], d[0].0)
    ensures HasKey(d, k) <==> d[0].0 == k || HasKey(d[1..], k)
  {
    assert forall i :: 1 <= i < |d| ==> d[i] == d[1..][i - 1];
  }

  lemma {:induction false} PutAllDistinct<V>(d: Entries<V>, other: Entries<V>)
    requires DistinctKeys(d)
    ensures DistinctKeys(PutAll(d, other))
    decreases |other|
  {
    if other != [] {
      PutDistinct(d, other[0].0, other[0].1);
      PutAllDistinct(Put(d, other[0].0, other[0].1), other[1..]);
    }
  }

  /** Removal of a key (`style.removeProperty(k)`). */
  function Remove<V>(d: Entries<V>, k: string): (r: Entries<V>)
    ensures Get(r, k) == None
    ensures forall k' :: k' != k ==> Get(r, k') == Get(d, k')
  {
    if d == [] then []
    else if d[0].0 == k then Remove(d[1..], k)
    else
      var rest := Remove(d[1..], k);
      assert ([d[0]] + rest)[1..] == rest;
      [d[0]] + rest
  }

  /** Lookup in a concatenation: the entries of the first part are found first. */
  lemma {:induction false} GetAppend<V>(d: Entries<V>, e: Entries<V>, k: string)
    ensures Get(d + e, k) == if HasKey(d, k) then Get(d, k) else Get(e, k)
  {
    if d == [] {
      assert d + e == e;
    } else {
      assert (d + e)[1..] == d[1..] + e;
      assert forall i :: 1 <= i < |d| ==> d[i] == d[1..][i - 1];
      GetAppend(d[1..], e, k);
    }
  }

  /** Lookup finds the first entry with the key. */
  lemma {:induction false} GetAt<V>(d: Entries<V>, i: nat, k: string)
    requires i < |d| && d[i].0 == k
    requires forall j :: 0 <= j < i ==> d[j].0 != k
    ensures Get(d, k) == Some(d[i].1)
  {
    if i > 0 {
      assert d[1..][i - 1] == d[i];
      GetAt(d[1..], i - 1, k);
    }
  }
}
