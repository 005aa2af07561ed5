/** A Python dict as the request parameters use it: entries kept in
    insertion order; assigning to a key already present replaces its value
    where it stands, assigning to a new key appends it. */
module Dict {
  import opened Wrappers

  /** The keys of a dict, in insertion order. */
  function Keys<V>(d: seq<(string, V)>): seq<string>
  {
    seq(|d|, i requires 0 <= i < |d| => d[i].0)
  }

  /** The keys of two dicts' entries laid end to end are the keys of the
      first followed by the keys of the second. */
  lemma KeysConcat<V>(d: seq<(string, V)>, e: seq<(string, V)>)
    ensures Keys(d + e) == Keys(d) + Keys(e)
  {
  }

  /** No key occurs twice: what every Python dict satisfies. */
  predicate Distinct(ks: seq<string>)
  {
    forall i, j :: 0 <= i < j < |ks| ==> ks[i] != ks[j]
  }

  /** The position of the first occurrence of `k`. */
  function IndexOf(ks: seq<string>, k: string): (i: nat)
    requires k in ks
    ensures i < |ks| && ks[i] == k
    ensures forall j :: 0 <= j < i ==> ks[j] != k
  {
    if ks[0] == k then 0 else 1 + IndexOf(ks[1..], k)
  }

  /** `d.get(k)`: the value stored under `k`, if any. */
  function Lookup<V>(d: seq<(string, V)>, k: string): (r: Option<V>)
    ensures r.None? <==> k !in Keys(d)
    ensures r.Some? ==> (k, r.value) in d
  {
    if k in Keys(d) then Some(d[IndexOf(Keys(d), k)].1) else None
  }

  /** `d[k] = v`: a key already present keeps its position and only its
      value changes; a new key goes at the end. */
  function Assign<V>(d: seq<(string, V)>, k: string, v: V): (r: seq<(string, V)>)
    ensures Keys(r) == if k in Keys(d) then Keys(d) else Keys(d) + [k]
    ensures forall i :: 0 <= i < |d| && d[i].0 != k ==> r[i] == d[i]
  {
    if k in Keys(d) then d[IndexOf(Keys(d), k) := (k, v)] else d + [(k, v)]
  }

  /** Appending a key does not move the first occurrence of a key already
      present. */
  lemma IndexOfAppend(ks: seq<string>, k: string, other: string)
    requires other in ks
    ensures other in ks + [k]
    ensures IndexOf(ks + [k], other) == IndexOf(ks, other)
  {
    var i, j := IndexOf(ks + [k], other), IndexOf(ks, other);
    assert (ks + [k])[j] == other;
    assert i <= j;
    assert ks[i] == other;
  }

  /** After `d[k] = v`, looking up `k` gives `v`, and looking up `other`
      gives what it gave before unless `other` is `k`. */
  lemma AssignLookupAt<V>(d: seq<(string, V)>, k: string, v: V, other: string)
    ensures Lookup(Assign(d, k, v), k) == Some(v)
    ensures other != k ==> Lookup(Assign(d, k, v), other) == Lookup(d, other)
  {
    var r := Assign(d, k, v);
    if k !in Keys(d) {
      assert Keys(r) == Keys(d) + [k];
      assert IndexOf(Keys(r), k) == |d|;
      if other != k && other in Keys(d) {
        IndexOfAppend(Keys(d), k, other);
      }
    }
  }

  /** After `d[k] = v`, looking up `k` gives `v` and every other key gives
      what it gave before. */
  lemma AssignLookup<V>(d: seq<(string, V)>, k: string, v: V)
    ensures Lookup(Assign(d, k, v), k) == Some(v)
    ensures forall other :: other != k ==> Lookup(Assign(d, k, v), other) == Lookup(d, other)
  {
    AssignLookupAt(d, k, v, k);
    forall other | other != k
      ensures Lookup(Assign(d, k, v), other) == Lookup(d, other)
    {
      AssignLookupAt(d, k, v, other);
    }
  }

  /** Assignment keeps the keys of a dict distinct. */
  lemma AssignKeepsDistinct<V>(d: seq<(string, V)>, k: string, v: V)
    ensures Distinct(Keys(d)) ==> Distinct(Keys(Assign(d, k, v)))
  {
  }
}
