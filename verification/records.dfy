/** Plain JavaScript objects with string keys, as the frontend uses them for
    filter, sort and query-parameter records: the keys in insertion order,
    each with its value. Assigning to a key that is already present keeps its
    place; a new key goes last. */
module Records {
  import opened Wrappers

  type Rec<V> = seq<(string, V)>

  function Keys<V>(r: Rec<V>): (ks: seq<string>)
    ensures |ks| == |r|
    ensures forall i :: 0 <= i < |r| ==> ks[i] == r[i].0
  {
    if |r| == 0 then [] else [r[0].0] + Keys(r[1..])
  }

  /** The keys of a record with one more entry. */
  lemma KeysSnoc<V>(r: Rec<V>)
    requires |r| > 0
    ensures Keys(r) == Keys(r[..|r| - 1]) + [r[|r| - 1].0]
  {
  }

  /** No key appears twice, as in every object. */
  predicate DistinctKeys<V>(r: Rec<V>) {
    forall i, j :: 0 <= i < j < |r| ==> r[i].0 != r[j].0
  }

  /** `r[k]`: None stands for a missing key. The last entry for a key is the
      one read. */
  function Get<V>(r: Rec<V>, k: string): (v: Option<V>)
    ensures v.Some? <==> k in Keys(r)
    decreases |r|
  {
    if |r| == 0 then None
    else if r[|r| - 1].0 == k then Some(r[|r| - 1].1)
    else
      assert Keys(r) == Keys(r[..|r| - 1]) + [r[|r| - 1].0];
      Get(r[..|r| - 1], k)
  }

  /** With distinct keys, the value read is the one stored at the key's
      place. */
  lemma {:induction false} GetAt<V>(r: Rec<V>, i: nat)
    requires DistinctKeys(r) && i < |r|
    ensures Get(r, r[i].0) == Some(r[i].1)
    decreases |r|
  {
    if i < |r| - 1 {
      GetAt(r[..|r| - 1], i);
    }
  }

  /** Every entry with key `k` replaced by `(k, v)`. */
  function Replace<V>(r: Rec<V>, k: string, v: V): (s: Rec<V>)
    ensures |s| == |r|
    ensures forall i :: 0 <= i < |r| ==> s[i] == if r[i].0 == k then (k, v) else r[i]
  {
    seq(|r|, i requires 0 <= i < |r| => if r[i].0 == k then (k, v) else r[i])
  }

  lemma {:induction false} GetReplace<V>(r: Rec<V>, k: string, v: V, other: string)
    ensures other != k ==> Get(Replace(r, k, v), other) == Get(r, other)
    ensures k in Keys(r) ==> Get(Replace(r, k, v), k) == Some(v)
    decreases |r|
  {
    if |r| > 0 {
      var n := |r| - 1;
      assert Replace(r, k, v)[..n] == Replace(r[..n], k, v);
      GetReplace(r[..n], k, v, other);
      assert Keys(r) == Keys(r[..n]) + [r[n].0];
    }
  }

  lemma GetAppend<V>(r: Rec<V>, k: string, v: V, other: string)
    ensures Get(r + [(k, v)], k) == Some(v)
    ensures other != k ==> Get(r + [(k, v)], other) == Get(r, other)
  {
    assert (r + [(k, v)])[..|r|] == r;
  }

  /** Replacing a key that is present: the key reads `v`, every other key
      reads as before, and the keys keep their order. */
  lemma ReplacePresent<V>(r: Rec<V>, k: string, v: V)
    requires k in Keys(r)
    ensures Get(Replace(r, k, v), k) == Some(v)
    ensures forall other :: other != k ==> Get(Replace(r, k, v), other) == Get(r, other)
    ensures Keys(Replace(r, k, v)) == Keys(r)
    ensures DistinctKeys(r) ==> DistinctKeys(Replace(r, k, v))
  {
    forall other ensures other != k ==> Get(Replace(r, k, v), other) == Get(r, other) {
      GetReplace(r, k, v, other);
    }
    GetReplace(r, k, v, k);
  }

  /** Appending a key that is absent: the key reads `v`, every other key reads
      as before, and the key goes last. */
  lemma AppendAbsent<V>(r: Rec<V>, k: string, v: V)
    requires k !in Keys(r)
    ensures Get(r + [(k, v)], k) == Some(v)
    ensures forall other :: other != k ==> Get(r + [(k, v)], other) == Get(r, other)
    ensures Keys(r + [(k, v)]) == Keys(r) + [k]
    ensures DistinctKeys(r) ==> DistinctKeys(r + [(k, v)])
  {
    forall other ensures other != k ==> Get(r + [(k, v)], other) == Get(r, other) {
      GetAppend(r, k, v, other);
    }
    GetAppend(r, k, v, k);
  }

  /** `r[k] = v`, and `{ ...r, [k]: v }`: the key reads `v` afterwards and
      every other key reads as before; a present key keeps its place and a new
      one goes last. */
  function Set<V>(r: Rec<V>, k: string, v: V): (s: Rec<V>)
    ensures Get(s, k) == Some(v)
    ensures forall other :: other != k ==> Get(s, other) == Get(r, other)
    ensures k in Keys(r) ==> Keys(s) == Keys(r)
    ensures k !in Keys(r) ==> Keys(s) == Keys(r) + [k]
    ensures DistinctKeys(r) ==> DistinctKeys(s)
    ensures k in Keys(r) ==> s == Replace(r, k, v)
    ensures k !in Keys(r) ==> s == r + [(k, v)]
  {
    if k in Keys(r) then
      ReplacePresent(r, k, v);
      Replace(r, k, v)
    else
      AppendAbsent(r, k, v);
      r + [(k, v)]
  }

  /** A property every entry of `r` has, and the assigned entry has, holds of
      every entry after the assignment. */
  lemma SetKeeps<V>(r: Rec<V>, k: string, v: V, p: ((string, V)) -> bool)
    requires forall i :: 0 <= i < |r| ==> p(r[i])
    requires p((k, v))
    ensures forall i :: 0 <= i < |Set(r, k, v)| ==> p(Set(r, k, v)[i])
  {
    if k !in Keys(r) {
      assert Set(r, k, v) == r + [(k, v)];
    }
  }

  /** Assigning a key twice is assigning it the second value: the key keeps
      the place the first assignment gave it. */
  lemma SetTwice<V>(r: Rec<V>, k: string, a: V, b: V)
    ensures Set(Set(r, k, a), k, b) == Set(r, k, b)
  {
    var s := Set(r, k, a);
    assert k in Keys(s);
    if k in Keys(r) {
      assert Replace(s, k, b) == Replace(r, k, b);
    } else {
      assert forall i :: 0 <= i < |r| ==> r[i].0 != k;
      assert Replace(s, k, b) == r + [(k, b)];
    }
  }

  /** Assigning a key the value it already holds changes nothing. */
  lemma SetSame<V>(r: Rec<V>, i: nat)
    requires DistinctKeys(r) && i < |r|
    ensures Set(r, r[i].0, r[i].1) == r
  {
    assert r[i].0 in Keys(r);
    assert Replace(r, r[i].0, r[i].1) == r;
  }
}
