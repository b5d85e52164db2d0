/** The reading of bracketed query-string keys: `filter[name]=value` and
    `sort[name]=value` pairs are gathered into a filter record and a sort
    record; every other pair is ignored. */
module TransformQuery {
  import opened Wrappers
  import opened Text

  /** The pairs of a `URLSearchParams`, in query-string order. */
  type Entries = seq<(string, string)>

  datatype Transformed = Transformed(filter: map<string, string>, sort: map<string, string>)

  const FilterPrefix: string := "filter["
  const SortPrefix: string := "sort["

  /** The filter field a key names: what lies between `filter[` and the last
      character, which is taken to be `]` without being checked. */
  function FilterKey(key: string): Option<string> {
    if StartsWith(key, FilterPrefix) then Some(SliceToLast(key, |FilterPrefix|)) else None
  }

  /** The sort field a key names; a key that names a filter field is never also
      read as a sort key. */
  function SortKey(key: string): Option<string> {
    if !StartsWith(key, FilterPrefix) && StartsWith(key, SortPrefix) then Some(SliceToLast(key, |SortPrefix|))
    else None
  }

  /** One turn of the loop: the pair is stored under the field it names, a
      later pair overwriting an earlier one. */
  function Step(t: Transformed, entry: (string, string)): Transformed {
    match FilterKey(entry.0)
    case Some(k) => t.(filter := t.filter[k := entry.1])
    case None =>
      match SortKey(entry.0)
      case Some(k) => t.(sort := t.sort[k := entry.1])
      case None => t
  }

  /** `transformQuery(query)`: the pairs are visited in order from empty
      records. */
  function Transform(entries: Entries): Transformed
    decreases |entries|
  {
    if |entries| == 0 then Transformed(map[], map[])
    else Step(Transform(entries[..|entries| - 1]), entries[|entries| - 1])
  }

  /** The last pair whose key names field `k` through `name`. */
  predicate LastNaming(entries: Entries, name: string -> Option<string>, k: string, i: nat) {
    && i < |entries|
    && name(entries[i].0) == Some(k)
    && forall j :: i < j < |entries| ==> name(entries[j].0) != Some(k)
  }

  /** The filter record holds exactly the fields some key names, each with the
      value of the last pair naming it. */
  lemma {:induction false} FilterIsLastWins(entries: Entries, k: string)
    ensures k in Transform(entries).filter <==> exists i :: 0 <= i < |entries| && FilterKey(entries[i].0) == Some(k)
    ensures k in Transform(entries).filter ==>
      exists i: nat :: LastNaming(entries, FilterKey, k, i) && Transform(entries).filter[k] == entries[i].1
    decreases |entries|
  {
    if |entries| > 0 {
      var n := |entries| - 1;
      var prefix := entries[..n];
      FilterIsLastWins(prefix, k);
      assert forall i :: 0 <= i < n ==> prefix[i] == entries[i];
      if FilterKey(entries[n].0) == Some(k) {
        assert LastNaming(entries, FilterKey, k, n);
      } else if k in Transform(prefix).filter {
        var i: nat :| LastNaming(prefix, FilterKey, k, i) && Transform(prefix).filter[k] == prefix[i].1;
        assert LastNaming(entries, FilterKey, k, i);
      }
    }
  }

  /** The sort record holds exactly the fields some key names, each with the
      value of the last pair naming it. */
  lemma {:induction false} SortIsLastWins(entries: Entries, k: string)
    ensures k in Transform(entries).sort <==> exists i :: 0 <= i < |entries| && SortKey(entries[i].0) == Some(k)
    ensures k in Transform(entries).sort ==>
      exists i: nat :: LastNaming(entries, SortKey, k, i) && Transform(entries).sort[k] == entries[i].1
    decreases |entries|
  {
    if |entries| > 0 {
      var n := |entries| - 1;
      var prefix := entries[..n];
      SortIsLastWins(prefix, k);
      assert forall i :: 0 <= i < n ==> prefix[i] == entries[i];
      if SortKey(entries[n].0) == Some(k) {
        assert LastNaming(entries, SortKey, k, n);
      } else if k in Transform(prefix).sort {
        var i: nat :| LastNaming(prefix, SortKey, k, i) && Transform(prefix).sort[k] == prefix[i].1;
        assert LastNaming(entries, SortKey, k, i);
      }
    }
  }

  /** Both records at once. */
  lemma TransformIsLastWins(entries: Entries, k: string)
    ensures k in Transform(entries).filter <==> exists i :: 0 <= i < |entries| && FilterKey(entries[i].0) == Some(k)
    ensures k in Transform(entries).filter ==>
      exists i: nat :: LastNaming(entries, FilterKey, k, i) && Transform(entries).filter[k] == entries[i].1
    ensures k in Transform(entries).sort <==> exists i :: 0 <= i < |entries| && SortKey(entries[i].0) == Some(k)
    ensures k in Transform(entries).sort ==>
      exists i: nat :: LastNaming(entries, SortKey, k, i) && Transform(entries).sort[k] == entries[i].1
  {
    FilterIsLastWins(entries, k);
    SortIsLastWins(entries, k);
  }

  /** `filter[name]`, the way a client spells a filter field. */
  function FilterParam(name: string): (key: string)
    ensures FilterKey(key) == Some(name)
  {
    var key := FilterPrefix + name + "]";
    assert key[..|FilterPrefix|] == FilterPrefix;
    key
  }

  /** `sort[name]`, the way a client spells a sort field. */
  function SortParam(name: string): (key: string)
    ensures SortKey(key) == Some(name) && FilterKey(key).None?
  {
    var key := SortPrefix + name + "]";
    assert key[..|SortPrefix|] == SortPrefix;
    assert key[0] != FilterPrefix[0];
    key
  }

  /** The query pairs of a filter given as name/value pairs. */
  function FilterEntries(fields: seq<(string, string)>): (entries: Entries)
    ensures |entries| == |fields|
    ensures forall i :: 0 <= i < |fields| ==> entries[i] == (FilterParam(fields[i].0), fields[i].1)
  {
    if |fields| == 0 then [] else [(FilterParam(fields[0].0), fields[0].1)] + FilterEntries(fields[1..])
  }

  /** Every filter pair names its own field and no sort field. */
  lemma FilterEntriesName(fields: seq<(string, string)>, k: string)
    ensures forall i :: 0 <= i < |fields| ==>
      && (FilterKey(FilterEntries(fields)[i].0) == Some(k) <==> fields[i].0 == k)
      && SortKey(FilterEntries(fields)[i].0).None?
  {
    var entries := FilterEntries(fields);
    forall i | 0 <= i < |fields|
      ensures FilterKey(entries[i].0) == Some(fields[i].0) && SortKey(entries[i].0).None?
    {
    }
  }

  /** Spelling each filter field as `filter[name]=value` and transforming the
      pairs gives the fields back: exactly the names given are present, each
      with the value of its last occurrence, and no sort field appears. */
  lemma FilterRoundTrip(fields: seq<(string, string)>, k: string)
    ensures k !in Transform(FilterEntries(fields)).sort
    ensures k in Transform(FilterEntries(fields)).filter <==> exists i :: 0 <= i < |fields| && fields[i].0 == k
    ensures forall i :: 0 <= i < |fields| && fields[i].0 == k && (forall j :: i < j < |fields| ==> fields[j].0 != k) ==>
      Transform(FilterEntries(fields)).filter[k] == fields[i].1
  {
    var entries := FilterEntries(fields);
    TransformIsLastWins(entries, k);
    FilterEntriesName(fields, k);
    forall i | 0 <= i < |fields| && fields[i].0 == k && (forall j :: i < j < |fields| ==> fields[j].0 != k)
      ensures Transform(entries).filter[k] == fields[i].1
    {
      assert LastNaming(entries, FilterKey, k, i);
      var w: nat :| LastNaming(entries, FilterKey, k, w) && Transform(entries).filter[k] == entries[w].1;
      assert w == i;
    }
  }

  /** A pair whose key is neither bracketed form is ignored. */
  lemma OtherKeysIgnored(entries: Entries, entry: (string, string))
    requires !StartsWith(entry.0, FilterPrefix) && !StartsWith(entry.0, SortPrefix)
    ensures Transform(entries + [entry]) == Transform(entries)
  {
    assert (entries + [entry])[..|entries|] == entries;
  }

  /** The closing bracket is not checked: `filter[abc` names the field `ab`. */
  lemma ClosingBracketNotChecked()
    ensures FilterKey("filter[abc") == Some("ab")
  {
    assert StartsWith("filter[abc", FilterPrefix);
    assert SliceToLast("filter[abc", 7) == "filter[abc"[7..9] == "ab";
  }
}
