/** The filter bar of the listing page: the filter and sort records read from
    the page's search parameters, edited by the user, and written back as
    `filter[name]=value` and `sort[name]=direction` parameters.

    The records are plain objects; a sort entry may hold `undefined` after
    the user toggles it off, which is modelled by None. Writing the
    parameters into the URL text (percent-encoding) and navigation are not
    modelled: the written form is the list of parameter pairs. */
module Filters {
  import opened Wrappers
  import opened Json
  import opened Zod
  import opened Records
  import opened TransformQuery
  import opened QuerySchema

  datatype State = State(filters: Rec<string>, sorts: Rec<Option<string>>)

  const Empty: State := State([], [])

  /** One search parameter read by the effect that loads the records: a
      `filter[` key sets a filter, a `sort[` key sets a sort, and other keys
      are skipped. The names are cut out exactly as the backend cuts them. */
  function ReadStep(s: State, entry: (string, string)): State {
    match FilterKey(entry.0)
    case Some(k) => s.(filters := Set(s.filters, k, entry.1))
    case None =>
      match SortKey(entry.0)
      case Some(k) => s.(sorts := Set(s.sorts, k, Some(entry.1)))
      case None => s
  }

  function ReadFrom(s: State, entries: Entries): State
    decreases |entries|
  {
    if |entries| == 0 then s
    else ReadStep(ReadFrom(s, entries[..|entries| - 1]), entries[|entries| - 1])
  }

  /** The records loaded from the page's search parameters. */
  function ReadParams(entries: Entries): State {
    ReadFrom(Empty, entries)
  }

  /** The filters the frontend reads are the ones the backend decodes. */
  lemma {:induction false} ReadFiltersAgree(entries: Entries, k: string)
    ensures Get(ReadParams(entries).filters, k) ==
      (if k in Transform(entries).filter then Some(Transform(entries).filter[k]) else None)
    decreases |entries|
  {
    if |entries| > 0 {
      var n := |entries| - 1;
      var e := entries[n];
      ReadFiltersAgree(entries[..n], k);
      var s := ReadParams(entries[..n]);
      var t := Transform(entries[..n]);
      assert ReadParams(entries) == ReadStep(s, e);
      assert Transform(entries) == Step(t, e);
      if FilterKey(e.0).None? {
        assert ReadStep(s, e).filters == s.filters;
        assert Step(t, e).filter == t.filter;
      }
    }
  }

  /** The sorts the frontend reads are the ones the backend decodes. */
  lemma {:induction false} ReadSortsAgree(entries: Entries, k: string)
    ensures Get(ReadParams(entries).sorts, k) ==
      (if k in Transform(entries).sort then Some(Some(Transform(entries).sort[k])) else None)
    decreases |entries|
  {
    if |entries| > 0 {
      var n := |entries| - 1;
      var e := entries[n];
      ReadSortsAgree(entries[..n], k);
      var s := ReadParams(entries[..n]);
      var t := Transform(entries[..n]);
      assert ReadParams(entries) == ReadStep(s, e);
      assert Transform(entries) == Step(t, e);
      if FilterKey(e.0).Some? || SortKey(e.0).None? {
        assert ReadStep(s, e).sorts == s.sorts;
        assert Step(t, e).sort == t.sort;
      }
    }
  }

  /** The frontend reads the parameters as the backend decodes them: the same
      filter and sort names, each with the same value. */
  lemma ReadParamsAgreesWithBackend(entries: Entries, k: string)
    ensures Get(ReadParams(entries).filters, k) ==
      (if k in Transform(entries).filter then Some(Transform(entries).filter[k]) else None)
    ensures Get(ReadParams(entries).sorts, k) ==
      (if k in Transform(entries).sort then Some(Some(Transform(entries).sort[k])) else None)
  {
    ReadFiltersAgree(entries, k);
    ReadSortsAgree(entries, k);
  }

  // ---------------------------------------------------------------------
  // Writing the parameters

  /** A filter value is written when it is truthy, i.e. not empty. */
  function ShownFilter(filters: Rec<string>, k: string): Option<string> {
    match Get(filters, k)
    case Some(v) => if v != "" then Some(v) else None
    case None => None
  }

  /** A sort direction is written when it is set and not empty. */
  function ShownSort(sorts: Rec<Option<string>>, k: string): Option<string> {
    var g := Get(sorts, k);
    if g.Some? && g.value.Some? && g.value.value != "" then g.value else None
  }

  function FilterPairs(filters: Rec<string>): (pairs: Entries)
    ensures forall i :: 0 <= i < |pairs| ==> FilterKey(pairs[i].0).Some? && pairs[i].1 != ""
    decreases |filters|
  {
    if |filters| == 0 then []
    else
      var last := filters[|filters| - 1];
      FilterPairs(filters[..|filters| - 1]) + (if last.1 != "" then [(FilterParam(last.0), last.1)] else [])
  }

  function SortPairs(sorts: Rec<Option<string>>): (pairs: Entries)
    ensures forall i :: 0 <= i < |pairs| ==> SortKey(pairs[i].0).Some? && FilterKey(pairs[i].0).None? && pairs[i].1 != ""
    decreases |sorts|
  {
    if |sorts| == 0 then []
    else
      var last := sorts[|sorts| - 1];
      SortPairs(sorts[..|sorts| - 1])
        + (if last.1.Some? && last.1.value != "" then [(SortParam(last.0), last.1.value)] else [])
  }

  /** `updateQueryParams()`: every truthy filter as `filter[name]=value`, in
      the record's key order, then every set sort as `sort[name]=direction`. */
  function Serialize(s: State): (pairs: Entries)
    ensures |pairs| == |FilterPairs(s.filters)| + |SortPairs(s.sorts)|
    ensures forall i :: 0 <= i < |FilterPairs(s.filters)| ==> FilterKey(pairs[i].0).Some?
    ensures forall i :: |FilterPairs(s.filters)| <= i < |pairs| ==> SortKey(pairs[i].0).Some? && FilterKey(pairs[i].0).None?
    ensures forall i :: 0 <= i < |pairs| ==> pairs[i].1 != ""
  {
    FilterPairs(s.filters) + SortPairs(s.sorts)
  }

  lemma {:induction false} ReadFromAppend(s: State, a: Entries, b: Entries)
    ensures ReadFrom(s, a + b) == ReadFrom(ReadFrom(s, a), b)
    decreases |b|
  {
    if |b| == 0 {
      assert a + b == a;
    } else {
      assert (a + b)[..|a + b| - 1] == a + b[..|b| - 1];
      ReadFromAppend(s, a, b[..|b| - 1]);
    }
  }

  /** Reading the written filters gives back the truthy ones; no sort is
      read from them. */
  lemma {:induction false} ReadFilterPairs(filters: Rec<string>, k: string)
    requires DistinctKeys(filters)
    ensures Get(ReadParams(FilterPairs(filters)).filters, k) == ShownFilter(filters, k)
    ensures ReadParams(FilterPairs(filters)).sorts == []
    decreases |filters|
  {
    if |filters| > 0 {
      var n := |filters| - 1;
      var prefix := filters[..n];
      var last := filters[n];
      assert DistinctKeys(prefix);
      ReadFilterPairs(prefix, k);
      ReadFilterPairs(prefix, last.0);
      var tail := if last.1 != "" then [(FilterParam(last.0), last.1)] else [];
      var before := ReadParams(FilterPairs(prefix));
      assert FilterPairs(filters) == FilterPairs(prefix) + tail;
      ReadFromAppend(Empty, FilterPairs(prefix), tail);
      assert last.0 !in Keys(prefix);
      assert Get(filters, k) == if k == last.0 then Some(last.1) else Get(prefix, k);
      if tail == [] {
        assert ReadParams(FilterPairs(filters)) == before;
      } else {
        assert tail[..0] == [];
        assert ReadParams(FilterPairs(filters)) == ReadStep(before, tail[0]);
        assert ReadStep(before, tail[0]) == before.(filters := Set(before.filters, last.0, last.1));
      }
    }
  }

  /** Reading written sorts on top of a state without sorts adds back the
      set ones and leaves the filters alone. */
  lemma {:induction false} ReadSortPairs(s: State, sorts: Rec<Option<string>>, k: string)
    requires s.sorts == [] && DistinctKeys(sorts)
    ensures Get(ReadFrom(s, SortPairs(sorts)).sorts, k) ==
      (if ShownSort(sorts, k).Some? then Some(ShownSort(sorts, k)) else None)
    ensures ReadFrom(s, SortPairs(sorts)).filters == s.filters
    decreases |sorts|
  {
    if |sorts| > 0 {
      var n := |sorts| - 1;
      var prefix := sorts[..n];
      var last := sorts[n];
      assert DistinctKeys(prefix);
      ReadSortPairs(s, prefix, k);
      ReadSortPairs(s, prefix, last.0);
      var tail := if last.1.Some? && last.1.value != "" then [(SortParam(last.0), last.1.value)] else [];
      var before := ReadFrom(s, SortPairs(prefix));
      assert SortPairs(sorts) == SortPairs(prefix) + tail;
      ReadFromAppend(s, SortPairs(prefix), tail);
      assert last.0 !in Keys(prefix);
      assert Get(sorts, k) == if k == last.0 then Some(last.1) else Get(prefix, k);
      if tail == [] {
        assert ReadFrom(s, SortPairs(sorts)) == before;
      } else {
        assert tail[..0] == [];
        assert ReadFrom(s, SortPairs(sorts)) == ReadStep(before, tail[0]);
        assert ReadStep(before, tail[0]) == before.(sorts := Set(before.sorts, last.0, Some(last.1.value)));
      }
    }
  }

  /** Reading the written parameters gives back the records, restricted to
      the values that were written: the non-empty filters and the set, non-empty
      sorts. */
  lemma RoundTrip(s: State, k: string)
    requires DistinctKeys(s.filters) && DistinctKeys(s.sorts)
    ensures Get(ReadParams(Serialize(s)).filters, k) == ShownFilter(s.filters, k)
    ensures Get(ReadParams(Serialize(s)).sorts, k) ==
      (if ShownSort(s.sorts, k).Some? then Some(ShownSort(s.sorts, k)) else None)
  {
    ReadFilterPairs(s.filters, k);
    ReadFromAppend(Empty, FilterPairs(s.filters), SortPairs(s.sorts));
    ReadSortPairs(ReadParams(FilterPairs(s.filters)), s.sorts, k);
  }

  // ---------------------------------------------------------------------
  // Editing

  /** `handleFilterChange(key, value)`. */
  function ChangeFilter(s: State, key: string, value: string): (r: State)
    ensures Get(r.filters, key) == Some(value)
    ensures forall k :: k != key ==> Get(r.filters, k) == Get(s.filters, k)
    ensures r.sorts == s.sorts
  {
    s.(filters := Set(s.filters, key, value))
  }

  /** A filter change sets only the given key: every other filter and every
      sort reads as before. */
  lemma ChangeFilterOnlyKey(s: State, key: string, value: string)
    ensures Get(ChangeFilter(s, key, value).filters, key) == Some(value)
    ensures forall k :: k != key ==> Get(ChangeFilter(s, key, value).filters, k) == Get(s.filters, k)
    ensures ChangeFilter(s, key, value).sorts == s.sorts
  {
  }

  /** `handleSortChange(key)`: an unset (or empty) direction becomes `asc`,
      `asc` becomes `desc`, and anything else becomes `undefined`. */
  function ToggleValue(sorts: Rec<Option<string>>, key: string): Option<string> {
    match ShownSort(sorts, key)
    case None => Some("asc")
    case Some(d) => if d == "asc" then Some("desc") else None
  }

  /** The clicked key takes the toggled value; every other key reads as
      before. */
  function ToggleSort(sorts: Rec<Option<string>>, key: string): (r: Rec<Option<string>>)
    ensures Get(r, key) == Some(ToggleValue(sorts, key))
    ensures forall k :: k != key ==> Get(r, k) == Get(sorts, k)
    ensures DistinctKeys(sorts) ==> DistinctKeys(r)
  {
    Set(sorts, key, ToggleValue(sorts, key))
  }

  /** The cycle the toggle walks for the clicked key — unset, `asc`, `desc`,
      unset — and no other key moves. */
  lemma ToggleCycle(sorts: Rec<Option<string>>, key: string)
    ensures ShownSort(sorts, key).None? ==> ShownSort(ToggleSort(sorts, key), key) == Some("asc")
    ensures ShownSort(sorts, key) == Some("asc") ==> ShownSort(ToggleSort(sorts, key), key) == Some("desc")
    ensures ShownSort(sorts, key) == Some("desc") ==> ShownSort(ToggleSort(sorts, key), key).None?
    ensures forall k :: k != key ==> Get(ToggleSort(sorts, key), k) == Get(sorts, k)
  {
  }

  function Toggle3(sorts: Rec<Option<string>>, key: string): Rec<Option<string>> {
    ToggleSort(ToggleSort(ToggleSort(sorts, key), key), key)
  }

  /** Three clicks assign the key three times, which is assigning it the
      third value. */
  lemma Toggle3IsOneSet(sorts: Rec<Option<string>>, key: string)
    ensures var t1 := ToggleSort(sorts, key);
      var t2 := ToggleSort(t1, key);
      Toggle3(sorts, key) == Set(sorts, key, ToggleValue(t2, key))
  {
    var t1 := ToggleSort(sorts, key);
    var t2 := ToggleSort(t1, key);
    SetTwice(sorts, key, ToggleValue(sorts, key), ToggleValue(t1, key));
    SetTwice(sorts, key, ToggleValue(t1, key), ToggleValue(t2, key));
  }

  /** Replacing the entry of a key by one written the same way leaves the
      written sorts as they are. */
  lemma {:induction false} SortPairsReplace(sorts: Rec<Option<string>>, k: string, v: Option<string>)
    requires forall i :: 0 <= i < |sorts| && sorts[i].0 == k ==> !(sorts[i].1.Some? && sorts[i].1.value != "")
    requires !(v.Some? && v.value != "")
    ensures SortPairs(Replace(sorts, k, v)) == SortPairs(sorts)
    decreases |sorts|
  {
    if |sorts| > 0 {
      var n := |sorts| - 1;
      var r := Replace(sorts, k, v);
      assert r[..n] == Replace(sorts[..n], k, v);
      SortPairsReplace(sorts[..n], k, v);
      assert r[n] == if sorts[n].0 == k then (k, v) else sorts[n];
      assert SortPairs(r) == SortPairs(r[..n])
        + (if r[n].1.Some? && r[n].1.value != "" then [(SortParam(r[n].0), r[n].1.value)] else []);
    }
  }

  /** Writing an unset direction for a key leaves the written sorts as they
      are, whether or not the key was there. */
  lemma SetUnsetWritesNothing(sorts: Rec<Option<string>>, key: string)
    requires DistinctKeys(sorts) && ShownSort(sorts, key).None?
    ensures SortPairs(Set(sorts, key, None)) == SortPairs(sorts)
  {
    if key in Keys(sorts) {
      forall i | 0 <= i < |sorts| && sorts[i].0 == key
        ensures !(sorts[i].1.Some? && sorts[i].1.value != "")
      {
        GetAt(sorts, i);
      }
      SortPairsReplace(sorts, key, None);
    } else {
      assert (sorts + [(key, None)])[..|sorts|] == sorts;
    }
  }

  /** The third value written by three clicks, from a state in the cycle:
      the original direction, or `undefined` for an unset one. */
  lemma ThirdValue(sorts: Rec<Option<string>>, key: string)
    requires ShownSort(sorts, key).None? || ShownSort(sorts, key) == Some("asc") || ShownSort(sorts, key) == Some("desc")
    ensures var t2 := ToggleSort(ToggleSort(sorts, key), key);
      ToggleValue(t2, key) == if ShownSort(sorts, key).Some? then Get(sorts, key).value else None
  {
    var t1 := ToggleSort(sorts, key);
    ToggleCycle(sorts, key);
    ToggleCycle(t1, key);
  }

  /** Three clicks on a set direction give the record back unchanged. */
  lemma ThreeTogglesRestoreSet(sorts: Rec<Option<string>>, key: string)
    requires DistinctKeys(sorts)
    requires ShownSort(sorts, key) == Some("asc") || ShownSort(sorts, key) == Some("desc")
    ensures Toggle3(sorts, key) == sorts
  {
    ThirdValue(sorts, key);
    Toggle3IsOneSet(sorts, key);
    var i :| 0 <= i < |sorts| && sorts[i].0 == key;
    GetAt(sorts, i);
    SetSame(sorts, i);
  }

  /** Three clicks on an unset direction assign it `undefined`. */
  lemma ThreeTogglesUnset(sorts: Rec<Option<string>>, key: string)
    requires ShownSort(sorts, key).None?
    ensures Toggle3(sorts, key) == Set(sorts, key, None)
  {
    ThirdValue(sorts, key);
    Toggle3IsOneSet(sorts, key);
  }

  /** Three clicks on an unset direction leave it `undefined`: every key
      shows as before and the same sort pairs are written. */
  lemma ThreeTogglesRestoreUnset(sorts: Rec<Option<string>>, key: string)
    requires DistinctKeys(sorts) && ShownSort(sorts, key).None?
    ensures forall k :: ShownSort(Toggle3(sorts, key), k) == ShownSort(sorts, k)
    ensures SortPairs(Toggle3(sorts, key)) == SortPairs(sorts)
  {
    ThreeTogglesUnset(sorts, key);
    SetUnsetWritesNothing(sorts, key);
    var t3 := Set(sorts, key, None);
    forall k ensures ShownSort(t3, k) == ShownSort(sorts, k) {
      if k != key {
        assert Get(t3, k) == Get(sorts, k);
      }
    }
  }

  /** Three clicks on a sort restore it. A set direction comes back exactly;
      an unset one comes back as `undefined`, which is written the same way,
      so the written parameters are the same as before. */
  lemma ThreeTogglesRestore(f: Rec<string>, sorts: Rec<Option<string>>, key: string)
    requires DistinctKeys(sorts)
    requires ShownSort(sorts, key).None? || ShownSort(sorts, key) == Some("asc") || ShownSort(sorts, key) == Some("desc")
    ensures ShownSort(sorts, key).Some? ==> Toggle3(sorts, key) == sorts
    ensures forall k :: ShownSort(Toggle3(sorts, key), k) == ShownSort(sorts, k)
    ensures Serialize(State(f, Toggle3(sorts, key))) == Serialize(State(f, sorts))
  {
    if ShownSort(sorts, key).Some? {
      ThreeTogglesRestoreSet(sorts, key);
    } else {
      ThreeTogglesRestoreUnset(sorts, key);
      assert Serialize(State(f, Toggle3(sorts, key))) == FilterPairs(f) + SortPairs(Toggle3(sorts, key));
      assert Serialize(State(f, sorts)) == FilterPairs(f) + SortPairs(sorts);
    }
  }

  /** `clearFilters()`: both records empty; nothing is written and nothing
      read back. */
  function Clear(s: State): (r: State)
    ensures Serialize(r) == [] && ReadParams(Serialize(r)) == r
  {
    Empty
  }

  /** Two of the directions the sort menu offers, by price and by update
      date, are not keys of the backend's sort schema, which drops them: such
      a sort reaches the listing as no sort at all. */
  lemma PriceSortDropped(path: Path)
    ensures ParseSort(Some(JObj(map["price_range.min" := JStr("asc")])), path) == Valid(Sort(None, None, None, None))
    ensures ParseSort(Some(JObj(map["updatedAt" := JStr("desc")])), path) == Valid(Sort(None, None, None, None))
  {
  }
}
