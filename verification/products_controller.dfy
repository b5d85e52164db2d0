/** The listing endpoint: the raw query string object is merged with the
    bracketed keys decoded from it, validated, and handed to the repository;
    the reply carries the parsed page and size and the repository's counts.

    The raw query is the object the framework's query-string parser builds:
    its own keys in order, each with a string or, for a repeated key, the
    list of its strings. */
module ProductsController {
  import opened Wrappers
  import opened Text
  import opened Json
  import opened Zod
  import opened Errors
  import opened ProductModel
  import opened QuerySchema
  import opened TransformQuery
  import opened ProductsRepository

  datatype RawValue = One(s: string) | Many(items: seq<string>)

  /** The keys of the raw query object with their values, in key order. */
  type RawQuery = seq<(string, RawValue)>

  /** A raw value as JSON, the way the spread copies it. */
  function RawJson(v: RawValue): Json {
    match v
    case One(s) => JStr(s)
    case Many(items) => JArr(seq(|items|, i requires 0 <= i < |items| => JStr(items[i])))
  }

  /** `String(value)` as `new URLSearchParams(record)` applies it: a list is
      joined with commas. */
  function ParamValue(v: RawValue): string {
    match v
    case One(s) => s
    case Many(items) => Join(items, ",")
  }

  /** `new URLSearchParams(query)`: one pair per key, in key order. */
  function SearchParams(raw: RawQuery): (entries: Entries)
    ensures |entries| == |raw|
    ensures forall i :: 0 <= i < |raw| ==> entries[i] == (raw[i].0, ParamValue(raw[i].1))
  {
    if |raw| == 0 then [] else [(raw[0].0, ParamValue(raw[0].1))] + SearchParams(raw[1..])
  }

  /** An object built key by key; a later key overwrites an earlier one. */
  function ObjectOf(fields: seq<(string, Json)>): map<string, Json>
    decreases |fields|
  {
    if |fields| == 0 then map[]
    else ObjectOf(fields[..|fields| - 1])[fields[|fields| - 1].0 := fields[|fields| - 1].1]
  }

  function RawFields(raw: RawQuery): (fields: seq<(string, Json)>)
    ensures |fields| == |raw|
    ensures forall i :: 0 <= i < |raw| ==> fields[i] == (raw[i].0, RawJson(raw[i].1))
  {
    if |raw| == 0 then [] else [(raw[0].0, RawJson(raw[0].1))] + RawFields(raw[1..])
  }

  /** A decoded record of strings as a JSON object. */
  function StringObject(m: map<string, string>): Json {
    JObj(map k | k in m :: JStr(m[k]))
  }

  /** `{ ...query, ...transformQuery(new URLSearchParams(query)) }`: the
      decoded `filter` and `sort` records are always present and replace any
      raw key of the same name. */
  function MergedQuery(raw: RawQuery): Json {
    var t := Transform(SearchParams(raw));
    JObj(ObjectOf(RawFields(raw))["filter" := StringObject(t.filter)]["sort" := StringObject(t.sort)])
  }

  /** The reply body of the listing. */
  datatype Listing = Listing(page: nat, limit: nat, total: nat, numPages: nat, hasMore: bool, data: Store)

  /** `getAllProducts(request)`: a query that fails validation throws its
      ZodError before the repository is consulted. */
  function GetAllProducts(raw: RawQuery, store: Store, text: TextMatch, co: Coercions): (r: Result<Listing, Error>)
    ensures r.Err? <==> ParseQuery(Some(MergedQuery(raw)), co).Invalid?
    ensures r.Err? ==> r.error == ZodFailure(ParseQuery(Some(MergedQuery(raw)), co).issues)
    ensures r.Ok? ==>
      var q := ParseQuery(Some(MergedQuery(raw)), co).value;
      var page := FindAll(store, q, text);
      && r.value.page == q.page && r.value.limit == q.limit
      && r.value.total == page.total && r.value.numPages == page.numPages
      && r.value.hasMore == page.hasMore && r.value.data == page.products
  {
    match ParseQuery(Some(MergedQuery(raw)), co)
    case Invalid(issues) => Err(ZodFailure(issues))
    case Valid(q) =>
      var page := FindAll(store, q, text);
      Ok(Listing(q.page, q.limit, page.total, page.numPages, page.hasMore, page.products))
  }

  /** The object built from fields holds exactly their keys. */
  lemma {:induction false} ObjectOfKeys(fields: seq<(string, Json)>, k: string)
    ensures k in ObjectOf(fields) <==> exists i :: 0 <= i < |fields| && fields[i].0 == k
    decreases |fields|
  {
    if |fields| > 0 {
      var n := |fields| - 1;
      var prefix := fields[..n];
      ObjectOfKeys(prefix, k);
      assert forall i :: 0 <= i < n ==> prefix[i] == fields[i];
    }
  }

  /** The value of a key is that of its last occurrence. */
  lemma {:induction false} ObjectOfLast(fields: seq<(string, Json)>, k: string, i: nat)
    requires i < |fields| && fields[i].0 == k
    requires forall j :: i < j < |fields| ==> fields[j].0 != k
    ensures k in ObjectOf(fields) && ObjectOf(fields)[k] == fields[i].1
    decreases |fields|
  {
    var n := |fields| - 1;
    if i < n {
      var prefix := fields[..n];
      assert prefix[i] == fields[i];
      ObjectOfLast(prefix, k, i);
      assert fields[n].0 != k;
    }
  }

  /** The object built from fields holds exactly their keys, each with the
      value of its last occurrence. */
  lemma ObjectOfLastWins(fields: seq<(string, Json)>, k: string)
    ensures k in ObjectOf(fields) <==> exists i :: 0 <= i < |fields| && fields[i].0 == k
    ensures forall i :: 0 <= i < |fields| && fields[i].0 == k && (forall j :: i < j < |fields| ==> fields[j].0 != k) ==>
      ObjectOf(fields)[k] == fields[i].1
  {
    ObjectOfKeys(fields, k);
    forall i | 0 <= i < |fields| && fields[i].0 == k && (forall j :: i < j < |fields| ==> fields[j].0 != k)
      ensures ObjectOf(fields)[k] == fields[i].1
    {
      ObjectOfLast(fields, k, i);
    }
  }

  /** The merge keeps every raw key other than `filter` and `sort`, with the
      value of its last occurrence, and adds no other key. */
  lemma MergeKeepsRawKeys(raw: RawQuery, k: string)
    requires k != "filter" && k != "sort"
    ensures Member(MergedQuery(raw), k).Some? <==> exists i :: 0 <= i < |raw| && raw[i].0 == k
    ensures forall i :: 0 <= i < |raw| && raw[i].0 == k && (forall j :: i < j < |raw| ==> raw[j].0 != k) ==>
      Member(MergedQuery(raw), k) == Some(RawJson(raw[i].1))
  {
    var fields := RawFields(raw);
    ObjectOfLastWins(fields, k);
  }

  /** The decoded records win over raw `filter` and `sort` keys: the query
      sees `filter` as the fields the bracketed keys name, whatever raw key
      `filter` held. */
  lemma DecodedRecordsWin(raw: RawQuery)
    ensures Member(MergedQuery(raw), "filter") == Some(StringObject(Transform(SearchParams(raw)).filter))
    ensures Member(MergedQuery(raw), "sort") == Some(StringObject(Transform(SearchParams(raw)).sort))
  {
  }

  /** A bracketed key of the raw query reaches the validated object as a
      field of `filter`, with the string of the last key naming it. */
  lemma FilterParamReachesQuery(raw: RawQuery, name: string, i: nat)
    requires i < |raw| && FilterKey(raw[i].0) == Some(name)
    requires forall j :: i < j < |raw| ==> FilterKey(raw[j].0) != Some(name)
    ensures Member(Member(MergedQuery(raw), "filter").value, name) == Some(JStr(ParamValue(raw[i].1)))
  {
    var entries := SearchParams(raw);
    TransformIsLastWins(entries, name);
    assert LastNaming(entries, FilterKey, name, i);
    var w: nat :| LastNaming(entries, FilterKey, name, w) && Transform(entries).filter[name] == entries[w].1;
    assert w == i;
  }

  /** Nothing of the store is read when validation fails: the same error is
      thrown whatever the collection holds. */
  lemma ParseFailureSkipsRepository(raw: RawQuery, s1: Store, s2: Store, text: TextMatch, co: Coercions)
    requires GetAllProducts(raw, s1, text, co).Err?
    ensures GetAllProducts(raw, s2, text, co) == GetAllProducts(raw, s1, text, co)
  {
  }

  /** Without `page` and `limit` keys the reply reports page 1 of size 10. */
  lemma DefaultPaging(raw: RawQuery, store: Store, text: TextMatch, co: Coercions)
    requires forall i :: 0 <= i < |raw| ==> raw[i].0 != "page" && raw[i].0 != "limit"
    requires GetAllProducts(raw, store, text, co).Ok?
    ensures GetAllProducts(raw, store, text, co).value.page == DefaultPage
    ensures GetAllProducts(raw, store, text, co).value.limit == DefaultLimit
  {
    MergeKeepsRawKeys(raw, "page");
    MergeKeepsRawKeys(raw, "limit");
  }

  /** A repeated key reaches the decoding as one pair, its values joined with
      commas. */
  lemma RepeatedKeyJoined()
    ensures SearchParams([("filter[text]", Many(["a", "b"]))]) == [("filter[text]", "a,b")]
  {
    assert ["a", "b"][1..] == ["b"];
    assert Join(["a", "b"], ",") == "a" + "," + Join(["b"], ",") == "a,b";
    assert ParamValue(Many(["a", "b"])) == "a,b";
  }

  /** The filter of no fields: every field absent. */
  const EmptyFilter: Filter := Filter(None, None, None, None, DateRange(None, None), DateRange(None, None), DateRange(None, None))

  /** Without a query string the merged object holds only the two decoded,
      empty records. */
  lemma EmptyMerge()
    ensures MergedQuery([]) == JObj(map["filter" := JObj(map[]), "sort" := JObj(map[])])
  {
    assert StringObject(map[]) == JObj(map[]);
  }

  lemma EmptyFilterParses(co: Coercions)
    ensures ParseFilter(Some(JObj(map[])), [Key("filter")], co) == Valid(EmptyFilter)
  {
    assert FilterFields(Some(JObj(map[])), [Key("filter")], co) == Valid(EmptyFilter);
  }

  /** A request without a query string lists page 1 of size 10 under an
      empty filter, so only published documents count. */
  lemma EmptyQueryString(store: Store, text: TextMatch, co: Coercions)
    ensures var page := FindAll(store, Query(DefaultPage, DefaultLimit, Some(Sort(None, None, None, None)), Some(EmptyFilter)), text);
      && GetAllProducts([], store, text, co) == Ok(Listing(1, 10, page.total, page.numPages, page.hasMore, page.products))
      && BuildFilterQuery(Some(EmptyFilter)).status == Published
  {
    var none := JObj(map[]);
    EmptyMerge();
    EmptyFilterParses(co);
    assert ParseSort(Some(none), [Key("sort")]) == Valid(Sort(None, None, None, None));
    assert ParseQuery(Some(MergedQuery([])), co) == Valid(Query(DefaultPage, DefaultLimit, Some(Sort(None, None, None, None)), Some(EmptyFilter)));
  }
}
