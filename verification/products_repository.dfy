/** The product collection and the repository over it: the filter compiled
    into a query document, paging, lookup by id and by url, the
    upsert keyed by id with its staleness test, and the status update.

    The collection is a sequence of documents in insertion order. Full-text
    search is a parameter: whether a document matches a search string is not
    modelled. */
module ProductsRepository {
  import opened Wrappers
  import opened ProductModel
  import opened ProductSchema
  import opened QuerySchema
  import opened Errors

  type Store = seq<StoredProduct>

  /** Whether a document matches a `$text` search string. */
  type TextMatch = (StoredProduct, string) -> bool

  datatype DateField = CreatedAt | PublishedAt | UpdatedAt

  /** A range condition on one date path: `{ $gte, $lte }`, each optional. */
  datatype Bounds = Bounds(gte: Option<int>, lte: Option<int>)

  /** The query document `buildFilterQuery` returns. Each field is one of its
      keys (`$text`, `price_range.min`, `price_range.max`, `status`,
      `created_at`, `published_at`, `updated_at`); None leaves the key out. */
  datatype FilterQuery = FilterQuery(
    text: Option<string>,
    minPrice: Option<real>,
    maxPrice: Option<real>,
    status: Status,
    created: Option<Bounds>,
    published: Option<Bounds>,
    updated: Option<Bounds>)

  function DateOf(d: StoredProduct, field: DateField): int {
    match field
    case CreatedAt => d.createdAt
    case PublishedAt => d.publishedAt
    case UpdatedAt => d.updatedAt
  }

  function Range(f: Filter, field: DateField): DateRange {
    match field
    case CreatedAt => f.created
    case PublishedAt => f.published
    case UpdatedAt => f.updated
  }

  function BoundsOn(q: FilterQuery, field: DateField): Option<Bounds> {
    match field
    case CreatedAt => q.created
    case PublishedAt => q.published
    case UpdatedAt => q.updated
  }

  /** The condition on one date path: present when either end of the range is
      given, with a bound for exactly the ends that are. */
  function DateBounds(range: DateRange): (r: Option<Bounds>)
    ensures r.Some? <==> range.start.Some? || range.end.Some?
    ensures r.Some? ==> r.value.gte == range.start && r.value.lte == range.end
  {
    if range.start.Some? || range.end.Some? then
      Some(Bounds(if range.start.Some? then range.start else None, if range.end.Some? then range.end else None))
    else None
  }

  /** The status a listing asks for: the filter's, or published. */
  function WantedStatus(filter: Option<Filter>): Status {
    if filter.Some? && filter.value.status.Some? then filter.value.status.value else Published
  }

  /** `buildFilterQuery(filter)`: a non-empty text becomes a text search; a
      given price bound, zero included, bounds the stored price range; the
      status defaults to published; each date range is compiled on its own. */
  function BuildFilterQuery(filter: Option<Filter>): (r: FilterQuery)
    ensures r.text.Some? <==> filter.Some? && filter.value.text.Some? && filter.value.text.value != ""
    ensures r.text.Some? ==> r.text == filter.value.text
    ensures r.minPrice == (if filter.Some? then filter.value.minPrice else None)
    ensures r.maxPrice == (if filter.Some? then filter.value.maxPrice else None)
    ensures filter.None? || filter.value.status.None? ==> r.status == Published
    ensures filter.Some? && filter.value.status.Some? ==> r.status == filter.value.status.value
    ensures forall field :: BoundsOn(r, field) == if filter.Some? then DateBounds(Range(filter.value, field)) else None
  {
    match filter
    case None => FilterQuery(None, None, None, Published, None, None, None)
    case Some(f) =>
      FilterQuery(
        if f.text.Some? && f.text.value != "" then f.text else None,
        f.minPrice,
        f.maxPrice,
        WantedStatus(filter),
        DateBounds(f.created),
        DateBounds(f.published),
        DateBounds(f.updated))
  }

  /** How the store evaluates a query document against a document. */
  predicate Matches(d: StoredProduct, q: FilterQuery, text: TextMatch) {
    && (q.text.Some? ==> text(d, q.text.value))
    && (q.minPrice.Some? ==> AtLeast(d.priceRange.min, q.minPrice.value))
    && (q.maxPrice.Some? ==> AtMost(d.priceRange.max, q.maxPrice.value))
    && d.status == q.status
    && InBounds(d.createdAt, q.created)
    && InBounds(d.publishedAt, q.published)
    && InBounds(d.updatedAt, q.updated)
  }

  predicate InBounds(t: int, b: Option<Bounds>) {
    b.Some? ==> (b.value.gte.Some? ==> t >= b.value.gte.value) && (b.value.lte.Some? ==> t <= b.value.lte.value)
  }

  /** What a filter asks of a document, stated field by field. */
  predicate Selects(filter: Option<Filter>, d: StoredProduct, text: TextMatch) {
    && d.status == WantedStatus(filter)
    && (filter.Some? ==>
      var f := filter.value;
      && (f.text.Some? && f.text.value != "" ==> text(d, f.text.value))
      && (f.minPrice.Some? ==> AtLeast(d.priceRange.min, f.minPrice.value))
      && (f.maxPrice.Some? ==> AtMost(d.priceRange.max, f.maxPrice.value))
      && (forall field :: Range(f, field).start.Some? ==> DateOf(d, field) >= Range(f, field).start.value)
      && (forall field :: Range(f, field).end.Some? ==> DateOf(d, field) <= Range(f, field).end.value))
  }

  /** A document matches the compiled filter exactly when the filter selects it. */
  lemma BuildFilterQueryMeaning(filter: Option<Filter>, d: StoredProduct, text: TextMatch)
    ensures Matches(d, BuildFilterQuery(filter), text) <==> Selects(filter, d, text)
  {
    if filter.Some? {
      var f := filter.value;
      var q := BuildFilterQuery(filter);
      assert BoundsOn(q, CreatedAt) == DateBounds(f.created);
      assert BoundsOn(q, PublishedAt) == DateBounds(f.published);
      assert BoundsOn(q, UpdatedAt) == DateBounds(f.updated);
      if Matches(d, q, text) {
        forall field ensures
          && (Range(f, field).start.Some? ==> DateOf(d, field) >= Range(f, field).start.value)
          && (Range(f, field).end.Some? ==> DateOf(d, field) <= Range(f, field).end.value)
        {
          match field
          case CreatedAt =>
          case PublishedAt =>
          case UpdatedAt =>
        }
      }
      if Selects(filter, d, text) {
        assert Range(f, CreatedAt) == f.created;
        assert Range(f, PublishedAt) == f.published;
        assert Range(f, UpdatedAt) == f.updated;
      }
    }
  }

  /** With no status asked for, only published documents are listed. */
  lemma DefaultsToPublished(filter: Option<Filter>, d: StoredProduct, text: TextMatch)
    requires filter.None? || filter.value.status.None?
    requires Matches(d, BuildFilterQuery(filter), text)
    ensures d.status == Published
  {
  }

  // ---------------------------------------------------------------------
  // Listing

  /** The documents of the store that match, in store order. */
  function Select(store: Store, query: FilterQuery, text: TextMatch): (r: Store)
    ensures |r| <= |store|
    ensures forall i :: 0 <= i < |r| ==> r[i] in store && Matches(r[i], query, text)
    ensures forall d :: d in store && Matches(d, query, text) ==> d in r
  {
    if |store| == 0 then []
    else (if Matches(store[0], query, text) then [store[0]] else []) + Select(store[1..], query, text)
  }

  datatype Page = Page(products: Store, total: nat, numPages: nat, hasMore: bool)

  /** `Math.ceil(total / limit)` for a positive limit. */
  function CeilDiv(total: nat, limit: nat): (r: nat)
    requires limit > 0
    ensures r * limit >= total
    ensures r > 0 ==> (r - 1) * limit < total
  {
    (total + limit - 1) / limit
  }

  function Min(a: nat, b: nat): nat {
    if a <= b then a else b
  }

  /** `findAll(query)`: the filter is compiled and counted over the whole
      store; the page is the window of `limit` matches after the first
      `(page - 1) * limit`. The sort keys the query allows are not paths of
      the stored documents, so sorting leaves the store order as it is. */
  function FindAll(store: Store, q: Query, text: TextMatch): (r: Page)
    requires q.page > 0 && q.limit > 0
    ensures r.total == |Select(store, BuildFilterQuery(q.filter), text)|
    ensures |r.products| <= q.limit
    ensures forall i :: 0 <= i < |r.products| ==> r.products[i] in store && Matches(r.products[i], BuildFilterQuery(q.filter), text)
    ensures r.numPages * q.limit >= r.total && (r.numPages > 0 ==> (r.numPages - 1) * q.limit < r.total)
    ensures r.hasMore <==> r.total > q.page * q.limit
  {
    var matches := Select(store, BuildFilterQuery(q.filter), text);
    var total := |matches|;
    var skip := (q.page - 1) * q.limit;
    var numPages := CeilDiv(total, q.limit);
    var hasMore := numPages > q.page;
    HasMoreIff(total, q.limit, q.page);
    var lo := Min(skip, total);
    var hi := Min(skip + q.limit, total);
    assert forall i :: 0 <= i < hi - lo ==> matches[lo..hi][i] == matches[lo + i];
    Page(matches[lo..hi], total, numPages, hasMore)
  }

  /** `numPages > page` holds exactly when more matches exist than the pages up
      to this one hold. */
  lemma HasMoreIff(total: nat, limit: nat, page: nat)
    requires limit > 0
    ensures CeilDiv(total, limit) > page <==> total > page * limit
  {
    var n := CeilDiv(total, limit);
    if n > page {
      assert n >= page + 1;
      assert (n - 1) * limit >= page * limit by {
        MultiplyMonotone(page, n - 1, limit);
      }
    } else {
      MultiplyMonotone(n, page, limit);
    }
  }

  lemma MultiplyMonotone(a: nat, b: nat, c: nat)
    requires a <= b
    ensures a * c <= b * c
  {
  }

  /** The page of matches skips the earlier pages and keeps store order. */
  lemma FindAllWindow(store: Store, q: Query, text: TextMatch)
    requires q.page > 0 && q.limit > 0
    ensures var matches := Select(store, BuildFilterQuery(q.filter), text);
      var skip := (q.page - 1) * q.limit;
      FindAll(store, q, text).products == if skip >= |matches| then [] else matches[skip..Min(skip + q.limit, |matches|)]
  {
  }

  /** The count does not depend on which page is asked for. */
  lemma TotalIgnoresPaging(store: Store, q1: Query, q2: Query, text: TextMatch)
    requires q1.page > 0 && q1.limit > 0 && q2.page > 0 && q2.limit > 0
    requires q1.filter == q2.filter
    ensures FindAll(store, q1, text).total == FindAll(store, q2, text).total
  {
  }

  /** 25 matches at 10 per page: three pages, and page 3 is the last. */
  lemma PagingExample()
    ensures CeilDiv(25, 10) == 3
    ensures !(CeilDiv(25, 10) > 3)
    ensures (3 - 1) * 10 == 20
  {
  }

  // ---------------------------------------------------------------------
  // Lookup

  /** `findOne({ id })`: the first document with that id. */
  function FindById(store: Store, id: real): (r: Option<nat>)
    ensures r.Some? ==> r.value < |store| && store[r.value].id == id
    ensures r.Some? ==> forall j :: 0 <= j < r.value ==> store[j].id != id
    ensures r.None? ==> forall j :: 0 <= j < |store| ==> store[j].id != id
  {
    if |store| == 0 then None
    else if store[0].id == id then Some(0)
    else match FindById(store[1..], id)
      case Some(i) => Some(i + 1)
      case None => None
  }

  /** `findOne({ url })`: the first document with that url. */
  function FindByUrl(store: Store, url: string): (r: Option<nat>)
    ensures r.Some? ==> r.value < |store| && store[r.value].url == Some(url)
    ensures r.Some? ==> forall j :: 0 <= j < r.value ==> store[j].url != Some(url)
    ensures r.None? ==> forall j :: 0 <= j < |store| ==> store[j].url != Some(url)
  {
    if |store| == 0 then None
    else if store[0].url == Some(url) then Some(0)
    else match FindByUrl(store[1..], url)
      case Some(i) => Some(i + 1)
      case None => None
  }

  // ---------------------------------------------------------------------
  // Writing

  /** The variant paths the document schema keeps. */
  function StoreVariant(v: Variant): StoredVariant {
    StoredVariant(v.id, v.productId, v.title, v.price, v.compareAtPrice, v.createdAt, v.updatedAt,
      v.imageId, v.priceCurrency, v.compareAtPriceCurrency)
  }

  function StoreVariants(vs: seq<Variant>): (r: seq<StoredVariant>)
    ensures |r| == |vs|
    ensures forall i :: 0 <= i < |vs| ==> r[i] == StoreVariant(vs[i])
  {
    if |vs| == 0 then [] else [StoreVariant(vs[0])] + StoreVariants(vs[1..])
  }

  /** `Object.assign(document, { ...payload, price_range })`: every path the
      payload sets is overwritten and the price range recomputed; a payload
      without `url` leaves the stored one, and the status is not part of the
      payload so it is kept. */
  function Assign(d: StoredProduct, p: Product): (r: StoredProduct)
    ensures r.status == d.status
    ensures r.priceRange == CalculatePriceRange(p.variants)
    ensures p.url.Absent? ==> r.url == d.url
    ensures p.url.Present? ==> r.url == Some(p.url.value)
    ensures p.url.Null? ==> r.url.None?
    ensures !p.url.Absent? ==> r == NewDocument(p).(status := d.status)
    ensures p.url.Absent? ==> r == NewDocument(p).(status := d.status, url := d.url)
  {
    StoredProduct(
      p.id,
      match p.url
      case Absent => d.url
      case Null => None
      case Present(u) => Some(u),
      p.title, p.vendor, p.productType, d.status, p.createdAt, p.updatedAt, p.publishedAt,
      p.templateSuffix, p.tags, StoreVariants(p.variants), p.images, p.image,
      CalculatePriceRange(p.variants))
  }

  /** `ProductModel.create({ ...payload, price_range })`: a new document with
      the default status. */
  function NewDocument(p: Product): (r: StoredProduct)
    ensures r.status == DefaultStatus
    ensures r.priceRange == CalculatePriceRange(p.variants)
    ensures r.id == p.id && r.updatedAt == p.updatedAt
    ensures r.url == (if p.url.Present? then Some(p.url.value) else None)
    ensures && r.title == p.title && r.vendor == p.vendor && r.productType == p.productType
            && r.createdAt == p.createdAt && r.publishedAt == p.publishedAt
            && r.templateSuffix == p.templateSuffix && r.tags == p.tags
            && r.images == p.images && r.image == p.image
    ensures r.variants == StoreVariants(p.variants)
  {
    StoredProduct(
      p.id, if p.url.Present? then Some(p.url.value) else None,
      p.title, p.vendor, p.productType, DefaultStatus, p.createdAt, p.updatedAt, p.publishedAt,
      p.templateSuffix, p.tags, StoreVariants(p.variants), p.images, p.image,
      CalculatePriceRange(p.variants))
  }

  /** Some document other than the one at `except` has the id or the url of `d`. */
  predicate Clashes(store: Store, d: StoredProduct, except: int) {
    exists j :: 0 <= j < |store| && j != except && (store[j].id == d.id || store[j].url == d.url)
  }

  /** The error the schema check reports; its text is not modelled. */
  function ValidationFailure(): Error {
    Thrown(MongooseValidationError, "")
  }

  /** The error a unique index reports; its text is not modelled. */
  function DuplicateKey(): Error {
    Thrown(DuplicateKeyError, "")
  }

  /** `document.save()` of the document at `i` (or a new one appended when `i`
      is the store's length): the schema check first, then the unique indexes. */
  function Save(store: Store, i: nat, d: StoredProduct): (r: Result<(Store, StoredProduct), Error>)
    requires i <= |store|
    ensures r.Ok? <==> Accepted(d) && !Clashes(store, d, i)
    ensures !Accepted(d) ==> r == Err(ValidationFailure())
    ensures Accepted(d) && Clashes(store, d, i) ==> r == Err(DuplicateKey())
    ensures r.Ok? ==> r.value.1 == d && |r.value.0| == (if i == |store| then |store| + 1 else |store|)
    ensures r.Ok? ==> r.value.0[i] == d && forall j :: 0 <= j < |store| && j != i ==> r.value.0[j] == store[j]
  {
    if !Accepted(d) then Err(ValidationFailure())
    else if Clashes(store, d, i) then Err(DuplicateKey())
    else if i == |store| then Ok((store + [d], d))
    else Ok((store[i := d], d))
  }

  /** A save that succeeds keeps the collection valid. */
  lemma SaveKeepsValid(store: Store, i: nat, d: StoredProduct)
    requires i <= |store| && ValidStore(store)
    requires Save(store, i, d).Ok?
    ensures ValidStore(Save(store, i, d).value.0)
  {
    var s := Save(store, i, d).value.0;
    forall a, b | 0 <= a < b < |s| ensures s[a].id != s[b].id && s[a].url != s[b].url {
      if a == i {
        assert !(store[b].id == d.id || store[b].url == d.url);
      } else if b == i {
        assert !(store[a].id == d.id || store[a].url == d.url);
      }
    }
  }

  /** `createOrUpdate(payload)`. A document with the payload's id that was
      last updated strictly before the payload is returned unchanged; any
      other one is overwritten from the payload. Without such a document a
      new one is created. */
  function CreateOrUpdate(store: Store, p: Product): (r: Result<(Store, StoredProduct), Error>)
    ensures FindById(store, p.id).None? ==> r == Save(store, |store|, NewDocument(p))
    ensures FindById(store, p.id).Some? && store[FindById(store, p.id).value].updatedAt < p.updatedAt ==>
      r == Ok((store, store[FindById(store, p.id).value]))
    ensures FindById(store, p.id).Some? && store[FindById(store, p.id).value].updatedAt >= p.updatedAt ==>
      r == Save(store, FindById(store, p.id).value, Assign(store[FindById(store, p.id).value], p))
    ensures r.Err? ==> r.error.kind in {MongooseValidationError, DuplicateKeyError}
  {
    match FindById(store, p.id)
    case None => Save(store, |store|, NewDocument(p))
    case Some(i) =>
      if store[i].updatedAt < p.updatedAt then Ok((store, store[i]))
      else Save(store, i, Assign(store[i], p))
  }

  /** An upsert that succeeds keeps the collection valid. */
  lemma CreateOrUpdateKeepsValid(store: Store, p: Product)
    requires ValidStore(store)
    requires CreateOrUpdate(store, p).Ok?
    ensures ValidStore(CreateOrUpdate(store, p).value.0)
  {
    match FindById(store, p.id)
    case None => SaveKeepsValid(store, |store|, NewDocument(p));
    case Some(i) =>
      if store[i].updatedAt >= p.updatedAt {
        SaveKeepsValid(store, i, Assign(store[i], p));
      }
  }

  /** An unknown id inserts one document at the end, published, with the
      price range of the payload's variants; the others are untouched. */
  lemma CreateAppends(store: Store, p: Product)
    requires FindById(store, p.id).None?
    requires CreateOrUpdate(store, p).Ok?
    ensures var s := CreateOrUpdate(store, p).value.0;
      && |s| == |store| + 1 && s[..|store|] == store
      && s[|store|].status == Published
      && s[|store|].priceRange == CalculatePriceRange(p.variants)
      && s[|store|].id == p.id
  {
    var s := CreateOrUpdate(store, p).value.0;
    assert s == store + [NewDocument(p)];
  }

  /** Assigning a payload a second time changes nothing. */
  lemma AssignIdempotent(d: StoredProduct, p: Product)
    ensures Assign(Assign(d, p), p) == Assign(d, p)
    ensures Assign(NewDocument(p), p) == NewDocument(p)
  {
  }

  /** After a save the document is found by its id where it was saved, and
      saving it again there succeeds without change. */
  lemma SaveAgain(store: Store, i: nat, d: StoredProduct)
    requires i <= |store| && Save(store, i, d).Ok?
    ensures var s := Save(store, i, d).value.0;
      FindById(s, d.id) == Some(i) && Save(s, i, d) == Ok((s, d))
  {
    var s := Save(store, i, d).value.0;
    assert s[i] == d;
    forall j | 0 <= j < |s| && j != i ensures s[j].id != d.id && s[j].url != d.url {
      assert s[j] == store[j];
    }
    if i == |store| {
      assert s == store + [d];
    } else {
      assert s == store[i := d];
    }
    assert s[i := d] == s;
  }

  /** Upserting the same payload twice changes nothing the second time. */
  lemma CreateOrUpdateIdempotent(store: Store, p: Product)
    requires CreateOrUpdate(store, p).Ok?
    ensures var s := CreateOrUpdate(store, p).value.0;
      CreateOrUpdate(s, p).Ok? && CreateOrUpdate(s, p).value.0 == s
  {
    AssignIdempotent(if FindById(store, p.id).Some? then store[FindById(store, p.id).value] else NewDocument(p), p);
    match FindById(store, p.id)
    case None =>
      SaveAgain(store, |store|, NewDocument(p));
    case Some(i) =>
      if store[i].updatedAt >= p.updatedAt {
        SaveAgain(store, i, Assign(store[i], p));
      }
  }

  /** `updateStatus(url, status)`: the first document with the url gets the
      status; without one, NotFound is thrown. */
  function UpdateStatus(store: Store, url: string, status: Status): (r: Result<(Store, StoredProduct), Error>)
    ensures FindByUrl(store, url).None? ==> r == Err(NotFound())
    ensures FindByUrl(store, url).Some? ==>
      r == Save(store, FindByUrl(store, url).value, store[FindByUrl(store, url).value].(status := status))
  {
    match FindByUrl(store, url)
    case None => Err(NotFound())
    case Some(i) => Save(store, i, store[i].(status := status))
  }

  /** In a valid collection the status update succeeds exactly when a document
      has the url, and it changes that document's status and nothing else. */
  lemma UpdateStatusOnlyStatus(store: Store, url: string, status: Status)
    requires ValidStore(store)
    ensures UpdateStatus(store, url, status).Ok? <==> exists j :: 0 <= j < |store| && store[j].url == Some(url)
    ensures UpdateStatus(store, url, status).Ok? ==>
      var s := UpdateStatus(store, url, status).value.0;
      var i := FindByUrl(store, url).value;
      && |s| == |store|
      && s[i] == store[i].(status := status)
      && (forall j :: 0 <= j < |store| && j != i ==> s[j] == store[j])
      && ValidStore(s)
  {
    match FindByUrl(store, url)
    case None =>
    case Some(i) =>
      var d := store[i].(status := status);
      assert Accepted(d) by {
        assert Accepted(store[i]);
      }
      assert !Clashes(store, d, i) by {
        forall j | 0 <= j < |store| && j != i ensures store[j].id != d.id && store[j].url != d.url {
          if j < i {
            assert store[j].id != store[i].id && store[j].url != store[i].url;
          } else {
            assert store[i].id != store[j].id && store[i].url != store[j].url;
          }
        }
      }
      SaveKeepsValid(store, i, d);
  }
}
