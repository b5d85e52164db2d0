/** The sync of one product URL and of the whole URL list.

    The upstream answers are parameters: `responses(k)` is what the `k`-th
    request for a URL gave. */
module ProductsService {
  import opened Wrappers
  import opened Json
  import opened Zod
  import opened Errors
  import opened ProductModel
  import opened ProductSchema
  import opened ProductsRepository
  import opened ApiUtils

  /** What one upstream request gave: a thrown error (network, HTTP status,
      proxy), or a response with its decoded body. */
  datatype Response = Threw(error: Error) | Responded(data: Json)

  const NullBodyMessage: string := "Cannot read properties of null (reading 'product')"

  /** `fetchShopifyProduct(url)` for one response: the body's `product` is
      validated without throwing. Reading `product` of a null body throws, and
      any other body without it validates `undefined`. */
  function Fetch(response: Response, co: Coercions): (r: Attempt<Parsed<Product>>)
    ensures response.Threw? ==> r == Failure(response.error)
    ensures response == Responded(JNull) ==> r.Failure? && r.error.kind == TypeError
    ensures response.Responded? && response.data != JNull ==> r == Success(ParseProduct(Member(response.data, "product"), co))
  {
    match response
    case Threw(e) => Failure(e)
    case Responded(JNull) => Failure(Thrown(TypeError, NullBodyMessage))
    case Responded(data) => Success(ParseProduct(Member(data, "product"), co))
  }

  /** The requests for one URL, with the retry defaults of the service. */
  function FetchWithRetry(responses: nat -> Response, co: Coercions): (r: Run<Parsed<Product>>)
    ensures 1 <= r.calls <= DefaultRetries + 1
    ensures |r.delays| == r.calls - 1
    ensures forall i :: 0 <= i < |r.delays| ==> r.delays[i] == DefaultBackoff * Pow2(i)
    ensures forall j: nat :: j < r.calls - 1 ==> Fetch(responses(j), co).Failure?
    ensures r.result.Ok? ==> Fetch(responses(r.calls - 1), co) == Success(r.result.value)
    ensures r.result.Err? ==> r.calls == DefaultRetries + 1 && Fetch(responses(DefaultRetries), co) == Failure(r.result.error)
  {
    Retry(k => Fetch(responses(k), co), DefaultRetries, DefaultBackoff)
  }

  /** The state of the collection after a step, and what the step returned or
      threw. A failed write leaves the collection as it was. */
  datatype Outcome = Outcome(store: Store, result: Result<StoredProduct, Error>)

  function Apply(store: Store, r: Result<(Store, StoredProduct), Error>): (o: Outcome)
    ensures r.Ok? ==> o == Outcome(r.value.0, Ok(r.value.1))
    ensures r.Err? ==> o == Outcome(store, Err(r.error))
  {
    match r
    case Ok((s, d)) => Outcome(s, Ok(d))
    case Err(e) => Outcome(store, Err(e))
  }

  /** `updateProductFromShopify(url)`. A payload that fails validation, and
      requests that keep failing, mark the document with that URL deleted; a
      valid payload is upserted with its `url` replaced by the synced one.
      The write's promise is returned, not awaited, so an error of either write
      is not caught here and reaches the caller. */
  function UpdateProductFromShopify(store: Store, url: string, responses: nat -> Response, co: Coercions): (o: Outcome)
    ensures var run := FetchWithRetry(responses, co);
      run.result.Ok? && run.result.value.Valid? ==>
        o == Apply(store, CreateOrUpdate(store, run.result.value.value.(url := Present(url))))
    ensures var run := FetchWithRetry(responses, co);
      !(run.result.Ok? && run.result.value.Valid?) ==> o == Apply(store, UpdateStatus(store, url, Deleted))
    ensures o.result.Err? ==> o.store == store
  {
    var run := FetchWithRetry(responses, co);
    match run.result
    case Ok(parsed) =>
      if parsed.Invalid? then Apply(store, UpdateStatus(store, url, Deleted))
      else Apply(store, CreateOrUpdate(store, parsed.value.(url := Present(url))))
    case Err(_) => Apply(store, UpdateStatus(store, url, Deleted))
  }

  /** No failure creates a document: when the payload is refused or the
      requests keep failing, the collection keeps its length and its ids and
      urls, and the only change possible is the status of the document with
      that URL. Without such a document, NotFound reaches the caller. */
  lemma FailureNeverCreates(store: Store, url: string, responses: nat -> Response, co: Coercions)
    requires ValidStore(store)
    requires var run := FetchWithRetry(responses, co); !(run.result.Ok? && run.result.value.Valid?)
    ensures var o := UpdateProductFromShopify(store, url, responses, co);
      && |o.store| == |store|
      && (forall j :: 0 <= j < |store| ==> o.store[j] == store[j] || o.store[j] == store[j].(status := Deleted))
      && ((forall j :: 0 <= j < |store| ==> store[j].url != Some(url)) ==> o.result == Err(NotFound()))
      && (o.result.Ok? ==> o.result.value.status == Deleted && o.result.value.url == Some(url))
  {
    UpdateStatusOnlyStatus(store, url, Deleted);
  }

  /** A valid payload is stored under the synced URL whatever `url` it
      carried, when the write succeeds. */
  lemma ValidPayloadTakesSyncUrl(store: Store, url: string, responses: nat -> Response, co: Coercions)
    requires var run := FetchWithRetry(responses, co); run.result.Ok? && run.result.value.Valid?
    requires var p := FetchWithRetry(responses, co).result.value.value;
      FindById(store, p.id).None? || store[FindById(store, p.id).value].updatedAt >= p.updatedAt
    requires UpdateProductFromShopify(store, url, responses, co).result.Ok?
    ensures UpdateProductFromShopify(store, url, responses, co).result.value.url == Some(url)
  {
  }

  /** A body without `product` is refused like any invalid payload. */
  lemma MissingProductMarksDeleted(store: Store, url: string, responses: nat -> Response, co: Coercions)
    requires responses(0) == Responded(JObj(map[]))
    ensures UpdateProductFromShopify(store, url, responses, co) == Apply(store, UpdateStatus(store, url, Deleted))
  {
    assert Fetch(responses(0), co) == Success(ParseProduct(None, co));
  }

  /** A step that succeeds keeps the collection valid; one that fails leaves
      it unchanged. */
  lemma UpdateKeepsValid(store: Store, url: string, responses: nat -> Response, co: Coercions)
    requires ValidStore(store)
    ensures ValidStore(UpdateProductFromShopify(store, url, responses, co).store)
  {
    var run := FetchWithRetry(responses, co);
    if run.result.Ok? && run.result.value.Valid? {
      var p := run.result.value.value.(url := Present(url));
      if CreateOrUpdate(store, p).Ok? {
        CreateOrUpdateKeepsValid(store, p);
      }
    } else {
      UpdateStatusOnlyStatus(store, url, Deleted);
    }
  }

  // ---------------------------------------------------------------------
  // Batch

  /** One line of the batch log. */
  datatype LogEntry =
    | Updated(url: string)
    | ValidationFailed(url: string, message: string)
    | FetchFailed(url: string, message: string)

  /** What the loop logs for one URL: success, or the error it caught, told
      apart by whether it is a ZodError. */
  function LogOf(url: string, result: Result<StoredProduct, Error>): (e: LogEntry)
    ensures e.url == url
    ensures e.Updated? <==> result.Ok?
  {
    match result
    case Ok(_) => Updated(url)
    case Err(err) =>
      if err.kind.ZodError? then ValidationFailed(url, err.message) else FetchFailed(url, err.message)
  }

  /** The collection and the log after syncing `urls` in order from `store`:
      every URL is synced once, in list order, and gets one log line,
      whether or not an earlier one failed. */
  function SyncAll(store: Store, urls: seq<string>, responses: string -> nat -> Response, co: Coercions): (r: (Store, seq<LogEntry>))
    ensures |r.1| == |urls|
    decreases |urls|
  {
    if |urls| == 0 then (store, [])
    else
      var before := SyncAll(store, urls[..|urls| - 1], responses, co);
      var last := urls[|urls| - 1];
      var o := UpdateProductFromShopify(before.0, last, responses(last), co);
      (o.store, before.1 + [LogOf(last, o.result)])
  }

  lemma LogsFollowUrls(before: seq<LogEntry>, e: LogEntry, urls: seq<string>)
    requires |urls| > 0 && |before| == |urls| - 1
    requires forall k :: 0 <= k < |before| ==> before[k].url == urls[..|urls| - 1][k]
    requires e.url == urls[|urls| - 1]
    ensures forall k :: 0 <= k < |urls| ==> (before + [e])[k].url == urls[k]
  {
  }

  /** The log has one line per URL, in the URLs' order. */
  lemma {:induction false} SyncAllLogsEveryUrl(store: Store, urls: seq<string>, responses: string -> nat -> Response, co: Coercions)
    ensures forall k :: 0 <= k < |urls| ==> SyncAll(store, urls, responses, co).1[k].url == urls[k]
    decreases |urls|
  {
    if |urls| > 0 {
      var n := |urls| - 1;
      SyncAllLogsEveryUrl(store, urls[..n], responses, co);
      var before := SyncAll(store, urls[..n], responses, co);
      var o := UpdateProductFromShopify(before.0, urls[n], responses(urls[n]), co);
      assert SyncAll(store, urls, responses, co).1 == before.1 + [LogOf(urls[n], o.result)];
      LogsFollowUrls(before.1, LogOf(urls[n], o.result), urls);
    }
  }

  /** Syncing keeps the collection valid, whatever fails along the way. */
  lemma {:induction false} SyncAllKeepsValid(store: Store, urls: seq<string>, responses: string -> nat -> Response, co: Coercions)
    requires ValidStore(store)
    ensures ValidStore(SyncAll(store, urls, responses, co).0)
    decreases |urls|
  {
    if |urls| > 0 {
      var before := SyncAll(store, urls[..|urls| - 1], responses, co);
      SyncAllKeepsValid(store, urls[..|urls| - 1], responses, co);
      UpdateKeepsValid(before.0, urls[|urls| - 1], responses(urls[|urls| - 1]), co);
    }
  }

  /** Syncing one more URL continues from the collection the earlier ones
      left, and adds its line to their log. */
  lemma SyncAllStep(store: Store, urls: seq<string>, i: nat, responses: string -> nat -> Response, co: Coercions)
    requires i < |urls|
    ensures var before := SyncAll(store, urls[..i], responses, co);
      var o := UpdateProductFromShopify(before.0, urls[i], responses(urls[i]), co);
      SyncAll(store, urls[..i + 1], responses, co) == (o.store, before.1 + [LogOf(urls[i], o.result)])
  {
    assert urls[..i + 1][..i] == urls[..i];
  }

  /** `updateAllProductsFromFile()` once the URL list is read: the URLs are
      synced one after another, in list order; an error on one URL is logged
      and the loop goes on with the next. */
  method UpdateAll(store: Store, urls: seq<string>, responses: string -> nat -> Response, co: Coercions)
    returns (s: Store, log: seq<LogEntry>)
    ensures (s, log) == SyncAll(store, urls, responses, co)
    ensures |log| == |urls|
    ensures forall k :: 0 <= k < |urls| ==> log[k].url == urls[k]
  {
    s := store;
    log := [];
    var i := 0;
    while i < |urls|
      invariant 0 <= i <= |urls|
      invariant (s, log) == SyncAll(store, urls[..i], responses, co)
    {
      var url := urls[i];
      var o := UpdateProductFromShopify(s, url, responses(url), co);
      SyncAllStep(store, urls, i, responses, co);
      s := o.store;
      log := log + [LogOf(url, o.result)];
      i := i + 1;
    }
    assert urls[..i] == urls;
    SyncAllLogsEveryUrl(store, urls, responses, co);
  }
}
