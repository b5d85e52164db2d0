/** The sync helpers: reading the list of product URLs, probing each URL, and
    retrying a failing call with exponential backoff.

    Network calls are parameters: a probe says whether a URL answered and with
    which `powered-by` header, and a retried call is a sequence of attempt
    outcomes indexed by the attempt number. Waiting is not modelled; the retry
    returns the delays it would have waited. */
module ApiUtils {
  import opened Wrappers
  import opened Text
  import opened Json
  import opened Errors

  // ---------------------------------------------------------------------
  // URL list

  /** What a probe of a URL gave: no answer (an error or the 5 s timeout), or
      an answer with its `powered-by` header. */
  datatype Probe = Unreachable | Reachable(poweredBy: Option<string>)

  /** One entry of `checkShopifyUrl`'s result. */
  datatype UrlCheck = UrlCheck(url: string, isValid: bool, shopify: bool)

  const ProductsSegment: string := "/products/"
  const NotAnArrayMessage: string := "O conteúdo do arquivo não é um array válido"

  /** The JSON endpoint of a product page: one trailing `/` is dropped and
      `.json` appended. */
  function Normalise(url: string): (r: string)
    ensures EndsWith(r, ".json")
    ensures EndsWith(url, "/") ==> r == url[..|url| - 1] + ".json"
    ensures !EndsWith(url, "/") ==> r == url + ".json"
  {
    var base := if EndsWith(url, "/") then url[..|url| - 1] else url;
    var r := base + ".json";
    assert r[|r| - 5..] == ".json";
    r
  }

  lemma NormaliseExample()
    ensures Normalise("https://x.com/products/a/") == "https://x.com/products/a.json"
  {
    assert EndsWith("https://x.com/products/a/", "/");
  }

  /** One URL checked: the endpoint is probed; an answer marks the entry valid
      under the endpoint's URL, and no answer keeps the URL as given. */
  function CheckUrl(url: string, probe: string -> Probe): (r: UrlCheck)
    ensures r.isValid <==> probe(Normalise(url)).Reachable?
    ensures r.isValid ==> r.url == Normalise(url)
    ensures !r.isValid ==> r.url == url && !r.shopify
    ensures r.shopify <==> probe(Normalise(url)) == Reachable(Some("Shopify"))
  {
    var endpoint := Normalise(url);
    match probe(endpoint)
    case Unreachable => UrlCheck(url, false, false)
    case Reachable(header) => UrlCheck(endpoint, true, header == Some("Shopify"))
  }

  /** `checkShopifyUrl(urls)`: one entry per URL, in the URLs' order. */
  function CheckShopifyUrl(urls: seq<string>, probe: string -> Probe): (r: seq<UrlCheck>)
    ensures |r| == |urls|
    ensures forall i :: 0 <= i < |urls| ==> r[i] == CheckUrl(urls[i], probe)
  {
    if |urls| == 0 then [] else [CheckUrl(urls[0], probe)] + CheckShopifyUrl(urls[1..], probe)
  }

  /** An entry of the file worth probing: a string that is not blank and
      contains `/products/`. */
  predicate Candidate(item: Json) {
    item.JStr? && Trim(item.s) != "" && Contains(item.s, ProductsSegment)
  }

  /** The candidate entries of the file, as strings, in file order. */
  function Candidates(items: seq<Json>): (r: seq<string>)
    ensures |r| <= |items|
    ensures forall s :: s in r ==> JStr(s) in items && Candidate(JStr(s))
    ensures forall i :: 0 <= i < |items| && Candidate(items[i]) ==> items[i].s in r
  {
    if |items| == 0 then []
    else (if Candidate(items[0]) then [items[0].s] else []) + Candidates(items[1..])
  }

  /** One unfolding of `Candidates`. */
  lemma {:induction false} CandidatesCons(items: seq<Json>)
    requires |items| > 0
    ensures Candidates(items) == (if Candidate(items[0]) then [items[0].s] else []) + Candidates(items[1..])
  {
  }

  /** One unfolding of `Candidates` over a concatenation. */
  lemma {:induction false} CandidatesConsAppend(a: seq<Json>, b: seq<Json>)
    requires |a| > 0
    ensures Candidates(a + b) == (if Candidate(a[0]) then [a[0].s] else []) + Candidates(a[1..] + b)
  {
    var ab := a + b;
    assert ab[0] == a[0] && ab[1..] == a[1..] + b;
    CandidatesCons(ab);
  }

  /** The inductive step of `CandidatesInOrder`: the first entry of `a` goes
      in front of both sides. */
  lemma {:induction false} CandidatesInOrderStep(a: seq<Json>, b: seq<Json>)
    requires |a| > 0
    requires Candidates(a[1..] + b) == Candidates(a[1..]) + Candidates(b)
    ensures Candidates(a + b) == Candidates(a) + Candidates(b)
  {
    CandidatesConsAppend(a, b);
    CandidatesCons(a);
    Concat3(if Candidate(a[0]) then [a[0].s] else [], Candidates(a[1..]), Candidates(b));
  }

  lemma Concat3<T>(p: seq<T>, q: seq<T>, t: seq<T>)
    ensures p + (q + t) == (p + q) + t
  {
  }

  /** The candidates keep the file's order: those of a file split in two are
      the first part's followed by the second part's. */
  lemma {:induction false} CandidatesInOrder(a: seq<Json>, b: seq<Json>)
    ensures Candidates(a + b) == Candidates(a) + Candidates(b)
    decreases |a|
  {
    if |a| == 0 {
      assert a + b == b;
    } else {
      CandidatesInOrder(a[1..], b);
      CandidatesInOrderStep(a, b);
    }
  }

  /** A single entry yields its string exactly when it is a candidate. */
  lemma CandidatesOfOne(x: Json)
    ensures Candidates([x]) == if Candidate(x) then [x.s] else []
  {
    assert [x][1..] == [];
  }

  /** The URLs of valid Shopify entries, in order. */
  function ShopifyUrls(checks: seq<UrlCheck>): (r: seq<string>)
    ensures |r| <= |checks|
    ensures forall s :: s in r <==> exists i :: 0 <= i < |checks| && checks[i].isValid && checks[i].shopify && checks[i].url == s
  {
    if |checks| == 0 then []
    else
      var rest := ShopifyUrls(checks[1..]);
      assert forall i :: 1 <= i < |checks| ==> checks[i] == checks[1..][i - 1];
      if checks[0].isValid && checks[0].shopify then [checks[0].url] + rest else rest
  }

  /** The endpoints of the candidates whose probe answered as Shopify, in
      order: what the URL list should hold, stated without the checks. */
  function ShopifyEndpoints(urls: seq<string>, probe: string -> Probe): seq<string> {
    if |urls| == 0 then []
    else
      (if probe(Normalise(urls[0])) == Reachable(Some("Shopify")) then [Normalise(urls[0])] else [])
      + ShopifyEndpoints(urls[1..], probe)
  }

  /** Filtering the checks keeps exactly the Shopify endpoints, in order. */
  lemma {:induction false} ShopifyUrlsOfChecks(urls: seq<string>, probe: string -> Probe)
    ensures ShopifyUrls(CheckShopifyUrl(urls, probe)) == ShopifyEndpoints(urls, probe)
    decreases |urls|
  {
    if |urls| > 0 {
      var checks := CheckShopifyUrl(urls, probe);
      assert checks[1..] == CheckShopifyUrl(urls[1..], probe);
      ShopifyUrlsOfChecks(urls[1..], probe);
    }
  }

  /** `readUrlsFromFile()` once the file has been read: `content` is the parsed
      text, or None when `JSON.parse` throws. */
  function ReadUrls(content: Option<Json>, probe: string -> Probe): (r: Result<seq<string>, Error>)
    ensures content.None? ==> r == Err(Thrown(SyntaxError, ""))
    ensures content.Some? && !content.value.JArr? ==> r == Err(Thrown(PlainError, NotAnArrayMessage))
    ensures content.Some? && content.value.JArr? ==> r == Ok(ShopifyEndpoints(Candidates(content.value.items), probe))
    ensures r.Ok? ==> forall u :: u in r.value ==> EndsWith(u, ".json")
  {
    match content
    case None => Err(Thrown(SyntaxError, ""))
    case Some(JArr(items)) =>
      var checks := CheckShopifyUrl(Candidates(items), probe);
      ShopifyUrlsOfChecks(Candidates(items), probe);
      Ok(ShopifyUrls(checks))
    case Some(_) => Err(Thrown(PlainError, NotAnArrayMessage))
  }

  /** Every URL read is the endpoint of a candidate entry of the file, and the
      probe of that endpoint answered as Shopify. */
  lemma {:induction false} ShopifyEndpointsSound(urls: seq<string>, probe: string -> Probe, u: string)
    requires u in ShopifyEndpoints(urls, probe)
    ensures exists c :: c in urls && u == Normalise(c) && probe(u) == Reachable(Some("Shopify"))
    decreases |urls|
  {
    if u == Normalise(urls[0]) && probe(u) == Reachable(Some("Shopify")) {
      assert urls[0] in urls;
    } else {
      ShopifyEndpointsSound(urls[1..], probe, u);
      var c :| c in urls[1..] && u == Normalise(c) && probe(u) == Reachable(Some("Shopify"));
      assert c in urls;
    }
  }

  // ---------------------------------------------------------------------
  // Retry

  const DefaultRetries: nat := 3
  const DefaultBackoff: nat := 300

  /** The outcome of one call of the retried function. */
  datatype Attempt<+T> = Success(value: T) | Failure(error: Error)

  /** A retried call: its result, how many times the function was called, and
      the delays waited between calls, in milliseconds. */
  datatype Run<+T> = Run(result: Result<T, Error>, calls: nat, delays: seq<nat>)

  function Pow2(k: nat): (r: nat)
    ensures r >= 1
  {
    if k == 0 then 1 else 2 * Pow2(k - 1)
  }

  /** `retryWithExponentialBackoff(fn, retries, backoff)` from the attempt
      numbered `first`: the call is made; a failure with retries left waits
      `backoff` and retries with one retry fewer and the backoff doubled. */
  function RetryFrom<T>(attempts: nat -> Attempt<T>, first: nat, retries: nat, backoff: nat): (r: Run<T>)
    ensures 1 <= r.calls <= retries + 1
    ensures |r.delays| == r.calls - 1
    ensures forall i :: 0 <= i < |r.delays| ==> r.delays[i] == backoff * Pow2(i)
    ensures forall j: nat :: first <= j < first + r.calls - 1 ==> attempts(j).Failure?
    ensures r.result.Ok? <==> attempts(first + r.calls - 1).Success?
    ensures r.result.Ok? ==> r.result.value == attempts(first + r.calls - 1).value
    ensures r.result.Err? ==> r.calls == retries + 1 && r.result.error == attempts(first + retries).error
    decreases retries
  {
    match attempts(first)
    case Success(v) => Run(Ok(v), 1, [])
    case Failure(e) =>
      if retries > 0 then
        var rest := RetryFrom(attempts, first + 1, retries - 1, backoff * 2);
        forall i | 0 <= i < |rest.delays| ensures rest.delays[i] == backoff * Pow2(i + 1) {
          DoubledBackoff(backoff, i);
        }
        Run(rest.result, rest.calls + 1, [backoff] + rest.delays)
      else Run(Err(e), 1, [])
  }

  lemma DoubledBackoff(backoff: nat, i: nat)
    ensures (backoff * 2) * Pow2(i) == backoff * Pow2(i + 1)
  {
  }

  /** `retryWithExponentialBackoff(fn, retries, backoff)`: at most
      `retries + 1` calls, waiting `backoff · 2^i` before retry `i + 1`; the
      result is that of the first call that succeeds, or the error of the
      last call. */
  function Retry<T>(attempts: nat -> Attempt<T>, retries: nat, backoff: nat): (r: Run<T>)
    ensures 1 <= r.calls <= retries + 1
    ensures |r.delays| == r.calls - 1
    ensures forall i :: 0 <= i < |r.delays| ==> r.delays[i] == backoff * Pow2(i)
    ensures forall j: nat :: j < r.calls - 1 ==> attempts(j).Failure?
    ensures r.result.Ok? ==> attempts(r.calls - 1) == Success(r.result.value)
    ensures r.result.Err? ==> r.calls == retries + 1 && attempts(retries) == Failure(r.result.error)
  {
    RetryFrom(attempts, 0, retries, backoff)
  }

  /** The first success within `retries + 1` attempts is returned, after
      exactly that many calls; with none the last failure is rethrown. */
  lemma RetryFirstSuccess<T>(attempts: nat -> Attempt<T>, retries: nat, backoff: nat, k: nat)
    requires k <= retries && attempts(k).Success?
    requires forall j :: 0 <= j < k ==> attempts(j).Failure?
    ensures Retry(attempts, retries, backoff) == Run(Ok(attempts(k).value), k + 1, seq(k, i requires 0 <= i < k => backoff * Pow2(i)))
  {
    var r := Retry(attempts, retries, backoff);
    var last: nat := r.calls - 1;
    assert last < k ==> attempts(last).Failure?;
    assert k < last ==> attempts(k).Failure?;
  }

  /** Two failures and then a success: three calls, after waiting 300 ms and
      then 600 ms. */
  lemma RetryExample(attempts: nat -> Attempt<int>)
    requires attempts(0).Failure? && attempts(1).Failure? && attempts(2) == Success(7)
    ensures Retry(attempts, DefaultRetries, DefaultBackoff) == Run(Ok(7), 3, [300, 600])
  {
    RetryFirstSuccess(attempts, DefaultRetries, DefaultBackoff, 2);
    assert seq(2, i requires 0 <= i < 2 => DefaultBackoff * Pow2(i)) == [300, 600];
  }
}
