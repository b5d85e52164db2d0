# shopify-products in Dafny

A model of the core of the shopify-products catalogue and proofs about it.
The backend (Fastify, Mongoose, Zod) keeps a Mongo collection of Shopify
products, refreshes it from a list of product URLs and serves a paginated,
filtered and sorted listing. The frontend (Next.js, react-query) reads and
writes the listing's filters in the URL, loads pages as the user scrolls and
shows each product as a card.

The model is functional. Every request, stored document and query is an
immutable datatype, and every operation is a pure function. The only method
is the batch sync loop, which carries a loop invariant over the processed
URLs.

| module | what it holds |
|---|---|
| `Wrappers`, `Text`, `Json`, `Records` | Option/Result, JavaScript string operations (`startsWith`, `indexOf`, `split`, `replace`, `slice`, `trim`), JSON values, and insertion-ordered JavaScript objects |
| `Zod` | issues, their messages and paths, and the primitive parsers the schemas use |
| `Errors` | the errors the backend throws, as values |
| `ProductModel` | `ProductStatus`, the stored document and the store invariant (accepted documents, unique `id` and `url`) |
| `ProductSchema` | `ProductSchema`, `VariantSchema`, `ImageSchema`, `parseFloat`, `Math.min`/`Math.max` and `calculatePriceRange` |
| `QuerySchema` | `ProductFilterSchema` with its four refinements, `ProductSortSchema` and `ProductQuerySchema` |
| `TransformQuery` | `transformQuery`: the `filter[k]`/`sort[k]` query keys |
| `ProductsRepository` | `buildFilterQuery`, `findAll`, `findById`, `createOrUpdate` and `updateStatus` over a store that is a sequence of documents |
| `ApiUtils` | URL normalisation, `checkShopifyUrl`, `readUrlsFromFile` and `retryWithExponentialBackoff` |
| `ProductsService` | `updateProductFromShopify` and the batch `updateAllProductsFromFile` |
| `ProductsController` | `getAllProducts`: merging the query, parsing it and assembling the reply |
| `ErrorHandler` | the Fastify error handler |
| `Filters` | the filter panel: reading the URL, writing it back, the sort toggle and clearing |
| `ProductList` | request parameters, the infinite query's page rule and the fetch guard |
| `ProductDetail` | the image carousel, the tag strip, the price line and the product link |
| `ParseUrlParams` | `parseUrlParams` |
| `ReactQuery` | the query client's `retry` with its one-toast flag, and the mutation `onError` |

Abstractions:

- The store is a sequence of documents in insertion order. Mongo's `$text`
  match is a parameter `TextMatch`.
- HTTP responses and probe results are parameters: a function from attempt
  number to response, and a function from URL to probe outcome.
- The coercions `Number(x)` and `new Date(x)` are parameters (`Zod.Coercions`).
  Timestamps are integers.
- Prices are reals. `parseFloat` is modelled for plain decimals, and NaN and
  ±Infinity are explicit values of `ProductModel.Num`.
- URL percent-decoding is a parameter of `ParseUrlParams`, and currency
  formatting is a parameter of `ProductDetail.FormatPrice`.

## Where the code and its comments disagree

The model follows the code in each case below.

- `createOrUpdate` keeps the stored document unchanged when its `updated_at`
  is strictly before the incoming one. It overwrites otherwise, including
  when the incoming data is older. The comment above the check says the
  opposite (`ProductsRepository.CreateOrUpdate`).
- Overwriting a document does not touch `status`, because the payload has no
  `status` field. A product marked DELETED stays DELETED after a successful
  resync (`ProductsRepository.Assign`).
- The sort keys the query schema accepts (`createdAt`, `publishedAt`,
  `minPrice`, `maxPrice`) are not paths of the stored document (`created_at`,
  `price_range.min`, …). Every document compares equal under such a sort, so
  the listing keeps store order, and `findAll` is modelled that way.
- The frontend offers the sort keys `updatedAt` and `price_range.min`, which
  the backend schema silently drops (`Filters.PriceSortDropped`).
- `NotFound` extends plain `Error`, so a missing product reaches the
  client as a 500 (`ErrorHandler.NotFoundIsInternal`).
- `transformQuery` drops the last character of a bracket key without checking
  that it is `]` (`TransformQuery.ClosingBracketNotChecked`).
- A `page` key in the listing page's search parameters overrides the page
  number of every request, so infinite scrolling re-fetches the same page
  (`ProductList.UrlPagePinsEveryLoad`).
- The mutation `onError` applies `in` to the response body. When the body is
  missing or is not an object, this throws a `TypeError` rather than showing
  the generic message (`ReactQuery.OnError`).
- `URLSearchParams` strips one leading `?` of its own, so `parseUrlParams`
  strips up to two (`ParseUrlParams.LeadingQuestionMarks`).

## Model

| member | source | states |
|---|---|---|
| ProductModel.StatusOf | backend/src/modules/products/product.ts:4-7 | a status name is recognised exactly when it is "PUBLISHED" or "DELETED", and it maps back to the same name |
| ProductModel.StatusSpellings | backend/src/modules/products/product.ts:4-7 | there are exactly two statuses with distinct names, and each name reads back as its own status |
| ProductSchema.ParseVariant | backend/src/modules/products/schema.ts:7-31 | a variant is accepted only from an object, and the price kept is that object's `price` string |
| ProductSchema.ParseImage | backend/src/modules/products/schema.ts:34-45 | an image is accepted only from an object; a missing image is an "expected object, received undefined" issue at the image's path |
| ProductSchema.ParseUrl | backend/src/modules/products/schema.ts:51 | `url` is accepted exactly when it is missing, null or a string; missing and null are told apart, and a string is kept as given |
| ProductSchema.ParseProduct | backend/src/modules/products/schema.ts:48-64 | a payload is valid exactly when it is an object whose every field passes its check; otherwise the issues are those of the failing fields in schema order; `id` and `updated_at` are the payload's own; a missing or null `url` stays missing or null |
| ProductSchema.FieldIssues | backend/src/modules/products/schema.ts:48-64 | every issue of every field check from the given field on appears among the collected issues |
| ProductSchema.ChecksPassed | backend/src/modules/products/schema.ts:48-64 | when every field check passes, each field's own parser (number, string, date, nullable string, arrays of variants and images, single image) accepts the field |
| ProductSchema.MissingValueFails | backend/src/modules/products/schema.ts:48-64 | every field except `url` is required: a missing value fails with an issue at that field's path |
| ProductSchema.MissingRequiredKey | backend/src/modules/products/schema.ts:48-64 | a payload object missing any field other than `url` is rejected, with an issue at that field's path |
| ProductSchema.TemplateSuffixMayBeNull | backend/src/modules/products/schema.ts:58 | `template_suffix` accepts null but must be present |
| ProductSchema.UrlMayBeMissingOrNull | backend/src/modules/products/schema.ts:51 | whether a payload is valid does not depend on whether `url` is missing or null |
| ProductSchema.ImageIsSingle | backend/src/modules/products/schema.ts:63 | an array in `image` is rejected with "expected object, received array" at `image` |
| ProductSchema.LeadingDigits | backend/src/modules/products/schema.ts:69-75 | the longest prefix of digits: all digits, and the next character (if any) is not a digit |
| ProductSchema.ParseFloat | backend/src/modules/products/schema.ts:69-75 | the modelled `parseFloat` reads an optional sign, digits and an optional fraction after leading white space; it gives a finite number, or NaN when no digit is read; it never gives an infinity, unlike JavaScript on "Infinity" |
| ProductSchema.ParseFloatOfWholeNumber | backend/src/modules/products/schema.ts:69-75 | the decimal spelling of a whole number parses back to that number |
| ProductSchema.DigitsOfNat | backend/src/modules/products/schema.ts:69-75 | the decimal spelling of a natural number is all digits and reads back as that number |
| ProductSchema.MathMin | backend/src/modules/products/schema.ts:71 | `Math.min` of nothing is +Infinity, of anything with a NaN is NaN, and otherwise is one of the values and no larger than any |
| ProductSchema.MathMax | backend/src/modules/products/schema.ts:72 | `Math.max` of nothing is −Infinity, of anything with a NaN is NaN, and otherwise is one of the values and no smaller than any |
| ProductSchema.Prices | backend/src/modules/products/schema.ts:70 | one parsed price per variant, in variant order |
| ProductSchema.CalculatePriceRange | backend/src/modules/products/schema.ts:69-75 | for variants with finite prices, min ≤ max, both bounds are among the prices and every price lies between them; no variants give (+Infinity, −Infinity); a NaN price gives (NaN, NaN) |
| QuerySchema.Optional | backend/src/modules/products/schema.ts:80-89 | an absent optional field is accepted as absent; a present one is accepted and rejected exactly as the inner schema decides, with the same value and issues |
| QuerySchema.ParseStatus | backend/src/modules/products/schema.ts:83 | a status filter is accepted exactly when it names one of the two statuses, and keeps that status |
| QuerySchema.Rule | backend/src/modules/products/schema.ts:91-146 | a refinement adds an issue exactly when its condition fails |
| QuerySchema.DateRule | backend/src/modules/products/schema.ts:104-146 | a date refinement raises nothing exactly when the range is ordered (either end missing, or start no later than end); otherwise the one custom issue at its path with its message |
| QuerySchema.RefinementIssues | backend/src/modules/products/schema.ts:91-146 | the four refinements raise no issue exactly when the filter is consistent, and at most four issues |
| QuerySchema.RefinementIssuesIffInconsistent | backend/src/modules/products/schema.ts:91-146 | the four refinements raise no issue exactly when the price bounds are not crossed (both truthy and min > max) and no date pair has start after end |
| QuerySchema.RefinementIssuesAreCustom | backend/src/modules/products/schema.ts:91-146 | each issue is one of four custom issues: the price rule at `minPrice` and the three date rules at `createdAtStart`, `publishedAtStart` and `updatedAtStart`, each with its own message; each is raised exactly when its own rule fails |
| QuerySchema.FilterFields | backend/src/modules/products/schema.ts:79-90 | a filter's fields are accepted only from an object |
| QuerySchema.ParseFilter | backend/src/modules/products/schema.ts:79-146 | a filter is valid exactly when its fields parse and the refinements hold; field issues pass through unchanged; otherwise every issue is a refinement issue |
| QuerySchema.PriceBoundsCrossed | backend/src/modules/products/schema.ts:91-103 | truthy bounds with minPrice > maxPrice give exactly one issue, at `minPrice`, with the price-order message |
| QuerySchema.CreatedBoundsCrossed | backend/src/modules/products/schema.ts:104-117 | a backwards creation range, the other rules holding, gives exactly one issue, at `createdAtStart`, with its message |
| QuerySchema.PublishedBoundsCrossed | backend/src/modules/products/schema.ts:118-131 | a backwards publication range, the other rules holding, gives exactly one issue, at `publishedAtStart`, with its message |
| QuerySchema.UpdatedBoundsCrossed | backend/src/modules/products/schema.ts:132-146 | a backwards update range, the other rules holding, gives exactly one issue, at `updatedAtStart`, with its message |
| QuerySchema.AllRulesBroken | backend/src/modules/products/schema.ts:91-146 | when every rule fails, all four issues are reported, in declaration order |
| QuerySchema.ZeroPriceBoundSkipsRule | backend/src/modules/products/schema.ts:91-103 | a minPrice of 0 is falsy, so the price rule passes even with a negative maxPrice below it |
| QuerySchema.SameInstantAccepted | backend/src/modules/products/schema.ts:104-146 | a date pair with equal start and end passes its refinement |
| QuerySchema.ParseDirection | backend/src/modules/products/schema.ts:151-156 | a sort direction is accepted exactly when it is "asc" or "desc" |
| QuerySchema.ParseSort | backend/src/modules/products/schema.ts:151-156 | an object is accepted exactly when each of the four sort keys it has holds the string "asc" or "desc"; each of `createdAt`, `publishedAt`, `minPrice` and `maxPrice` is set exactly when present, with the direction its string names; other keys are dropped |
| QuerySchema.UnknownDirectionRefused | backend/src/modules/products/schema.ts:152 | `createdAt: "ascending"` is refused with an enum issue at `createdAt` listing the two options |
| QuerySchema.ParsePositiveInt | backend/src/modules/products/schema.ts:159-160 | an absent page or limit takes its default; a present one is accepted exactly when it coerces to a positive whole number, which is kept; one that does not coerce is a single "expected number, received nan" issue |
| QuerySchema.NegativeFractionBreaksBoth | backend/src/modules/products/schema.ts:159-160 | −1.5 fails both the integer and the positive check, in that order |
| QuerySchema.ParseQuery | backend/src/modules/products/schema.ts:158-163 | a query is valid exactly when it is an object whose page, limit, sort and filter all parse, and then holds the values those parsers returned; page and limit are positive and default to 1 and 10, and the filter satisfies the refinements |
| TransformQuery.FilterIsLastWins | backend/src/utils/transform-query.ts:17-21 | a name is in `filter` exactly when some `filter[` key decodes to it, with the value of the last such key |
| TransformQuery.SortIsLastWins | backend/src/utils/transform-query.ts:17-26 | a name is in `sort` exactly when some `sort[` key decodes to it, with the value of the last such key |
| TransformQuery.TransformIsLastWins | backend/src/utils/transform-query.ts:10-30 | a name is in `filter` (or `sort`) exactly when some key decodes to it, and its value comes from the last such key |
| TransformQuery.FilterParam | backend/src/utils/transform-query.ts:18-21 | `filter[name]` decodes to `name` |
| TransformQuery.SortParam | backend/src/utils/transform-query.ts:22-26 | `sort[name]` decodes to `name` as a sort key and not as a filter key |
| TransformQuery.FilterRoundTrip | backend/src/utils/transform-query.ts:17-27 | pairs serialised as `filter[k]=v` decode back to the same names, each with its last value, and add nothing to `sort` |
| TransformQuery.OtherKeysIgnored | backend/src/utils/transform-query.ts:17-27 | a key with neither prefix leaves the result unchanged |
| TransformQuery.ClosingBracketNotChecked | backend/src/utils/transform-query.ts:19 | the key name is everything between the prefix and the last character, whatever that character is |
| ProductsRepository.DateBounds | backend/src/modules/products/products-repository.ts:60-78 | a date pair adds a constraint exactly when start or end is present: `$gte` from the start and `$lte` from the end |
| ProductsRepository.BuildFilterQuery | backend/src/modules/products/products-repository.ts:30-81 | text is constrained only for a non-empty text; min and max price are passed through whenever present, 0 included; the status is the filter's, or PUBLISHED when there is none; each date pair is compiled on its own |
| ProductsRepository.BuildFilterQueryMeaning | backend/src/modules/products/products-repository.ts:30-81 | a document matches the compiled query exactly when it satisfies the filter read directly (an independent definition of the filter's meaning) |
| ProductsRepository.DefaultsToPublished | backend/src/modules/products/products-repository.ts:53-57 | without a status filter only PUBLISHED documents match |
| ProductsRepository.Select | backend/src/modules/products/products-repository.ts:12-20 | the matches are exactly the stored documents that satisfy the query |
| ProductsRepository.CeilDiv | backend/src/modules/products/products-repository.ts:17 | the page count is the least number of pages of `limit` items that hold `total` items |
| ProductsRepository.FindAll | backend/src/modules/products/products-repository.ts:8-28 | total counts every match; at most `limit` items come back, each a match; numPages is ⌈total/limit⌉; hasMore holds exactly when total > page·limit |
| ProductsRepository.HasMoreIff | backend/src/modules/products/products-repository.ts:17-18 | numPages > page exactly when total > page·limit |
| ProductsRepository.FindAllWindow | backend/src/modules/products/products-repository.ts:10-16 | the page is the matches from index (page−1)·limit, at most `limit` of them |
| ProductsRepository.TotalIgnoresPaging | backend/src/modules/products/products-repository.ts:14 | the total does not depend on page or limit |
| ProductsRepository.PagingExample | backend/src/modules/products/products-repository.ts:10-18 | total 25, limit 10, page 3: three pages, no more, skip 20 |
| ProductsRepository.FindById | backend/src/modules/products/products-repository.ts:83-85 | finds the first document with the id, or reports that none has it |
| ProductsRepository.FindByUrl | backend/src/modules/products/products-repository.ts:116-118 | finds the first document with the URL, or reports that none has it |
| ProductsRepository.StoreVariants | backend/src/modules/products/product.ts:26-45 | variants are embedded one for one, in order |
| ProductsRepository.Assign | backend/src/modules/products/products-repository.ts:98-106 | overwriting gives the document a fresh create of the payload would give, except that the stored status is kept and, when the payload has no `url`, the stored `url` too; so every other field comes from the payload and the price range is recomputed |
| ProductsRepository.NewDocument | backend/src/modules/products/products-repository.ts:108-111 | a new document takes the default status PUBLISHED, every payload field (variants embedded one for one, a present `url` kept, a missing or null one left unset), and the price range of its variants |
| ProductsRepository.Save | backend/src/modules/products/product.ts:10-66 | a save succeeds exactly when the document passes the schema and clashes with no other document's id or url; otherwise it is a validation or duplicate-key error; on success only the saved slot changes |
| ProductsRepository.SaveKeepsValid | backend/src/modules/products/product.ts:11-12 | a successful save keeps every document accepted and `id` and `url` unique |
| ProductsRepository.CreateOrUpdate | backend/src/modules/products/products-repository.ts:87-113 | an unknown id is appended as a new document; a stored document older than the payload is returned unchanged; otherwise it is overwritten; the only errors are validation and duplicate key |
| ProductsRepository.CreateOrUpdateKeepsValid | backend/src/modules/products/products-repository.ts:87-113 | an upsert keeps the store invariant |
| ProductsRepository.CreateAppends | backend/src/modules/products/products-repository.ts:108-111 | creating leaves every existing document in place and appends one PUBLISHED document with the payload's id and price range |
| ProductsRepository.AssignIdempotent | backend/src/modules/products/products-repository.ts:98-106 | overwriting twice with the same payload is overwriting once |
| ProductsRepository.SaveAgain | backend/src/modules/products/products-repository.ts:87-113 | after a save, the document is found at its slot and saving it again changes nothing |
| ProductsRepository.CreateOrUpdateIdempotent | backend/src/modules/products/products-repository.ts:87-113 | upserting the same payload a second time succeeds and leaves the store as the first upsert left it |
| ProductsRepository.UpdateStatus | backend/src/modules/products/products-repository.ts:115-123 | a URL no document has fails with NotFound; otherwise the first document with it is saved with the new status |
| ProductsRepository.UpdateStatusOnlyStatus | backend/src/modules/products/products-repository.ts:115-123 | on a valid store the update succeeds exactly when some document has the URL, changes only that document's status, and keeps the store valid |
| ApiUtils.Normalise | backend/src/utils/api-utils.ts:79-80 | one trailing `/` is dropped and `.json` appended |
| ApiUtils.NormaliseExample | backend/src/utils/api-utils.ts:79-80 | `https://x.com/products/a/` becomes `https://x.com/products/a.json` |
| ApiUtils.CheckUrl | backend/src/utils/api-utils.ts:77-101 | a reachable URL gives the normalised URL, valid, Shopify exactly when `powered-by` is "Shopify"; an unreachable one gives the original URL, invalid, not Shopify |
| ApiUtils.CheckShopifyUrl | backend/src/utils/api-utils.ts:76-102 | one check per URL, in input order |
| ApiUtils.Candidates | backend/src/utils/api-utils.ts:55-59 | only non-blank strings containing `/products/` are kept, and every such entry is kept |
| ApiUtils.CandidatesInOrder | backend/src/utils/api-utils.ts:55-59 | the candidates of two parts of the file are those of the first part followed by those of the second, so file order is kept |
| ApiUtils.CandidatesOfOne | backend/src/utils/api-utils.ts:57-58 | one entry gives its string exactly when it is a candidate |
| ApiUtils.ShopifyUrls | backend/src/utils/api-utils.ts:61-63 | a URL is returned exactly when some check is valid, Shopify and carries it |
| ApiUtils.ShopifyUrlsOfChecks | backend/src/utils/api-utils.ts:61-63 | the kept URLs are the normalised inputs whose probe answered Shopify, in input order (an independent per-URL definition) |
| ApiUtils.ReadUrls | backend/src/utils/api-utils.ts:44-69 | unparsable content is a SyntaxError, a non-array an error with the file's message, and an array gives the Shopify endpoints of its candidates, each ending in `.json` |
| ApiUtils.ShopifyEndpointsSound | backend/src/utils/api-utils.ts:55-63 | every returned URL is the normalisation of some input whose probe answered Shopify |
| ApiUtils.RetryFrom | backend/src/utils/api-utils.ts:120-134 | between 1 and retries+1 calls; the delays before the retries are backoff·2^i; every call before the last failed; the result is the last call's value or, once the retries are used up, its error |
| ApiUtils.Retry | backend/src/utils/api-utils.ts:120-134 | between 1 and retries+1 calls with delays backoff·2^i between them; every call before the last failed; the result is that of the last call, its value or its error, and an error comes only after all retries |
| ApiUtils.DoubledBackoff | backend/src/utils/api-utils.ts:130 | doubling the backoff for the next retry shifts the delay sequence by one |
| ApiUtils.RetryFirstSuccess | backend/src/utils/api-utils.ts:120-134 | the first success within the retries is returned after exactly that many calls, with the delays before it |
| ApiUtils.RetryExample | backend/src/utils/api-utils.ts:120-134 | with the defaults, two failures then a success give 3 calls and delays [300, 600] |
| ProductsService.Fetch | backend/src/utils/api-utils.ts:18-38 | a thrown request fails the attempt; a null body fails with a TypeError; otherwise the attempt yields the schema's verdict on `data.product` |
| ProductsService.FetchWithRetry | backend/src/modules/products/products-service.ts:25 | the service retries the fetch at most 3 times, waiting 300 ms doubled each time; a result is the first successful fetch, and an error comes only when all 4 fetches failed |
| ProductsService.Apply | backend/src/modules/products/products-service.ts:29-37 | a repository result becomes the outcome; an error leaves the store as it was |
| ProductsService.UpdateProductFromShopify | backend/src/modules/products/products-service.ts:22-39 | a valid payload goes to `createOrUpdate` with its `url` replaced by the synced one; a refused payload or a fetch that keeps failing marks the URL's document DELETED; a failed write leaves the store as it was |
| ProductsService.FailureNeverCreates | backend/src/modules/products/products-service.ts:27-38 | when the fetch fails or the payload is invalid, no document is created and every document stays as it was or only has its status set to DELETED; a document returned is DELETED and has the URL; with no document at the URL the NotFound escapes |
| ProductsService.ValidPayloadTakesSyncUrl | backend/src/modules/products/products-service.ts:32-35 | a valid payload that overwrites or creates is stored under the sync URL |
| ProductsService.MissingProductMarksDeleted | backend/src/modules/products/products-service.ts:27-30 | a response without `product` marks the URL's document DELETED and nothing else |
| ProductsService.UpdateKeepsValid | backend/src/modules/products/products-service.ts:22-39 | syncing one URL keeps the store invariant |
| ProductsService.LogOf | backend/src/modules/products/products-service.ts:44-53 | each URL gets one log entry, an update exactly when its sync did not throw |
| ProductsService.SyncAll | backend/src/modules/products/products-service.ts:41-55 | one log entry per URL |
| ProductsService.SyncAllLogsEveryUrl | backend/src/modules/products/products-service.ts:43-54 | the log entries name the URLs in list order, each once, whatever fails |
| ProductsService.SyncAllKeepsValid | backend/src/modules/products/products-service.ts:41-55 | the batch keeps the store invariant |
| ProductsService.SyncAllStep | backend/src/modules/products/products-service.ts:43-54 | URL i is synced against the store the first i URLs left, and its entry follows theirs |
| ProductsService.UpdateAll | backend/src/modules/products/products-service.ts:41-55 | the loop computes the batch result, with one entry per URL in list order |
| ProductsController.SearchParams | backend/src/modules/products/products-controller.ts:19 | one search parameter per raw query entry, in order, an array joined with commas |
| ProductsController.RawFields | backend/src/modules/products/products-controller.ts:18 | the raw query's fields one for one, in order |
| ProductsController.ObjectOfKeys | backend/src/modules/products/products-controller.ts:17-20 | the spread object holds exactly the keys of its entries |
| ProductsController.ObjectOfLast | backend/src/modules/products/products-controller.ts:17-20 | a key's value is that of its last entry |
| ProductsController.ObjectOfLastWins | backend/src/modules/products/products-controller.ts:17-20 | a key is in the spread object exactly when some entry has it, with the value of the last such entry |
| ProductsController.MergeKeepsRawKeys | backend/src/modules/products/products-controller.ts:17-20 | keys other than `filter` and `sort` keep their raw value |
| ProductsController.DecodedRecordsWin | backend/src/modules/products/products-controller.ts:17-20 | `filter` and `sort` are always the decoded records, overriding raw keys of the same name |
| ProductsController.FilterParamReachesQuery | backend/src/modules/products/products-controller.ts:17-20 | the last `filter[name]` parameter's value reaches the parsed filter under `name` |
| ProductsController.GetAllProducts | backend/src/modules/products/products-controller.ts:14-35 | a query that fails to parse throws its Zod issues; otherwise the reply carries the parsed page and limit and the repository's total, numPages, hasMore and data unchanged |
| ProductsController.ParseFailureSkipsRepository | backend/src/modules/products/products-controller.ts:17-22 | a query that fails to parse never reaches the store: the result is the same for every store |
| ProductsController.DefaultPaging | backend/src/modules/products/products-controller.ts:24-26 | without page and limit parameters the reply says page 1, limit 10 |
| ProductsController.RepeatedKeyJoined | backend/src/modules/products/products-controller.ts:19 | a repeated query key becomes one comma-joined search parameter |
| ProductsController.EmptyMerge | backend/src/modules/products/products-controller.ts:17-20 | an empty query string merges to empty `filter` and `sort` records |
| ProductsController.EmptyFilterParses | backend/src/modules/products/schema.ts:79-146 | an empty filter record is a valid filter with nothing set |
| ProductsController.EmptyQueryString | backend/src/modules/products/products-controller.ts:14-35 | an empty query string lists page 1 of 10 of the PUBLISHED products |
| ErrorHandler.IssueLines | backend/src/utils/error-handler.ts:32-34 | one line per issue, in issue order |
| ErrorHandler.RuleOf | backend/src/utils/error-handler.ts:17-40 | the first matching rule: validation, then BadRequest, then Zod, then the fallback |
| ErrorHandler.HandleError | backend/src/utils/error-handler.ts:9-40 | validation errors reply `statusCode ?? 400` with the context message and errors; BadRequest 400 with its message; Zod `statusCode ?? 400` with the issue lines; anything else 500 "Internal server error." |
| ErrorHandler.ClientErrorIff | backend/src/utils/error-handler.ts:17-40 | without a status code or validation, the reply is 400 exactly for BadRequest and Zod errors and 500 otherwise |
| ErrorHandler.NotFoundIsInternal | backend/src/_errors/not-found-error.ts:1-4 | NotFound gets the 500 fallback |
| ErrorHandler.ValidationComesFirst | backend/src/utils/error-handler.ts:17-22 | a validation error gets the validation reply whatever its class |
| ErrorHandler.ZodMessageLines | backend/src/utils/error-handler.ts:30-36 | the Zod message split on newlines gives `path.join('.') + ": " + message` for each issue, in order |
| ErrorHandler.PageMessage | backend/src/utils/error-handler.ts:32-34 | the message of a non-positive page is "page: Number must be greater than 0" |
| ErrorHandler.ZodReplyExample | backend/src/utils/error-handler.ts:30-36 | a non-positive page gives 400 "page: Number must be greater than 0" |
| Filters.ReadFiltersAgree | frontend/src/components/filters.tsx:60-63 | the filters the panel reads are the ones `transformQuery` decodes |
| Filters.ReadSortsAgree | frontend/src/components/filters.tsx:64-67 | the sorts the panel reads are the ones `transformQuery` decodes |
| Filters.ReadParamsAgreesWithBackend | frontend/src/components/filters.tsx:56-72 | the panel reads the same filters and sorts from the URL as the backend's `transformQuery` |
| Filters.FilterPairs | frontend/src/components/filters.tsx:77-79 | every emitted filter pair has a `filter[` key and a non-empty value |
| Filters.SortPairs | frontend/src/components/filters.tsx:81-83 | every emitted sort pair has a `sort[` key and a non-empty value |
| Filters.Serialize | frontend/src/components/filters.tsx:74-88 | the filter pairs come first, then the sort pairs, and no value is empty |
| Filters.ReadFromAppend | frontend/src/components/filters.tsx:60-68 | reading parameters in two parts is reading them all |
| Filters.ReadFilterPairs | frontend/src/components/filters.tsx:60-83 | reading the serialised filters gives back each non-empty filter and no sorts |
| Filters.ReadSortPairs | frontend/src/components/filters.tsx:60-83 | reading the serialised sorts gives back each set sort and leaves the filters alone |
| Filters.RoundTrip | frontend/src/components/filters.tsx:60-83 | parsing the serialised state recovers the filters and sorts, restricted to non-empty values |
| Filters.ChangeFilterOnlyKey | frontend/src/components/filters.tsx:90-92 | a filter change sets the given key, and every other filter and all sorts stay as they were |
| Filters.ChangeFilter | frontend/src/components/filters.tsx:90-92 | the changed key reads the new value, every other filter reads as before, and the sorts are untouched |
| Filters.ToggleSort | frontend/src/components/filters.tsx:94-101 | the clicked key reads its toggled value, every other key reads as before, and keys stay distinct |
| Filters.ToggleCycle | frontend/src/components/filters.tsx:94-101 | the clicked key goes none → asc → desc → none, and other keys stay as they were |
| Filters.Toggle3IsOneSet | frontend/src/components/filters.tsx:94-101 | three clicks write the clicked key once, with the value the second click left |
| Filters.SortPairsReplace | frontend/src/components/filters.tsx:81-83 | replacing an unset sort by another unset value does not change what is written |
| Filters.SetUnsetWritesNothing | frontend/src/components/filters.tsx:81-83 | setting an unset key to undefined does not change what is written |
| Filters.ThirdValue | frontend/src/components/filters.tsx:94-101 | after two clicks, the third click's value is the key's original one |
| Filters.ThreeTogglesRestoreSet | frontend/src/components/filters.tsx:94-101 | three clicks on a set direction give the sort record back unchanged |
| Filters.ThreeTogglesUnset | frontend/src/components/filters.tsx:94-101 | three clicks on an unset direction assign it `undefined` |
| Filters.ThreeTogglesRestoreUnset | frontend/src/components/filters.tsx:94-101 | three clicks on an unset direction leave every key shown as before and write the same sort pairs |
| Filters.ThreeTogglesRestore | frontend/src/components/filters.tsx:94-101 | three clicks restore a set key exactly, show every key as before, and write the same URL |
| Filters.Clear | frontend/src/components/filters.tsx:103-107 | the cleared state writes nothing and reads back as itself |
| Filters.PriceSortDropped | frontend/src/components/filters.tsx:30-47 | the panel's `price_range.min` and `updatedAt` sorts are dropped by the backend's sort schema |
| ProductList.SpreadGet | frontend/src/components/product-list.tsx:43-46 | after the spread, each key has the searched value if the search has it, and the base value otherwise |
| ProductList.SpreadKeepsBase | frontend/src/components/product-list.tsx:43-46 | the spread keeps the base's keys first, in place |
| ProductList.RequestParamsMeaning | frontend/src/components/product-list.tsx:41-49 | `page` is the first key, with the search's page when it has one and the page parameter otherwise; every other key is the search's |
| ProductList.UrlPagePinsEveryLoad | frontend/src/components/product-list.tsx:41-49 | with `page` in the search parameters, every page parameter sends the same request |
| ProductList.ShouldFetchIff | frontend/src/components/product-list.tsx:64-74 | the next fetch starts exactly when the sentinel is in view, no fetch is running and the last page has more |
| ProductList.Pages | frontend/src/components/product-list.tsx:62-63 | page i of k is the fetch of page number i+1 |
| ProductList.LoadIsPages | frontend/src/components/product-list.tsx:60-69 | from the initial page 1, following the next-page rule loads pages 1, 2, … in order, and stops only when a page says there is no more |
| ProductList.PageWindow | frontend/src/components/product-list.tsx:62 | page p shows the matches from (p−1)·limit, at most `limit` of them |
| ProductList.PagesShowPrefix | frontend/src/components/product-list.tsx:92-96 | the first k pages shown together are the first k·limit matches |
| ProductList.NextPageIffMore | frontend/src/components/product-list.tsx:64-68 | a next page is offered exactly when the loaded pages hold fewer items than there are matches |
| ProductList.NextPageNonEmpty | frontend/src/components/product-list.tsx:64-68 | when a page says there is more, the next page is not empty; when it does not, the next page would be empty |
| ProductList.LoadShowsAllMatches | frontend/src/components/product-list.tsx:60-96 | scrolling long enough shows every match exactly once, in order |
| ProductDetail.Next | frontend/src/components/product-detail.tsx:77-80 | with images the next index stays in range; without images it is NaN |
| ProductDetail.Prev | frontend/src/components/product-detail.tsx:82-85 | with images the previous index stays in range; without images it is NaN |
| ProductDetail.PrevUndoesNext | frontend/src/components/product-detail.tsx:77-85 | previous undoes next and next undoes previous |
| ProductDetail.ForwardIsModular | frontend/src/components/product-detail.tsx:77-80 | k steps forward from i show image (i+k) mod n |
| ProductDetail.FullCycle | frontend/src/components/product-detail.tsx:77-80 | n steps forward return to the start |
| ProductDetail.NoImagesGivesNaN | frontend/src/components/product-detail.tsx:77-80 | without images any step leaves the index NaN |
| ProductDetail.NonEmpty | frontend/src/components/product-detail.tsx:72 | the kept pieces are exactly the non-empty ones |
| ProductDetail.TagList | frontend/src/components/product-detail.tsx:72 | every tag is non-empty and contains no ", " |
| ProductDetail.TagListMeaning | frontend/src/components/product-detail.tsx:72 | every tag is non-empty and free of ", "; an empty string gives no tags; with no empty pieces, joining the tags gives the string back |
| ProductDetail.TagStrip | frontend/src/components/product-detail.tsx:178 | the strip is twice as long as the tag list and position k shows tag k mod the number of tags |
| ProductDetail.FormatPrice | frontend/src/components/product-detail.tsx:57-68 | equal bounds show one amount; otherwise the min amount, " - ", then the max amount |
| ProductDetail.OnePriceOneAmount | frontend/src/components/product-detail.tsx:63-67 | variants that all cost the same show a single amount |
| ProductDetail.LinkUndoesNormalise | frontend/src/components/product-detail.tsx:197 | for a page URL without `.json` or a trailing `/`, the link undoes the sync's normalisation |
| ParseUrlParams.DropQuestionMark | frontend/src/lib/parse-url-params.ts:13 | one leading `?` is removed when present, and nothing else changes |
| ParseUrlParams.FromEntries | frontend/src/lib/parse-url-params.ts:14 | the object has distinct keys and string values |
| ParseUrlParams.FromEntriesGet | frontend/src/lib/parse-url-params.ts:14 | each key gets the value of its last pair |
| ParseUrlParams.CopyDefined | frontend/src/lib/parse-url-params.ts:19-29 | the copy has distinct keys, no undefined value, and no key the input lacks |
| ParseUrlParams.CopyDefinedGet | frontend/src/lib/parse-url-params.ts:21-29 | each defined value, string or array, is copied unchanged, and undefined ones are dropped |
| ParseUrlParams.CopyDefinedIdentity | frontend/src/lib/parse-url-params.ts:21-29 | an object without undefined values is copied exactly |
| ParseUrlParams.Parse | frontend/src/lib/parse-url-params.ts:8-32 | the result has distinct keys, no undefined value, and for object input no key the input lacks |
| ParseUrlParams.ObjectInput | frontend/src/lib/parse-url-params.ts:15-29 | object input is used as is: defined values copied, undefined dropped, and identity when none is undefined |
| ParseUrlParams.StringInput | frontend/src/lib/parse-url-params.ts:11-14 | for string input each key gets its last decoded value from the form-encoded pairs |
| ParseUrlParams.LeadingQuestionMarks | frontend/src/lib/parse-url-params.ts:13-14 | one or two leading `?` do not change the result |
| ParseUrlParams.EncodeRoundTrip | frontend/src/lib/parse-url-params.ts:14 | form-encoding plain pairs and splitting them again gives the decoded pairs |
| ParseUrlParams.ParseEncoded | frontend/src/lib/parse-url-params.ts:8-32 | parsing `?` followed by encoded pairs gives each key its last decoded value |
| ReactQuery.RetryMeaning | frontend/src/lib/react-query.ts:11-30 | `retry` answers yes exactly when its `failureCount` argument is below 3, whatever the flag; answering no raises the toast exactly when the flag is down, and sets it |
| ReactQuery.FlagIffToastUp | frontend/src/lib/react-query.ts:13-24 | the flag is up exactly when a toast was raised and not dismissed since |
| ReactQuery.AtMostOneToast | frontend/src/lib/react-query.ts:13-24 | between two toasts there is a dismissal |
| ReactQuery.DismissRearms | frontend/src/lib/react-query.ts:19-21 | dismissing lowers the flag, so the next query that gives up raises the toast again |
| ReactQuery.OnError | frontend/src/lib/react-query.ts:33-41 | non-Axios errors show nothing; an Axios error whose body is missing or not an object throws a TypeError |
| ReactQuery.OnErrorToast | frontend/src/lib/react-query.ts:33-41 | a body with `message` shows it, and one without shows the generic text |
| ReactQuery.BackendMessageShown | frontend/src/lib/react-query.ts:33-41 | every error reply of the backend carries a `message`, so a rejected mutation shows the backend's message |

## Left out

- HTTP, the proxy agent and the 5-second probe timeout: responses and probe outcomes are parameters.
- Reading `links.txt` and `JSON.parse`: the parsed content is a parameter, None standing for a parse failure.
- `delay`/`setTimeout`: the retry model returns the list of delays instead of waiting.
- `Promise.all`: the probes run as a plain map over the list. The read-then-write race in `createOrUpdate` is not modelled.
- Mongo internals (`countDocuments`, `find().sort().skip().limit()`, indexes): the store is a sequence, and `$text` matching is a parameter.
- The sort order of `findAll`: the model keeps store order, because the accepted sort keys are not stored paths (see above).
- Number and Date coercion of query strings and payload dates: they are parameters, and timestamps are integers.
- `parseFloat` with an exponent or the word `Infinity`: only signed plain decimal prices are parsed.
- The messages of Mongoose validation and duplicate-key errors: only their class is modelled.
- The cron schedule, the controller constructor that starts it, `updateAllProducts` (it only awaits the batch and replies a fixed message), app bootstrap, database configuration and routing.
- The logger's message texts in the batch loop: a log entry records only which URL it is about and whether its sync threw.
- URL percent-encoding and decoding in `URLSearchParams`: decoding is a parameter.
- The order in which JavaScript enumerates integer-like object keys: records keep insertion order.
- `formatDate`, `Intl` currency formatting (a parameter), the tag auto-scroll interval, the toast's auto-close and all JSX rendering.
- The `use-url-params` hook, whose copy loop repeats `parseUrlParams`, and the image-fallback component.
- ProductSchema.ParseProduct: for a value that is not an object, the issue list is not stated, only that it is invalid.
- ProductSchema.UrlMayBeMissingOrNull: states that validity agrees, not that the other parsed fields agree.
- ProductSchema.ParseVariant: states only that a valid variant comes from an object and keeps its price; the other variant fields are not stated in the contract.
- ProductSchema.ParseImage: states only that a valid image comes from an object, and the issue for a missing image.
- QuerySchema.FilterFields: states only that a valid filter comes from an object; the per-field parsing is in the body.
- ProductsService.SyncAll: its contract states the log length; the per-URL content is in `ProductsService.SyncAllLogsEveryUrl` and `ProductsService.SyncAllStep`.
- ProductsService.SyncAll: the upstream replies are a function of the URL and the attempt number, so a URL listed twice gets the same replies on both of its syncs; replies that change between the two are not modelled.
