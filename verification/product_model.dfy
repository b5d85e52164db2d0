/** The persisted product document: the lifecycle status, the embedded
    variants and images, the derived price range, the checks the document
    schema makes on save, and the two unique keys of the collection. */
module ProductModel {
  import opened Wrappers

  datatype Status = Published | Deleted

  /** The stored spelling of each status. */
  function StatusName(s: Status): string {
    match s
    case Published => "PUBLISHED"
    case Deleted => "DELETED"
  }

  /** The values `Object.values(ProductStatus)` lists, in declaration order. */
  const StatusNames: seq<string> := ["PUBLISHED", "DELETED"]

  /** A status read back from its stored spelling. */
  function StatusOf(name: string): (r: Option<Status>)
    ensures r.Some? <==> name in StatusNames
    ensures r.Some? ==> StatusName(r.value) == name
  {
    if name == "PUBLISHED" then Some(Published)
    else if name == "DELETED" then Some(Deleted)
    else None
  }

  /** There are exactly two statuses, with distinct spellings, each read back
      as itself. */
  lemma StatusSpellings(s: Status)
    ensures StatusOf(StatusName(s)) == Some(s)
    ensures StatusName(s) in StatusNames
    ensures StatusName(Published) != StatusName(Deleted)
    ensures s == Published || s == Deleted
  {
  }

  /** A new document that does not say otherwise is published. */
  const DefaultStatus: Status := Published

  /** A JavaScript number as `parseFloat`, `Math.min` and `Math.max` produce it. */
  datatype Num = Fin(r: real) | PosInf | NegInf | NaN

  /** `a >= b` as the store evaluates a range predicate; NaN matches no range. */
  predicate AtLeast(a: Num, b: real) {
    match a
    case Fin(x) => x >= b
    case PosInf => true
    case NegInf => false
    case NaN => false
  }

  /** `a <= b` as the store evaluates a range predicate; NaN matches no range. */
  predicate AtMost(a: Num, b: real) {
    match a
    case Fin(x) => x <= b
    case PosInf => false
    case NegInf => true
    case NaN => false
  }

  datatype PriceRange = PriceRange(min: Num, max: Num)

  datatype Image = Image(
    id: real,
    productId: real,
    position: real,
    createdAt: int,
    updatedAt: int,
    alt: Option<string>,
    width: real,
    height: real,
    src: string,
    variantIds: seq<real>)

  /** The variant paths the document schema declares; the other fields of an
      incoming variant are not stored. */
  datatype StoredVariant = StoredVariant(
    id: real,
    productId: real,
    title: string,
    price: string,
    compareAtPrice: Option<string>,
    createdAt: int,
    updatedAt: int,
    imageId: Option<real>,
    priceCurrency: string,
    compareAtPriceCurrency: Option<string>)

  /** A product document. `url` is None while it is null or undefined, which
      the schema refuses on save. Variants, images and the main image are
      embedded values, not references. */
  datatype StoredProduct = StoredProduct(
    id: real,
    url: Option<string>,
    title: string,
    vendor: string,
    productType: string,
    status: Status,
    createdAt: int,
    updatedAt: int,
    publishedAt: int,
    templateSuffix: Option<string>,
    tags: string,
    variants: seq<StoredVariant>,
    images: seq<Image>,
    image: Image,
    priceRange: PriceRange)

  /** A required string path accepts only a non-empty string. */
  predicate Filled(s: string) {
    |s| > 0
  }

  predicate ImageAccepted(im: Image) {
    Filled(im.src)
  }

  predicate VariantAccepted(v: StoredVariant) {
    Filled(v.title) && Filled(v.price) && Filled(v.priceCurrency)
  }

  /** The checks the document schema makes on save: every required path is
      set, and both price bounds cast to a number (NaN does not; infinities do). */
  predicate Accepted(d: StoredProduct) {
    && d.url.Some? && Filled(d.url.value)
    && Filled(d.title)
    && Filled(d.vendor)
    && (forall i :: 0 <= i < |d.variants| ==> VariantAccepted(d.variants[i]))
    && (forall i :: 0 <= i < |d.images| ==> ImageAccepted(d.images[i]))
    && ImageAccepted(d.image)
    && !d.priceRange.min.NaN?
    && !d.priceRange.max.NaN?
  }

  /** The unique indexes on `id` and on `url`. */
  predicate UniqueKeys(store: seq<StoredProduct>) {
    && (forall i, j :: 0 <= i < j < |store| ==> store[i].id != store[j].id)
    && (forall i, j :: 0 <= i < j < |store| ==> store[i].url != store[j].url)
  }

  /** A collection the store can hold: every document passed the schema and
      no two share an id or a url. */
  predicate ValidStore(store: seq<StoredProduct>) {
    UniqueKeys(store) && forall i :: 0 <= i < |store| ==> Accepted(store[i])
  }
}
