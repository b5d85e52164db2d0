/** The shape an upstream product document must have to be accepted, how it
    is read into a typed payload, and the price range derived from its
    variants. */
module ProductSchema {
  import opened Wrappers
  import opened Text
  import opened Json
  import opened Zod
  import opened ProductModel

  /** An upstream variant, with every field the schema names. */
  datatype Variant = Variant(
    id: real,
    productId: real,
    title: string,
    price: string,
    sku: Option<string>,
    position: Option<real>,
    compareAtPrice: Option<string>,
    fulfillmentService: Option<string>,
    inventoryManagement: Option<string>,
    option1: Option<string>,
    option2: Option<string>,
    option3: Option<string>,
    createdAt: int,
    updatedAt: int,
    taxable: bool,
    barcode: Option<string>,
    grams: real,
    imageId: Option<real>,
    weight: real,
    weightUnit: string,
    requiresShipping: bool,
    priceCurrency: string,
    compareAtPriceCurrency: Option<string>)

  /** A field that may be missing, null, or set. */
  datatype Nullish<+T> = Absent | Null | Present(value: T)

  /** A validated upstream product. */
  datatype Product = Product(
    id: real,
    title: string,
    url: Nullish<string>,
    vendor: string,
    productType: string,
    handle: string,
    createdAt: int,
    updatedAt: int,
    publishedAt: int,
    templateSuffix: Option<string>,
    publishedScope: string,
    tags: string,
    variants: seq<Variant>,
    images: seq<Image>,
    image: Image)

  /** `VariantSchema`. */
  function ParseVariant(v: Option<Json>, path: Path, co: Coercions): (r: Parsed<Variant>)
    ensures r.Valid? ==> v.Some? && v.value.JObj?
    ensures r.Valid? ==> Member(v.value, "price") == Some(JStr(r.value.price))
  {
    if !(v.Some? && v.value.JObj?) then Invalid(ObjectIssues(v, path))
    else
      var o := v.value;
      var id := Number(Member(o, "id"), At(path, "id"));
      var productId := Number(Member(o, "product_id"), At(path, "product_id"));
      var title := String(Member(o, "title"), At(path, "title"));
      var price := String(Member(o, "price"), At(path, "price"));
      var sku := NullableString(Member(o, "sku"), At(path, "sku"));
      var position := NullableNumber(Member(o, "position"), At(path, "position"));
      var compareAtPrice := NullableString(Member(o, "compare_at_price"), At(path, "compare_at_price"));
      var fulfillment := NullableString(Member(o, "fulfillment_service"), At(path, "fulfillment_service"));
      var inventory := NullableString(Member(o, "inventory_management"), At(path, "inventory_management"));
      var option1 := NullableString(Member(o, "option1"), At(path, "option1"));
      var option2 := NullableString(Member(o, "option2"), At(path, "option2"));
      var option3 := NullableString(Member(o, "option3"), At(path, "option3"));
      var createdAt := CoercedDate(Member(o, "created_at"), At(path, "created_at"), co);
      var updatedAt := CoercedDate(Member(o, "updated_at"), At(path, "updated_at"), co);
      var taxable := Boolean(Member(o, "taxable"), At(path, "taxable"));
      var barcode := NullableString(Member(o, "barcode"), At(path, "barcode"));
      var grams := Number(Member(o, "grams"), At(path, "grams"));
      var imageId := NullableNumber(Member(o, "image_id"), At(path, "image_id"));
      var weight := Number(Member(o, "weight"), At(path, "weight"));
      var weightUnit := String(Member(o, "weight_unit"), At(path, "weight_unit"));
      var shipping := Boolean(Member(o, "requires_shipping"), At(path, "requires_shipping"));
      var currency := String(Member(o, "price_currency"), At(path, "price_currency"));
      var compareCurrency := NullableString(Member(o, "compare_at_price_currency"), At(path, "compare_at_price_currency"));
      if && id.Valid? && productId.Valid? && title.Valid? && price.Valid? && sku.Valid?
         && position.Valid? && compareAtPrice.Valid? && fulfillment.Valid? && inventory.Valid?
         && option1.Valid? && option2.Valid? && option3.Valid? && createdAt.Valid?
         && updatedAt.Valid? && taxable.Valid? && barcode.Valid? && grams.Valid? && imageId.Valid?
         && weight.Valid? && weightUnit.Valid? && shipping.Valid? && currency.Valid? && compareCurrency.Valid?
      then
        Valid(Variant(id.value, productId.value, title.value, price.value, sku.value, position.value,
          compareAtPrice.value, fulfillment.value, inventory.value, option1.value, option2.value,
          option3.value, createdAt.value, updatedAt.value, taxable.value, barcode.value, grams.value,
          imageId.value, weight.value, weightUnit.value, shipping.value, currency.value, compareCurrency.value))
      else
        Invalid(id.Issues() + productId.Issues() + title.Issues() + price.Issues() + sku.Issues()
          + position.Issues() + compareAtPrice.Issues() + fulfillment.Issues() + inventory.Issues()
          + option1.Issues() + option2.Issues() + option3.Issues() + createdAt.Issues()
          + updatedAt.Issues() + taxable.Issues() + barcode.Issues() + grams.Issues() + imageId.Issues()
          + weight.Issues() + weightUnit.Issues() + shipping.Issues() + currency.Issues() + compareCurrency.Issues())
  }

  /** `ImageSchema`. */
  function ParseImage(v: Option<Json>, path: Path, co: Coercions): (r: Parsed<Image>)
    ensures r.Valid? ==> v.Some? && v.value.JObj?
    ensures v.None? ==> r == Invalid([Issue(path, InvalidType("object", "undefined"))])
  {
    if !(v.Some? && v.value.JObj?) then Invalid(ObjectIssues(v, path))
    else
      var o := v.value;
      var id := Number(Member(o, "id"), At(path, "id"));
      var productId := Number(Member(o, "product_id"), At(path, "product_id"));
      var position := Number(Member(o, "position"), At(path, "position"));
      var createdAt := CoercedDate(Member(o, "created_at"), At(path, "created_at"), co);
      var updatedAt := CoercedDate(Member(o, "updated_at"), At(path, "updated_at"), co);
      var alt := NullableString(Member(o, "alt"), At(path, "alt"));
      var width := Number(Member(o, "width"), At(path, "width"));
      var height := Number(Member(o, "height"), At(path, "height"));
      var src := String(Member(o, "src"), At(path, "src"));
      var variantIds := Array(Member(o, "variant_ids"), At(path, "variant_ids"), Number);
      if && id.Valid? && productId.Valid? && position.Valid? && createdAt.Valid? && updatedAt.Valid?
         && alt.Valid? && width.Valid? && height.Valid? && src.Valid? && variantIds.Valid?
      then
        Valid(Image(id.value, productId.value, position.value, createdAt.value, updatedAt.value,
          alt.value, width.value, height.value, src.value, variantIds.value))
      else
        Invalid(id.Issues() + productId.Issues() + position.Issues() + createdAt.Issues()
          + updatedAt.Issues() + alt.Issues() + width.Issues() + height.Issues() + src.Issues()
          + variantIds.Issues())
  }

  /** `z.string().nullable().optional()`. */
  function ParseUrl(v: Option<Json>, path: Path): (r: Parsed<Nullish<string>>)
    ensures v.None? ==> r == Valid(Absent)
    ensures v == Some(JNull) ==> r == Valid(Null)
    ensures r.Valid? && r.value.Present? ==> v == Some(JStr(r.value.value))
    ensures r.Valid? <==> v.None? || v.value.JNull? || v.value.JStr?
  {
    if v.None? then Valid(Absent)
    else if v.value.JNull? then Valid(Null)
    else
      var s := String(v, path);
      if s.Valid? then Valid(Present(s.value)) else Invalid(s.issues)
  }

  /** A parse with its value forgotten: only validity and issues remain. */
  function Erase<T>(p: Parsed<T>): (r: Parsed<()>)
    ensures r.Valid? <==> p.Valid?
    ensures r.Issues() == p.Issues()
  {
    if p.Valid? then Valid(()) else Invalid(p.issues)
  }

  /** The keys of `ProductSchema`, in declaration order. */
  const ProductKeys: seq<string> := [
    "id", "title", "url", "vendor", "product_type", "handle", "created_at", "updated_at",
    "published_at", "template_suffix", "published_scope", "tags", "variants", "images", "image"]

  /** The position of `url`, the one key of the schema that may be left out. */
  const UrlField: nat := 2

  /** The check `ProductSchema` makes on the value `v` of its `i`-th key. */
  function CheckValue(i: nat, v: Option<Json>, co: Coercions): Parsed<()>
    requires i < |ProductKeys|
  {
    var path := [Key(ProductKeys[i])];
    match i
    case 0 => Erase(Number(v, path))
    case 2 => Erase(ParseUrl(v, path))
    case 6 => Erase(CoercedDate(v, path, co))
    case 7 => Erase(CoercedDate(v, path, co))
    case 8 => Erase(CoercedDate(v, path, co))
    case 9 => Erase(NullableString(v, path))
    case 12 => Erase(Array(v, path, (x, p) => ParseVariant(x, p, co)))
    case 13 => Erase(Array(v, path, (x, p) => ParseImage(x, p, co)))
    case 14 => Erase(ParseImage(v, path, co))
    case _ => Erase(String(v, path))
  }

  /** The check on the `i`-th key of the product document `o`. */
  function CheckField(o: Json, i: nat, co: Coercions): Parsed<()>
    requires i < |ProductKeys|
  {
    CheckValue(i, Member(o, ProductKeys[i]), co)
  }

  /** The issues of the keys from position `from` on, key by key. */
  function FieldIssues(o: Json, from: nat, co: Coercions): (r: seq<Issue>)
    requires from <= |ProductKeys|
    ensures forall i, x :: from <= i < |ProductKeys| && x in CheckField(o, i, co).Issues() ==> x in r
    decreases |ProductKeys| - from
  {
    if from == |ProductKeys| then []
    else CheckField(o, from, co).Issues() + FieldIssues(o, from + 1, co)
  }

  /** When every key passes its check, each typed field parser succeeds. */
  lemma ChecksPassed(o: Json, co: Coercions)
    requires forall i :: 0 <= i < |ProductKeys| ==> CheckField(o, i, co).Valid?
    ensures Number(Member(o, "id"), [Key("id")]).Valid?
    ensures String(Member(o, "title"), [Key("title")]).Valid?
    ensures ParseUrl(Member(o, "url"), [Key("url")]).Valid?
    ensures String(Member(o, "vendor"), [Key("vendor")]).Valid?
    ensures String(Member(o, "product_type"), [Key("product_type")]).Valid?
    ensures String(Member(o, "handle"), [Key("handle")]).Valid?
    ensures CoercedDate(Member(o, "created_at"), [Key("created_at")], co).Valid?
    ensures CoercedDate(Member(o, "updated_at"), [Key("updated_at")], co).Valid?
    ensures CoercedDate(Member(o, "published_at"), [Key("published_at")], co).Valid?
    ensures NullableString(Member(o, "template_suffix"), [Key("template_suffix")]).Valid?
    ensures String(Member(o, "published_scope"), [Key("published_scope")]).Valid?
    ensures String(Member(o, "tags"), [Key("tags")]).Valid?
    ensures Array(Member(o, "variants"), [Key("variants")], (x, p) => ParseVariant(x, p, co)).Valid?
    ensures Array(Member(o, "images"), [Key("images")], (x, p) => ParseImage(x, p, co)).Valid?
    ensures ParseImage(Member(o, "image"), [Key("image")], co).Valid?
  {
    assert CheckField(o, 0, co).Valid?;
    assert CheckField(o, 1, co).Valid?;
    assert CheckField(o, 2, co).Valid?;
    assert CheckField(o, 3, co).Valid?;
    assert CheckField(o, 4, co).Valid?;
    assert CheckField(o, 5, co).Valid?;
    assert CheckField(o, 6, co).Valid?;
    assert CheckField(o, 7, co).Valid?;
    assert CheckField(o, 8, co).Valid?;
    assert CheckField(o, 9, co).Valid?;
    assert CheckField(o, 10, co).Valid?;
    assert CheckField(o, 11, co).Valid?;
    assert CheckField(o, 12, co).Valid?;
    assert CheckField(o, 13, co).Valid?;
    assert CheckField(o, 14, co).Valid?;
  }

  /** `ProductSchema.safeParse(value)`: every key is checked, and a document
      with any bad key is refused with the issues of all keys, in schema order.
      A missing `url` is read as absent and a null one as null. */
  function ParseProduct(v: Option<Json>, co: Coercions): (r: Parsed<Product>)
    ensures r.Valid? <==> v.Some? && v.value.JObj? && forall i :: 0 <= i < |ProductKeys| ==> CheckField(v.value, i, co).Valid?
    ensures r.Invalid? && v.Some? && v.value.JObj? ==> r.issues == FieldIssues(v.value, 0, co)
    ensures r.Valid? ==> Member(v.value, "id") == Some(JNum(r.value.id))
    ensures r.Valid? ==> Member(v.value, "updated_at").Some? && co.date(Member(v.value, "updated_at").value) == Some(r.value.updatedAt)
    ensures r.Valid? ==> (r.value.url == Absent <==> Member(v.value, "url").None?)
    ensures r.Valid? ==> (r.value.url == Null <==> Member(v.value, "url") == Some(JNull))
  {
    if !(v.Some? && v.value.JObj?) then Invalid(ObjectIssues(v, []))
    else
      var o := v.value;
      if forall i :: 0 <= i < |ProductKeys| ==> CheckField(o, i, co).Valid? then
        ChecksPassed(o, co);
        Valid(Product(
          Number(Member(o, "id"), [Key("id")]).value,
          String(Member(o, "title"), [Key("title")]).value,
          ParseUrl(Member(o, "url"), [Key("url")]).value,
          String(Member(o, "vendor"), [Key("vendor")]).value,
          String(Member(o, "product_type"), [Key("product_type")]).value,
          String(Member(o, "handle"), [Key("handle")]).value,
          CoercedDate(Member(o, "created_at"), [Key("created_at")], co).value,
          CoercedDate(Member(o, "updated_at"), [Key("updated_at")], co).value,
          CoercedDate(Member(o, "published_at"), [Key("published_at")], co).value,
          NullableString(Member(o, "template_suffix"), [Key("template_suffix")]).value,
          String(Member(o, "published_scope"), [Key("published_scope")]).value,
          String(Member(o, "tags"), [Key("tags")]).value,
          Array(Member(o, "variants"), [Key("variants")], (x, p) => ParseVariant(x, p, co)).value,
          Array(Member(o, "images"), [Key("images")], (x, p) => ParseImage(x, p, co)).value,
          ParseImage(Member(o, "image"), [Key("image")], co).value))
      else
        Invalid(FieldIssues(o, 0, co))
  }

  /** A missing value fails every check but the one on `url`, with an issue at
      that key's path. */
  lemma MissingValueFails(i: nat, co: Coercions)
    requires i < |ProductKeys| && i != UrlField
    ensures CheckValue(i, None, co).Invalid?
    ensures exists code :: Issue([Key(ProductKeys[i])], code) in CheckValue(i, None, co).issues
  {
    var path := [Key(ProductKeys[i])];
    match i
    case 0 => assert Issue(path, InvalidType("number", "undefined")) in CheckValue(i, None, co).issues;
    case 6 => assert Issue(path, InvalidDate) in CheckValue(i, None, co).issues;
    case 7 => assert Issue(path, InvalidDate) in CheckValue(i, None, co).issues;
    case 8 => assert Issue(path, InvalidDate) in CheckValue(i, None, co).issues;
    case 9 => assert Issue(path, InvalidType("string", "undefined")) in CheckValue(i, None, co).issues;
    case 12 => assert Issue(path, InvalidType("array", "undefined")) in CheckValue(i, None, co).issues;
    case 13 => assert Issue(path, InvalidType("array", "undefined")) in CheckValue(i, None, co).issues;
    case 14 => assert Issue(path, InvalidType("object", "undefined")) in CheckValue(i, None, co).issues;
    case _ => assert Issue(path, InvalidType("string", "undefined")) in CheckValue(i, None, co).issues;
  }

  /** A product document that lacks any key other than `url` is refused, with
      an issue at that key's path. */
  lemma MissingRequiredKey(o: Json, i: nat, co: Coercions)
    requires o.JObj?
    requires i < |ProductKeys| && i != UrlField
    requires Member(o, ProductKeys[i]).None?
    ensures ParseProduct(Some(o), co).Invalid?
    ensures exists code :: Issue([Key(ProductKeys[i])], code) in ParseProduct(Some(o), co).issues
  {
    MissingValueFails(i, co);
    var code :| Issue([Key(ProductKeys[i])], code) in CheckField(o, i, co).issues;
  }

  /** `template_suffix` must be present but may be null. */
  lemma TemplateSuffixMayBeNull(co: Coercions)
    ensures ProductKeys[9] == "template_suffix"
    ensures CheckValue(9, Some(JNull), co).Valid?
    ensures CheckValue(9, None, co).Invalid?
  {
  }

  /** Every key other than `url` is a different key. */
  lemma KeysDistinctFromUrl(i: nat)
    requires i < |ProductKeys| && i != UrlField
    ensures ProductKeys[i] != "url"
  {
  }

  /** Leaving `url` out and setting it to null are accepted alike: the rest of
      the document alone decides validity. */
  lemma UrlMayBeMissingOrNull(fields: map<string, Json>, co: Coercions)
    ensures ParseProduct(Some(JObj(fields - {"url"})), co).Valid?
        <==> ParseProduct(Some(JObj(fields["url" := JNull])), co).Valid?
  {
    var a := JObj(fields - {"url"});
    var b := JObj(fields["url" := JNull]);
    forall i | 0 <= i < |ProductKeys|
      ensures CheckField(a, i, co).Valid? <==> CheckField(b, i, co).Valid?
    {
      if i != UrlField {
        KeysDistinctFromUrl(i);
        assert Member(a, ProductKeys[i]) == Member(b, ProductKeys[i]);
      } else {
        assert Member(a, "url") == None;
        assert Member(b, "url") == Some(JNull);
      }
    }
  }

  /** `image` is one image object: an array of images in its place is refused. */
  lemma ImageIsSingle(o: Json, co: Coercions, xs: seq<Json>)
    requires o.JObj?
    requires Member(o, "image") == Some(JArr(xs))
    ensures ParseProduct(Some(o), co).Invalid?
    ensures Issue([Key("image")], InvalidType("object", "array")) in ParseProduct(Some(o), co).issues
  {
    assert TypeName(Some(JArr(xs))) == "array";
    assert Issue([Key("image")], InvalidType("object", "array")) in CheckField(o, 14, co).issues;
  }

  // ---------------------------------------------------------------------
  // Prices

  predicate IsDigit(c: char) {
    '0' <= c <= '9'
  }

  predicate AllDigits(s: string) {
    forall i :: 0 <= i < |s| ==> IsDigit(s[i])
  }

  function LeadingDigits(s: string): (r: string)
    ensures |r| <= |s| && r == s[..|r|] && AllDigits(r)
    ensures |r| < |s| ==> !IsDigit(s[|r|])
  {
    if |s| > 0 && IsDigit(s[0]) then [s[0]] + LeadingDigits(s[1..]) else []
  }

  /** The value of a string of decimal digits. */
  function DigitsValue(ds: string): nat
    requires AllDigits(ds)
  {
    if |ds| == 0 then 0
    else DigitsValue(ds[..|ds| - 1]) * 10 + ((ds[|ds| - 1] as int) - ('0' as int))
  }

  function Pow10(k: nat): (r: nat)
    ensures r >= 1
  {
    if k == 0 then 1 else 10 * Pow10(k - 1)
  }

  /** `parseFloat(s)`: leading white space is skipped, then the longest prefix
      of the form [sign] digits [. digits] (or [sign] . digits) is read; with no
      digit at all the result is NaN. */
  function ParseFloat(s: string): (r: Num)
    ensures r.Fin? || r.NaN?
  {
    var t := TrimStart(s);
    var negative := |t| > 0 && t[0] == '-';
    var unsigned := if |t| > 0 && (t[0] == '-' || t[0] == '+') then t[1..] else t;
    var whole := LeadingDigits(unsigned);
    var rest := unsigned[|whole|..];
    var fraction := if |rest| > 0 && rest[0] == '.' then LeadingDigits(rest[1..]) else [];
    if |whole| == 0 && |fraction| == 0 then NaN
    else
      var magnitude := DigitsValue(whole) as real + DigitsValue(fraction) as real / Pow10(|fraction|) as real;
      Fin(if negative then -magnitude else magnitude)
  }

  lemma {:induction false} DigitsOfNat(n: nat)
    ensures AllDigits(NatToString(n))
    ensures DigitsValue(NatToString(n)) == n
    decreases n
  {
    var d := ['0' + (n % 10) as char];
    if n >= 10 {
      DigitsOfNat(n / 10);
      var s := NatToString(n / 10) + d;
      assert s[..|s| - 1] == NatToString(n / 10);
    }
  }

  lemma LeadingDigitsOfDigits(s: string)
    requires AllDigits(s)
    ensures LeadingDigits(s) == s
  {
  }

  /** Reading back the decimal text of a whole number gives the number. */
  lemma ParseFloatOfWholeNumber(n: nat)
    ensures ParseFloat(NatToString(n)) == Fin(n as real)
  {
    var s := NatToString(n);
    DigitsOfNat(n);
    assert !IsSpace(s[0]);
    assert TrimStart(s) == s;
    LeadingDigitsOfDigits(s);
    assert s[|s|..] == [];
  }

  /** JavaScript's `Math.min` of two numbers: NaN is contagious and +Infinity
      is the neutral element. */
  function Min2(a: Num, b: Num): Num {
    if a.NaN? || b.NaN? then NaN
    else if a.PosInf? then b
    else if b.PosInf? then a
    else if a.NegInf? || b.NegInf? then NegInf
    else Fin(if a.r <= b.r then a.r else b.r)
  }

  /** JavaScript's `Math.max` of two numbers: NaN is contagious and -Infinity
      is the neutral element. */
  function Max2(a: Num, b: Num): Num {
    if a.NaN? || b.NaN? then NaN
    else if a.NegInf? then b
    else if b.NegInf? then a
    else if a.PosInf? || b.PosInf? then PosInf
    else Fin(if a.r >= b.r then a.r else b.r)
  }

  predicate AllFinite(xs: seq<Num>) {
    forall i :: 0 <= i < |xs| ==> xs[i].Fin?
  }

  /** `Math.min(...xs)`. */
  function MathMin(xs: seq<Num>): (r: Num)
    ensures |xs| == 0 ==> r == PosInf
    ensures (exists i :: 0 <= i < |xs| && xs[i].NaN?) ==> r == NaN
    ensures |xs| > 0 && AllFinite(xs) ==> r.Fin? && r in xs
    ensures |xs| > 0 && AllFinite(xs) ==> forall i :: 0 <= i < |xs| ==> r.r <= xs[i].r
  {
    if |xs| == 0 then PosInf else Min2(xs[0], MathMin(xs[1..]))
  }

  /** `Math.max(...xs)`. */
  function MathMax(xs: seq<Num>): (r: Num)
    ensures |xs| == 0 ==> r == NegInf
    ensures (exists i :: 0 <= i < |xs| && xs[i].NaN?) ==> r == NaN
    ensures |xs| > 0 && AllFinite(xs) ==> r.Fin? && r in xs
    ensures |xs| > 0 && AllFinite(xs) ==> forall i :: 0 <= i < |xs| ==> r.r >= xs[i].r
  {
    if |xs| == 0 then NegInf else Max2(xs[0], MathMax(xs[1..]))
  }

  /** `variants.map(v => parseFloat(v.price))`. */
  function Prices(variants: seq<Variant>): (ps: seq<Num>)
    ensures |ps| == |variants|
    ensures forall i :: 0 <= i < |variants| ==> ps[i] == ParseFloat(variants[i].price)
  {
    seq(|variants|, i requires 0 <= i < |variants| => ParseFloat(variants[i].price))
  }

  /** `calculatePriceRange`: for a non-empty list of parseable prices, `min` and
      `max` are prices of the list and every price lies between them. An empty
      list gives (+Infinity, -Infinity) and an unparseable price gives NaN
      for both bounds. */
  function CalculatePriceRange(variants: seq<Variant>): (r: PriceRange)
    ensures |variants| == 0 ==> r == PriceRange(PosInf, NegInf)
    ensures (exists i :: 0 <= i < |variants| && ParseFloat(variants[i].price).NaN?) ==> r == PriceRange(NaN, NaN)
    ensures |variants| > 0 && AllFinite(Prices(variants)) ==>
      && r.min.Fin? && r.max.Fin? && r.min.r <= r.max.r
      && r.min in Prices(variants) && r.max in Prices(variants)
      && forall i :: 0 <= i < |variants| ==> r.min.r <= ParseFloat(variants[i].price).r <= r.max.r
  {
    var ps := Prices(variants);
    PriceRange(MathMin(ps), MathMax(ps))
  }
}
