/** The listing query the API accepts: page and page size, the optional sort
    directions, and the optional filter with its four cross-field rules. */
module QuerySchema {
  import opened Wrappers
  import opened Json
  import opened Zod
  import opened ProductModel

  /** An inclusive range over one date field; either end may be open. Dates
      are instants in milliseconds. */
  datatype DateRange = DateRange(start: Option<int>, end: Option<int>)

  datatype Filter = Filter(
    text: Option<string>,
    minPrice: Option<real>,
    maxPrice: Option<real>,
    status: Option<Status>,
    created: DateRange,
    published: DateRange,
    updated: DateRange)

  datatype Direction = Asc | Desc

  datatype Sort = Sort(
    createdAt: Option<Direction>,
    publishedAt: Option<Direction>,
    minPrice: Option<Direction>,
    maxPrice: Option<Direction>)

  datatype Query = Query(page: nat, limit: nat, sort: Option<Sort>, filter: Option<Filter>)

  const DefaultPage: nat := 1
  const DefaultLimit: nat := 10

  const PriceOrderMessage: string := "O preço minimo não pode ser maior que o preço maximo"
  const CreatedOrderMessage: string := "createdAtStart deve ser anterior a createdAtEnd"
  const PublishedOrderMessage: string := "publishedAtStart deve ser anterior a publishedAtEnd"
  const UpdatedOrderMessage: string := "updatedAtStart deve ser anterior a updatedAtEnd"

  /** `schema.optional()`: a missing value is accepted as absent, anything else
      goes to `schema`. */
  function Optional<T>(v: Option<Json>, path: Path, parse: (Option<Json>, Path) -> Parsed<T>): (r: Parsed<Option<T>>)
    ensures v.None? ==> r == Valid(None)
    ensures v.Some? ==> (r.Valid? <==> parse(v, path).Valid?)
    ensures v.Some? && r.Valid? ==> r.value == Some(parse(v, path).value)
    ensures v.Some? && r.Invalid? ==> r.issues == parse(v, path).issues
  {
    if v.None? then Valid(None)
    else
      var p := parse(v, path);
      if p.Valid? then Valid(Some(p.value)) else Invalid(p.issues)
  }

  /** `z.nativeEnum(ProductStatus)`. */
  function ParseStatus(v: Option<Json>, path: Path): (r: Parsed<Status>)
    ensures r.Valid? <==> v.Some? && v.value.JStr? && v.value.s in StatusNames
    ensures r.Valid? ==> StatusName(r.value) == v.value.s
  {
    var e := Enum(v, path, StatusNames);
    if e.Valid? then Valid(StatusOf(e.value).value) else Invalid(e.issues)
  }

  // ---------------------------------------------------------------------
  // Filter

  /** JavaScript truthiness of an optional number: absent and zero are falsy. */
  predicate Truthy(x: Option<real>) {
    x.Some? && x.value != 0.0
  }

  /** A date range whose ends are both given must not run backwards. */
  predicate Ordered(d: DateRange) {
    d.start.Some? && d.end.Some? ==> d.start.value <= d.end.value
  }

  /** What the four rules of the filter demand, read as one condition: when
      both price bounds are non-zero the lower is at most the upper, and each
      date range with both ends runs forwards. A zero bound switches the price
      rule off. */
  predicate Consistent(f: Filter) {
    && (Truthy(f.minPrice) && Truthy(f.maxPrice) ==> f.minPrice.value <= f.maxPrice.value)
    && Ordered(f.created)
    && Ordered(f.published)
    && Ordered(f.updated)
  }

  /** One rule: an issue at `path` with `message` when `holds` is false. */
  function Rule(holds: bool, path: Path, message: string): (r: seq<Issue>)
    ensures holds <==> r == []
  {
    if holds then [] else [Issue(path, Custom(message))]
  }

  /** `start.isBefore(end) || start.isSame(end)`, checked only when both
      dates are given (a date object is always truthy). */
  function DateRule(d: DateRange, path: Path, message: string): (r: seq<Issue>)
    ensures r == [] <==> Ordered(d)
    ensures r != [] ==> r == [Issue(path, Custom(message))]
  {
    if d.start.Some? && d.end.Some? then
      Rule(d.start.value < d.end.value || d.start.value == d.end.value, path, message)
    else []
  }

  /** The issues of the four `refine` calls. Each is non-fatal, so all four run
      and their issues are listed in declaration order. */
  function RefinementIssues(f: Filter, path: Path): (r: seq<Issue>)
    ensures r == [] <==> Consistent(f)
    ensures |r| <= 4
  {
    var price :=
      if Truthy(f.minPrice) && Truthy(f.maxPrice) then
        Rule(f.minPrice.value <= f.maxPrice.value, path + [Key("minPrice")], PriceOrderMessage)
      else [];
    price
      + DateRule(f.created, path + [Key("createdAtStart")], CreatedOrderMessage)
      + DateRule(f.published, path + [Key("publishedAtStart")], PublishedOrderMessage)
      + DateRule(f.updated, path + [Key("updatedAtStart")], UpdatedOrderMessage)
  }

  /** The rules raise no issue exactly when the filter is consistent. */
  lemma RefinementIssuesIffInconsistent(f: Filter, path: Path)
    ensures RefinementIssues(f, path) == [] <==> Consistent(f)
  {
  }

  /** The issue of the price rule, reported on `minPrice`. */
  function PriceIssue(path: Path): Issue {
    Issue(path + [Key("minPrice")], Custom(PriceOrderMessage))
  }

  /** The issue of a date rule, reported on the start field of its range. */
  function CreatedIssue(path: Path): Issue {
    Issue(path + [Key("createdAtStart")], Custom(CreatedOrderMessage))
  }

  function PublishedIssue(path: Path): Issue {
    Issue(path + [Key("publishedAtStart")], Custom(PublishedOrderMessage))
  }

  function UpdatedIssue(path: Path): Issue {
    Issue(path + [Key("updatedAtStart")], Custom(UpdatedOrderMessage))
  }

  /** Each rule reports its own issue, on its own field with its own message,
      exactly when its condition fails, and no other issue is raised. */
  lemma RefinementIssuesAreCustom(f: Filter, path: Path)
    ensures forall x :: x in RefinementIssues(f, path) ==> x.code.Custom? && |x.path| == |path| + 1 && x.path[..|path|] == path
    ensures forall x :: x in RefinementIssues(f, path) ==>
      x in [PriceIssue(path), CreatedIssue(path), PublishedIssue(path), UpdatedIssue(path)]
    ensures PriceIssue(path) in RefinementIssues(f, path) <==>
      Truthy(f.minPrice) && Truthy(f.maxPrice) && f.minPrice.value > f.maxPrice.value
    ensures CreatedIssue(path) in RefinementIssues(f, path) <==> !Ordered(f.created)
    ensures PublishedIssue(path) in RefinementIssues(f, path) <==> !Ordered(f.published)
    ensures UpdatedIssue(path) in RefinementIssues(f, path) <==> !Ordered(f.updated)
  {
    var n := |path|;
    assert PriceIssue(path).path[n] == Key("minPrice");
    assert CreatedIssue(path).path[n] == Key("createdAtStart");
    assert PublishedIssue(path).path[n] == Key("publishedAtStart");
    assert UpdatedIssue(path).path[n] == Key("updatedAtStart");
  }


  /** The fields of `ProductFilterSchema`, before its rules. */
  function FilterFields(v: Option<Json>, path: Path, co: Coercions): (r: Parsed<Filter>)
    ensures r.Valid? ==> v.Some? && v.value.JObj?
  {
    if !(v.Some? && v.value.JObj?) then Invalid(ObjectIssues(v, path))
    else
      var o := v.value;
      var text := Optional(Member(o, "text"), At(path, "text"), String);
      var minPrice := Optional(Member(o, "minPrice"), At(path, "minPrice"), (x, p) => CoercedNumber(x, p, co));
      var maxPrice := Optional(Member(o, "maxPrice"), At(path, "maxPrice"), (x, p) => CoercedNumber(x, p, co));
      var status := Optional(Member(o, "status"), At(path, "status"), ParseStatus);
      var createdStart := Optional(Member(o, "createdAtStart"), At(path, "createdAtStart"), (x, p) => CoercedDate(x, p, co));
      var createdEnd := Optional(Member(o, "createdAtEnd"), At(path, "createdAtEnd"), (x, p) => CoercedDate(x, p, co));
      var publishedStart := Optional(Member(o, "publishedAtStart"), At(path, "publishedAtStart"), (x, p) => CoercedDate(x, p, co));
      var publishedEnd := Optional(Member(o, "publishedAtEnd"), At(path, "publishedAtEnd"), (x, p) => CoercedDate(x, p, co));
      var updatedStart := Optional(Member(o, "updatedAtStart"), At(path, "updatedAtStart"), (x, p) => CoercedDate(x, p, co));
      var updatedEnd := Optional(Member(o, "updatedAtEnd"), At(path, "updatedAtEnd"), (x, p) => CoercedDate(x, p, co));
      if && text.Valid? && minPrice.Valid? && maxPrice.Valid? && status.Valid?
         && createdStart.Valid? && createdEnd.Valid? && publishedStart.Valid? && publishedEnd.Valid?
         && updatedStart.Valid? && updatedEnd.Valid?
      then
        Valid(Filter(text.value, minPrice.value, maxPrice.value, status.value,
          DateRange(createdStart.value, createdEnd.value),
          DateRange(publishedStart.value, publishedEnd.value),
          DateRange(updatedStart.value, updatedEnd.value)))
      else
        Invalid(text.Issues() + minPrice.Issues() + maxPrice.Issues() + status.Issues()
          + createdStart.Issues() + createdEnd.Issues() + publishedStart.Issues() + publishedEnd.Issues()
          + updatedStart.Issues() + updatedEnd.Issues())
  }

  /** `ProductFilterSchema`: the fields first; the rules run only on a filter
      whose every field parsed, since a bad field aborts the object. */
  function ParseFilter(v: Option<Json>, path: Path, co: Coercions): (r: Parsed<Filter>)
    ensures r.Valid? <==> FilterFields(v, path, co).Valid? && Consistent(FilterFields(v, path, co).value)
    ensures r.Valid? ==> r.value == FilterFields(v, path, co).value && Consistent(r.value)
    ensures FilterFields(v, path, co).Invalid? ==> r.issues == FilterFields(v, path, co).issues
    ensures FilterFields(v, path, co).Valid? && r.Invalid? ==> forall x :: x in r.issues ==> x.code.Custom?
  {
    var fields := FilterFields(v, path, co);
    if fields.Invalid? then fields
    else
      RefinementIssuesIffInconsistent(fields.value, path);
      RefinementIssuesAreCustom(fields.value, path);
      var issues := RefinementIssues(fields.value, path);
      if issues == [] then fields else Invalid(issues)
  }

  /** A lower price bound above a non-zero upper bound is refused with the one
      issue on `minPrice`, carrying the Portuguese message. */
  lemma PriceBoundsCrossed(f: Filter, path: Path)
    requires Truthy(f.minPrice) && Truthy(f.maxPrice) && f.minPrice.value > f.maxPrice.value
    requires Ordered(f.created) && Ordered(f.published) && Ordered(f.updated)
    ensures RefinementIssues(f, path) == [PriceIssue(path)]
  {
  }

  /** A creation range that runs backwards, the other rules satisfied: the one
      issue on `createdAtStart`. */
  lemma CreatedBoundsCrossed(f: Filter, path: Path)
    requires f.created.start.Some? && f.created.end.Some? && f.created.start.value > f.created.end.value
    requires Consistent(f.(created := DateRange(None, None)))
    ensures RefinementIssues(f, path) == [CreatedIssue(path)]
  {
  }

  /** A publication range that runs backwards, the other rules satisfied: the
      one issue on `publishedAtStart`. */
  lemma PublishedBoundsCrossed(f: Filter, path: Path)
    requires f.published.start.Some? && f.published.end.Some? && f.published.start.value > f.published.end.value
    requires Consistent(f.(published := DateRange(None, None)))
    ensures RefinementIssues(f, path) == [PublishedIssue(path)]
  {
  }

  /** An update range that runs backwards, the other rules satisfied: the one
      issue on `updatedAtStart`. */
  lemma UpdatedBoundsCrossed(f: Filter, path: Path)
    requires f.updated.start.Some? && f.updated.end.Some? && f.updated.start.value > f.updated.end.value
    requires Consistent(f.(updated := DateRange(None, None)))
    ensures RefinementIssues(f, path) == [UpdatedIssue(path)]
  {
  }

  /** Every rule broken at once: the four issues in declaration order. */
  lemma AllRulesBroken(f: Filter, path: Path)
    requires Truthy(f.minPrice) && Truthy(f.maxPrice) && f.minPrice.value > f.maxPrice.value
    requires !Ordered(f.created) && !Ordered(f.published) && !Ordered(f.updated)
    ensures RefinementIssues(f, path) == [PriceIssue(path), CreatedIssue(path), PublishedIssue(path), UpdatedIssue(path)]
  {
  }

  /** A zero bound is falsy, so the price rule does not apply: a lower bound of
      zero with a negative upper bound passes. */
  lemma ZeroPriceBoundSkipsRule(f: Filter)
    requires f.minPrice == Some(0.0) && f.maxPrice.Some? && f.maxPrice.value < 0.0
    ensures Truthy(f.maxPrice) && f.minPrice.value > f.maxPrice.value
    ensures Consistent(f) <==> Ordered(f.created) && Ordered(f.published) && Ordered(f.updated)
  {
  }

  /** A date range whose two ends are the same instant is accepted. */
  lemma SameInstantAccepted(d: DateRange)
    requires d.start.Some? && d.start == d.end
    ensures Ordered(d)
    ensures forall path, message :: DateRule(d, path, message) == []
  {
  }

  // ---------------------------------------------------------------------
  // Sort

  /** `z.enum(['asc', 'desc'])`. */
  function ParseDirection(v: Option<Json>, path: Path): (r: Parsed<Direction>)
    ensures r.Valid? <==> v.Some? && v.value.JStr? && v.value.s in ["asc", "desc"]
    ensures r.Valid? ==> (r.value == Asc <==> v.value.s == "asc")
  {
    var e := Enum(v, path, ["asc", "desc"]);
    if e.Valid? then Valid(if e.value == "asc" then Asc else Desc) else Invalid(e.issues)
  }

  /** How a direction is spelled in the query. */
  function DirectionName(d: Direction): string {
    match d
    case Asc => "asc"
    case Desc => "desc"
  }

  /** A parsed direction agrees with the raw field: absent exactly when the
      field is, and otherwise spelled by the field's string. */
  predicate Kept(d: Option<Direction>, raw: Option<Json>) {
    && (d.None? <==> raw.None?)
    && (d.Some? ==> raw.value == JStr(DirectionName(d.value)))
  }

  /** `ProductSortSchema`: four optional directions; other keys are dropped. */
  function ParseSort(v: Option<Json>, path: Path): (r: Parsed<Sort>)
    ensures r.Valid? ==> v.Some? && v.value.JObj?
    ensures v.Some? && v.value.JObj? ==>
      (r.Valid? <==> forall k :: k in SortKeys && k in v.value.fields ==>
        v.value.fields[k].JStr? && v.value.fields[k].s in ["asc", "desc"])
    ensures r.Valid? ==>
      && Kept(r.value.createdAt, Member(v.value, "createdAt"))
      && Kept(r.value.publishedAt, Member(v.value, "publishedAt"))
      && Kept(r.value.minPrice, Member(v.value, "minPrice"))
      && Kept(r.value.maxPrice, Member(v.value, "maxPrice"))
    ensures v.Some? && v.value.JObj? && (forall k :: k in v.value.fields ==> k !in SortKeys) ==> r == Valid(Sort(None, None, None, None))
  {
    if !(v.Some? && v.value.JObj?) then Invalid(ObjectIssues(v, path))
    else
      var o := v.value;
      var createdAt := Optional(Member(o, "createdAt"), At(path, "createdAt"), ParseDirection);
      var publishedAt := Optional(Member(o, "publishedAt"), At(path, "publishedAt"), ParseDirection);
      var minPrice := Optional(Member(o, "minPrice"), At(path, "minPrice"), ParseDirection);
      var maxPrice := Optional(Member(o, "maxPrice"), At(path, "maxPrice"), ParseDirection);
      if createdAt.Valid? && publishedAt.Valid? && minPrice.Valid? && maxPrice.Valid? then
        Valid(Sort(createdAt.value, publishedAt.value, minPrice.value, maxPrice.value))
      else
        Invalid(createdAt.Issues() + publishedAt.Issues() + minPrice.Issues() + maxPrice.Issues())
  }

  const SortKeys: seq<string> := ["createdAt", "publishedAt", "minPrice", "maxPrice"]

  /** A direction other than `asc` or `desc` is refused with an enum issue on
      its own key. */
  lemma UnknownDirectionRefused(path: Path)
    ensures ParseSort(Some(JObj(map["createdAt" := JStr("ascending")])), path)
      == Invalid([Issue(path + [Key("createdAt")], InvalidEnum(["asc", "desc"], "ascending"))])
  {
    var o := JObj(map["createdAt" := JStr("ascending")]);
    assert Member(o, "publishedAt").None? && Member(o, "minPrice").None? && Member(o, "maxPrice").None?;
    assert "ascending" !in ["asc", "desc"];
  }

  // ---------------------------------------------------------------------
  // Page and page size

  /** `z.coerce.number().int().positive().default(d)`: a missing value becomes
      `d`; otherwise the value is coerced, and a NaN stops there while the
      integer and positivity checks both report. */
  function ParsePositiveInt(v: Option<Json>, path: Path, default: nat, co: Coercions): (r: Parsed<nat>)
    ensures v.None? ==> r == Valid(default)
    ensures v.Some? ==> (r.Valid? <==> co.number(v.value).Some? && co.number(v.value).value.Floor as real == co.number(v.value).value && co.number(v.value).value > 0.0)
    ensures v.Some? && r.Valid? ==> r.value as real == co.number(v.value).value && r.value > 0
    ensures v.Some? && co.number(v.value).None? ==> r == Invalid([Issue(path, InvalidType("number", "nan"))])
  {
    if v.None? then Valid(default)
    else
      var n := CoercedNumber(v, path, co);
      if n.Invalid? then Invalid(n.issues)
      else
        var x := n.value;
        var issues := (if x.Floor as real == x then [] else [Issue(path, NotInteger)])
          + (if x > 0.0 then [] else [Issue(path, NotPositive)]);
        if issues == [] then Valid(x.Floor as nat) else Invalid(issues)
  }

  /** A negative fraction breaks both numeric rules, and both are reported. */
  lemma NegativeFractionBreaksBoth(v: Json, path: Path, co: Coercions)
    requires co.number(v) == Some(-1.5)
    ensures ParsePositiveInt(Some(v), path, DefaultPage, co) == Invalid([Issue(path, NotInteger), Issue(path, NotPositive)])
  {
    assert (-1.5).Floor == -2;
  }

  /** `ProductQuerySchema`: the page defaults to 1 and the size to 10; `sort`
      and `filter` are optional; every other key is dropped. */
  function ParseQuery(v: Option<Json>, co: Coercions): (r: Parsed<Query>)
    ensures r.Valid? ==> v.Some? && v.value.JObj?
    ensures r.Valid? ==> r.value.page > 0 && r.value.limit > 0
    ensures r.Valid? && Member(v.value, "page").None? ==> r.value.page == DefaultPage
    ensures r.Valid? && Member(v.value, "limit").None? ==> r.value.limit == DefaultLimit
    ensures r.Valid? && r.value.filter.Some? ==> Consistent(r.value.filter.value)
    ensures r.Valid? <==>
      && v.Some? && v.value.JObj?
      && ParsePositiveInt(Member(v.value, "page"), [Key("page")], DefaultPage, co).Valid?
      && ParsePositiveInt(Member(v.value, "limit"), [Key("limit")], DefaultLimit, co).Valid?
      && Optional(Member(v.value, "sort"), [Key("sort")], ParseSort).Valid?
      && Optional(Member(v.value, "filter"), [Key("filter")], (x, p) => ParseFilter(x, p, co)).Valid?
    ensures r.Valid? ==>
      && r.value.page == ParsePositiveInt(Member(v.value, "page"), [Key("page")], DefaultPage, co).value
      && r.value.limit == ParsePositiveInt(Member(v.value, "limit"), [Key("limit")], DefaultLimit, co).value
      && r.value.sort == Optional(Member(v.value, "sort"), [Key("sort")], ParseSort).value
      && r.value.filter == Optional(Member(v.value, "filter"), [Key("filter")], (x, p) => ParseFilter(x, p, co)).value
  {
    if !(v.Some? && v.value.JObj?) then Invalid(ObjectIssues(v, []))
    else
      var o := v.value;
      var page := ParsePositiveInt(Member(o, "page"), [Key("page")], DefaultPage, co);
      var limit := ParsePositiveInt(Member(o, "limit"), [Key("limit")], DefaultLimit, co);
      var sort := Optional(Member(o, "sort"), [Key("sort")], ParseSort);
      var filter := Optional(Member(o, "filter"), [Key("filter")], (x, p) => ParseFilter(x, p, co));
      if page.Valid? && limit.Valid? && sort.Valid? && filter.Valid? then
        Valid(Query(page.value, limit.value, sort.value, filter.value))
      else
        Invalid(page.Issues() + limit.Issues() + sort.Issues() + filter.Issues())
  }
}
