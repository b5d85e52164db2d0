/** The part of the zod validation library the schemas use: issues with field
    paths and default messages, and the primitive parsers the object schemas
    are built from. A parser never stops at the first bad field: every field is
    parsed and all issues are collected, in schema order. */
module Zod {
  import opened Wrappers
  import opened Text
  import opened Json

  datatype PathSegment = Key(name: string) | Index(i: nat)

  type Path = seq<PathSegment>

  datatype IssueCode =
    | InvalidType(expected: string, received: string)
    | InvalidDate
    | NotInteger
    | NotPositive
    | InvalidEnum(options: seq<string>, received: string)
    | Custom(message: string)

  datatype Issue = Issue(path: Path, code: IssueCode)

  /** Zod's message for a number that is not positive. */
  const NotPositiveMessage: string := "Number must be greater than 0"

  /** Zod's default English message for an issue. */
  function Message(code: IssueCode): string {
    match code
    case InvalidType(expected, received) =>
      if received == "undefined" then "Required"
      else "Expected " + expected + ", received " + received
    case InvalidDate => "Invalid date"
    case NotInteger => "Expected integer, received float"
    case NotPositive => NotPositiveMessage
    case InvalidEnum(options, received) =>
      "Invalid enum value. Expected " + Join(Quoted(options), " | ") + ", received '" + received + "'"
    case Custom(message) => message
  }

  function Quoted(options: seq<string>): (r: seq<string>)
    ensures |r| == |options|
    ensures forall i :: 0 <= i < |r| ==> r[i] == "'" + options[i] + "'"
  {
    if |options| == 0 then [] else ["'" + options[0] + "'"] + Quoted(options[1..])
  }

  function SegmentString(segment: PathSegment): string {
    match segment
    case Key(name) => name
    case Index(i) => NatToString(i)
  }

  function SegmentStrings(path: Path): (r: seq<string>)
    ensures |r| == |path|
    ensures forall i :: 0 <= i < |path| ==> r[i] == SegmentString(path[i])
  {
    if |path| == 0 then [] else [SegmentString(path[0])] + SegmentStrings(path[1..])
  }

  /** `path.join('.')`. */
  function PathString(path: Path): string {
    Join(SegmentStrings(path), ".")
  }

  /** The path of field `key` of the object at `path`. */
  function At(path: Path, key: string): Path {
    path + [Key(key)]
  }

  /** The outcome of a parse: the typed value, or the issues found. */
  datatype Parsed<+T> = Valid(value: T) | Invalid(issues: seq<Issue>) {
    function Issues(): seq<Issue> {
      if Valid? then [] else issues
    }
  }

  /** `z.coerce.date()` and `z.coerce.number()` pass the input through
      JavaScript's `new Date(x)` and `Number(x)`; how those conversions read a
      value is a parameter of the model. `None` stands for an invalid date and
      for NaN. */
  datatype Coercions = Coercions(date: Json -> Option<int>, number: Json -> Option<real>)

  /** `z.number()`. */
  function Number(v: Option<Json>, path: Path): (r: Parsed<real>)
    ensures r.Valid? <==> v.Some? && v.value.JNum?
    ensures r.Valid? ==> r.value == v.value.n
    ensures r.Invalid? ==> r.issues == [Issue(path, InvalidType("number", TypeName(v)))]
  {
    if v.Some? && v.value.JNum? then Valid(v.value.n)
    else Invalid([Issue(path, InvalidType("number", TypeName(v)))])
  }

  /** `z.string()`. */
  function String(v: Option<Json>, path: Path): (r: Parsed<string>)
    ensures r.Valid? <==> v.Some? && v.value.JStr?
    ensures r.Valid? ==> r.value == v.value.s
    ensures r.Invalid? ==> r.issues == [Issue(path, InvalidType("string", TypeName(v)))]
  {
    if v.Some? && v.value.JStr? then Valid(v.value.s)
    else Invalid([Issue(path, InvalidType("string", TypeName(v)))])
  }

  /** `z.boolean()`. */
  function Boolean(v: Option<Json>, path: Path): (r: Parsed<bool>)
    ensures r.Valid? <==> v.Some? && v.value.JBool?
    ensures r.Valid? ==> r.value == v.value.b
  {
    if v.Some? && v.value.JBool? then Valid(v.value.b)
    else Invalid([Issue(path, InvalidType("boolean", TypeName(v)))])
  }

  /** `z.number().nullable()`: null is accepted; a missing value is not. */
  function NullableNumber(v: Option<Json>, path: Path): (r: Parsed<Option<real>>)
    ensures r.Valid? <==> v.Some? && (v.value.JNull? || v.value.JNum?)
    ensures r.Valid? ==> r.value == if v.value.JNull? then None else Some(v.value.n)
  {
    if v == Some(JNull) then Valid(None)
    else
      var n := Number(v, path);
      if n.Valid? then Valid(Some(n.value)) else Invalid(n.issues)
  }

  /** `z.string().nullable()`: null is accepted; a missing value is not. */
  function NullableString(v: Option<Json>, path: Path): (r: Parsed<Option<string>>)
    ensures r.Valid? <==> v.Some? && (v.value.JNull? || v.value.JStr?)
    ensures r.Valid? ==> r.value == if v.value.JNull? then None else Some(v.value.s)
    ensures v.None? ==> r.Invalid? && r.issues == [Issue(path, InvalidType("string", "undefined"))]
  {
    if v == Some(JNull) then Valid(None)
    else
      var s := String(v, path);
      if s.Valid? then Valid(Some(s.value)) else Invalid(s.issues)
  }

  /** `z.coerce.date()`: `new Date(undefined)` is an invalid date, so a missing
      value fails with "Invalid date" rather than "Required". */
  function CoercedDate(v: Option<Json>, path: Path, co: Coercions): (r: Parsed<int>)
    ensures r.Valid? <==> v.Some? && co.date(v.value).Some?
    ensures r.Valid? ==> r.value == co.date(v.value).value
    ensures r.Invalid? ==> r.issues == [Issue(path, InvalidDate)]
  {
    if v.Some? && co.date(v.value).Some? then Valid(co.date(v.value).value)
    else Invalid([Issue(path, InvalidDate)])
  }

  /** `z.coerce.number()`: `Number(undefined)` is NaN, reported as a number
      expected and NaN received. */
  function CoercedNumber(v: Option<Json>, path: Path, co: Coercions): (r: Parsed<real>)
    ensures r.Valid? <==> v.Some? && co.number(v.value).Some?
    ensures r.Valid? ==> r.value == co.number(v.value).value
    ensures r.Invalid? ==> r.issues == [Issue(path, InvalidType("number", "nan"))]
  {
    if v.Some? && co.number(v.value).Some? then Valid(co.number(v.value).value)
    else Invalid([Issue(path, InvalidType("number", "nan"))])
  }

  /** `z.enum([...])` and `z.nativeEnum(...)` over string values. */
  function Enum(v: Option<Json>, path: Path, options: seq<string>): (r: Parsed<string>)
    ensures r.Valid? <==> v.Some? && v.value.JStr? && v.value.s in options
    ensures r.Valid? ==> r.value == v.value.s
  {
    if v.Some? && v.value.JStr? then
      if v.value.s in options then Valid(v.value.s)
      else Invalid([Issue(path, InvalidEnum(options, v.value.s))])
    else Invalid([Issue(path, InvalidType(Join(Quoted(options), " | "), TypeName(v)))])
  }

  /** The elements of a JSON array, each parsed with `element` under its index.
      The array is valid exactly when every element is, and then holds the
      elements' values in order. */
  function Items<T>(xs: seq<Json>, path: Path, offset: nat, element: (Option<Json>, Path) -> Parsed<T>): (r: Parsed<seq<T>>)
    ensures r.Valid? <==> forall i :: 0 <= i < |xs| ==> element(Some(xs[i]), path + [Index(offset + i)]).Valid?
    ensures r.Valid? ==> |r.value| == |xs|
    ensures r.Valid? ==> forall i :: 0 <= i < |xs| ==> r.value[i] == element(Some(xs[i]), path + [Index(offset + i)]).value
    decreases |xs|
  {
    if |xs| == 0 then Valid([])
    else
      var head := element(Some(xs[0]), path + [Index(offset)]);
      var tail := Items(xs[1..], path, offset + 1, element);
      if head.Valid? && tail.Valid? then Valid([head.value] + tail.value)
      else Invalid(head.Issues() + tail.Issues())
  }

  /** `z.array(element)`. */
  function Array<T>(v: Option<Json>, path: Path, element: (Option<Json>, Path) -> Parsed<T>): (r: Parsed<seq<T>>)
    ensures v.Some? && !v.value.JArr? ==> r.Invalid?
    ensures v.None? ==> r.Invalid?
    ensures r.Valid? ==> v.Some? && v.value.JArr? && |r.value| == |v.value.items|
  {
    if v.Some? && v.value.JArr? then Items(v.value.items, path, 0, element)
    else Invalid([Issue(path, InvalidType("array", TypeName(v)))])
  }

  /** The check `z.object(...)` makes before parsing fields. */
  function ObjectIssues(v: Option<Json>, path: Path): seq<Issue> {
    if v.Some? && v.value.JObj? then [] else [Issue(path, InvalidType("object", TypeName(v)))]
  }
}
