/** The product card: the image carousel, the tag strip, the price line and
    the link to the product page.

    Currency formatting (`Intl.NumberFormat`) is a parameter; dates and the
    auto-scroll of the tag strip are not modelled. */
module ProductDetail {
  import opened Wrappers
  import opened Text
  import opened ProductModel
  import opened ProductSchema
  import opened ApiUtils

  // ---------------------------------------------------------------------
  // Carousel

  /** The index of the image shown. It starts at 0; None stands for NaN, what
      the arithmetic gives once `images.length` is 0, and it stays NaN. */
  type Index = Option<nat>

  /** `nextImage()`: `(i + 1) % images.length`. */
  function Next(index: Index, n: nat): (r: Index)
    ensures n > 0 && index.Some? ==> r.Some? && r.value < n
    ensures n == 0 || index.None? ==> r.None?
  {
    match index
    case None => None
    case Some(i) => if n == 0 then None else Some((i + 1) % n)
  }

  /** `prevImage()`: `(i - 1 + images.length) % images.length`. The dividend
      is never negative, so JavaScript's `%` agrees with the Euclidean one. */
  function Prev(index: Index, n: nat): (r: Index)
    ensures n > 0 && index.Some? ==> r.Some? && r.value < n
    ensures n == 0 || index.None? ==> r.None?
  {
    match index
    case None => None
    case Some(i) => if n == 0 then None else Some((i - 1 + n) % n)
  }

  /** Going back undoes going forward, and forward undoes back, for every
      index the carousel can show. */
  lemma PrevUndoesNext(i: nat, n: nat)
    requires i < n
    ensures Prev(Next(Some(i), n), n) == Some(i)
    ensures Next(Prev(Some(i), n), n) == Some(i)
  {
    ModStep(i, n);
    ModBack(i, n);
    if i + 1 < n {
      ModBack(i + 1, n);
    } else {
      ModBack(0, n);
    }
    if i > 0 {
      ModStep(i - 1, n);
    } else {
      ModStep(n - 1, n);
    }
  }

  /** One step forward on a circle of `n` positions. */
  lemma ModStep(i: nat, n: nat)
    requires i < n
    ensures (i + 1) % n == if i + 1 < n then i + 1 else 0
  {
    if i + 1 < n {
      ModOfSmall(i + 1, n);
    } else {
      assert i + 1 == 1 * n + 0;
      ModOfMultiple(1, n);
    }
  }

  /** One step back on a circle of `n` positions. */
  lemma ModBack(i: nat, n: nat)
    requires i < n
    ensures (i - 1 + n) % n == if i > 0 then i - 1 else n - 1
  {
    if i > 0 {
      ModOfMultipleAndRest(1, i - 1, n);
    } else {
      ModOfSmall(n - 1, n);
    }
  }

  lemma ModOfSmall(a: nat, n: nat)
    requires a < n
    ensures a % n == a
  {
  }

  lemma ModOfMultiple(q: nat, n: nat)
    requires n > 0
    ensures (q * n) % n == 0
  {
    ModOfMultipleAndRest(q, 0, n);
  }

  /** `(q * n + r) mod n == r` for `r < n`: the Euclidean remainder is unique. */
  lemma ModOfMultipleAndRest(q: nat, r: nat, n: nat)
    requires r < n
    ensures (q * n + r) % n == r
  {
    var a := q * n + r;
    var q2 := a / n;
    var r2 := a % n;
    assert a == q2 * n + r2;
    assert (q2 - q) * n == r - r2;
    MulAwayFromZero(q2 - q, n);
  }

  /** A non-zero multiple of `n` is at least `n` away from 0. */
  lemma MulAwayFromZero(d: int, n: nat)
    requires n > 0
    ensures d >= 1 ==> d * n >= n
    ensures d <= -1 ==> d * n + n <= 0
  {
  }

  /** `k` swipes forward. */
  function Forward(index: Index, n: nat, k: nat): Index {
    if k == 0 then index else Next(Forward(index, n, k - 1), n)
  }

  /** `k` swipes forward from `i` show image `(i + k) mod n`. */
  lemma {:induction false} ForwardIsModular(i: nat, n: nat, k: nat)
    requires i < n
    ensures Forward(Some(i), n, k) == Some((i + k) % n)
  {
    if k > 0 {
      ForwardIsModular(i, n, k - 1);
      ModSucc(i + k - 1, n);
    }
  }

  /** Stepping from a remainder is stepping from the number it came from. */
  lemma ModSucc(a: nat, n: nat)
    requires n > 0
    ensures (a % n + 1) % n == (a + 1) % n
  {
    var q := a / n;
    var r := a % n;
    assert a == q * n + r;
    ModStep(r, n);
    if r + 1 < n {
      ModOfMultipleAndRest(q, r + 1, n);
    } else {
      assert a + 1 == (q + 1) * n + 0;
      ModOfMultipleAndRest(q + 1, 0, n);
    }
  }

  /** As many swipes forward as there are images bring the first one back. */
  lemma FullCycle(i: nat, n: nat)
    requires i < n
    ensures Forward(Some(i), n, n) == Some(i)
  {
    ForwardIsModular(i, n, n);
    ModOfMultipleAndRest(1, i, n);
  }

  /** A product without images breaks the carousel for good. */
  lemma NoImagesGivesNaN(index: Index, k: nat)
    requires k > 0
    ensures Forward(index, 0, k).None?
  {
  }

  // ---------------------------------------------------------------------
  // Tags

  const TagSeparator: string := ", "

  function NonEmpty(pieces: seq<string>): (r: seq<string>)
    ensures forall k :: 0 <= k < |r| ==> r[k] != "" && r[k] in pieces
    ensures forall k :: 0 <= k < |pieces| && pieces[k] != "" ==> pieces[k] in r
    ensures (forall k :: 0 <= k < |pieces| ==> pieces[k] != "") ==> r == pieces
  {
    if |pieces| == 0 then []
    else (if pieces[0] != "" then [pieces[0]] else []) + NonEmpty(pieces[1..])
  }

  /** `tags.split(', ').filter(val => val.length > 0)`. */
  function TagList(tags: string): (r: seq<string>)
    ensures forall k :: 0 <= k < |r| ==> r[k] != "" && !Contains(r[k], TagSeparator)
  {
    SplitPiecesAvoidSeparator(tags, TagSeparator);
    NonEmpty(Split(tags, TagSeparator))
  }

  /** Each tag is a non-empty stretch of the string without `", "`; an empty
      tag string gives no tags; and when no piece is empty the tags joined
      with `", "` give the string back. */
  lemma TagListMeaning(tags: string)
    ensures forall k :: 0 <= k < |TagList(tags)| ==> TagList(tags)[k] != "" && !Contains(TagList(tags)[k], TagSeparator)
    ensures TagList("") == []
    ensures (forall k :: 0 <= k < |Split(tags, TagSeparator)| ==> Split(tags, TagSeparator)[k] != "") ==>
      Join(TagList(tags), TagSeparator) == tags
  {
    SplitPiecesAvoidSeparator(tags, TagSeparator);
    JoinSplit(tags, TagSeparator);
    assert Split("", TagSeparator) == [""];
  }

  /** The strip shows the tag list twice over, so that it can scroll without a
      gap: position `k` shows tag `k mod |tags|`. */
  function TagStrip(tags: seq<string>): (r: seq<string>)
    ensures |r| == 2 * |tags|
    ensures forall k :: 0 <= k < |r| ==> r[k] == tags[k % |tags|]
  {
    tags + tags
  }

  // ---------------------------------------------------------------------
  // Price and link

  /** `formatPrice(price_range)`: one amount when both bounds are equal, and
      `min - max` otherwise. */
  function FormatPrice(min: real, max: real, format: real -> string): (r: string)
    ensures min == max ==> r == format(min)
    ensures min != max ==> |r| == |format(min)| + 3 + |format(max)|
    ensures min != max ==> StartsWith(r, format(min)) && EndsWith(r, format(max))
    ensures min != max ==> r[|format(min)|..|format(min)| + 3] == " - "
  {
    if min == max then format(min)
    else
      var r := format(min) + " - " + format(max);
      assert r[..|format(min)|] == format(min);
      assert r[|r| - |format(max)|..] == format(max);
      r
  }

  /** A product whose variants all cost the same shows a single amount: the
      price range the backend stores has equal bounds. */
  lemma OnePriceOneAmount(variants: seq<Variant>, p: real, format: real -> string)
    requires |variants| > 0
    requires forall i :: 0 <= i < |variants| ==> ParseFloat(variants[i].price) == Fin(p)
    ensures var range := CalculatePriceRange(variants);
      range == PriceRange(Fin(p), Fin(p)) && FormatPrice(range.min.r, range.max.r, format) == format(p)
  {
    var ps := Prices(variants);
    assert AllFinite(ps);
    assert forall x :: x in ps ==> x == Fin(p);
  }

  /** The "see details" link: `url.replace('.json', '')`, the first `.json`
      removed. */
  function DetailsLink(url: string): string {
    ReplaceFirst(url, ".json", "")
  }

  /** For the endpoint the sync stored, the link is the product page again:
      the `.json` the sync appended is the one removed, when the page URL does
      not itself contain `.json`. */
  lemma LinkUndoesNormalise(page: string)
    requires !Contains(page, ".json") && !EndsWith(page, "/")
    ensures DetailsLink(Normalise(page)) == page
  {
    var s := Normalise(page);
    assert s == page + ".json";
    assert OccursAt(s, ".json", |page|);
    forall j | 0 <= j < |page| ensures !OccursAt(s, ".json", j) {
      if j + 5 <= |page| {
        assert page[j..j + 5] == s[j..j + 5];
        assert !OccursAt(page, ".json", j);
      } else if j + 5 <= |s| {
        assert s[j..j + 5][|page| - j] == '.';
        assert ".json"[|page| - j] != '.';
      }
    }
    assert IndexOf(s, ".json") == Some(|page|);
    assert s[..|page|] == page;
  }
}
