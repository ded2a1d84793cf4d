/** The product tile: its rating stars, its quick-add payload and its category label. The star
    rule is shared with the product detail page. */
module ProductCard {
  import opened Wrappers
  import opened Catalog
  import opened Store
  import opened Strings

  datatype Star = FullStar | HalfStar | EmptyStar

  function Repeat(s: Star, n: int): (r: seq<Star>)
    ensures |r| == if n > 0 then n else 0
    ensures forall i :: 0 <= i < |r| ==> r[i] == s
    decreases n
  {
    if n <= 0 then [] else Repeat(s, n - 1) + [s]
  }

  /** `rating % 1 !== 0`: the rating has a fractional part (for negative ratings too). */
  predicate HasHalfStar(rating: real) {
    rating != rating.Floor as real
  }

  /** The number of full stars drawn: `Math.floor(rating)`, and none when that is negative. */
  function FullCount(rating: real): nat {
    if rating.Floor > 0 then rating.Floor else 0
  }

  function HalfCount(rating: real): nat {
    if HasHalfStar(rating) then 1 else 0
  }

  /** `5 - stars.length`, and none when that is not positive. */
  function EmptyCount(rating: real): nat {
    var n := 5 - (FullCount(rating) + HalfCount(rating));
    if n > 0 then n else 0
  }

  /** The row of icons for a rating: full stars, at most one half star, then empty stars. */
  function StarRow(rating: real): seq<Star> {
    Repeat(FullStar, FullCount(rating)) + Repeat(HalfStar, HalfCount(rating))
      + Repeat(EmptyStar, EmptyCount(rating))
  }

  function CountOf(row: seq<Star>, s: Star): nat {
    multiset(row)[s]
  }

  /** `renderRatingStars`: push the full stars, then the half star, then empty stars up to five. */
  method RenderRatingStars(rating: real) returns (stars: seq<Star>)
    ensures stars == StarRow(rating)
  {
    stars := [];
    var fullStars := rating.Floor;
    var hasHalfStar := rating != fullStars as real;
    var i := 0;
    while i < fullStars
      invariant 0 <= i <= (if fullStars > 0 then fullStars else 0)
      invariant stars == Repeat(FullStar, i)
    {
      stars := stars + [FullStar];
      i := i + 1;
    }
    assert stars == Repeat(FullStar, FullCount(rating));
    if hasHalfStar {
      stars := stars + [HalfStar];
    }
    assert stars == Repeat(FullStar, FullCount(rating)) + Repeat(HalfStar, HalfCount(rating));
    var prefix := stars;
    var emptyStars := 5 - |stars|;
    i := 0;
    while i < emptyStars
      invariant 0 <= i <= (if emptyStars > 0 then emptyStars else 0)
      invariant stars == prefix + Repeat(EmptyStar, i)
    {
      stars := stars + [EmptyStar];
      i := i + 1;
    }
  }

  lemma RepeatCount(s: Star, t: Star, n: nat)
    ensures multiset(Repeat(s, n))[t] == if s == t then n else 0
  {
    if n > 0 {
      RepeatCount(s, t, n - 1);
    }
  }

  /** The row's make-up: `floor(rating)` full stars for a non-negative rating, one half star
      exactly when the rating is not a whole number, and the empty stars fill up to five. */
  lemma {:induction false} StarCounts(rating: real)
    ensures CountOf(StarRow(rating), FullStar) == FullCount(rating)
    ensures rating >= 0.0 ==> CountOf(StarRow(rating), FullStar) == rating.Floor
    ensures CountOf(StarRow(rating), HalfStar) == (if HasHalfStar(rating) then 1 else 0)
    ensures CountOf(StarRow(rating), EmptyStar) == EmptyCount(rating)
  {
    var f, h, e := Repeat(FullStar, FullCount(rating)), Repeat(HalfStar, HalfCount(rating)),
      Repeat(EmptyStar, EmptyCount(rating));
    assert multiset(StarRow(rating)) == multiset(f) + multiset(h) + multiset(e);
    RepeatCount(FullStar, FullStar, FullCount(rating));
    RepeatCount(HalfStar, FullStar, HalfCount(rating));
    RepeatCount(EmptyStar, FullStar, EmptyCount(rating));
    RepeatCount(FullStar, HalfStar, FullCount(rating));
    RepeatCount(HalfStar, HalfStar, HalfCount(rating));
    RepeatCount(EmptyStar, HalfStar, EmptyCount(rating));
    RepeatCount(FullStar, EmptyStar, FullCount(rating));
    RepeatCount(HalfStar, EmptyStar, HalfCount(rating));
    RepeatCount(EmptyStar, EmptyStar, EmptyCount(rating));
  }

  /** The row has exactly five icons precisely when the rating is at most 5; above 5 every star
      is full or half and there are more than five. */
  lemma FiveIconsIff(rating: real)
    ensures |StarRow(rating)| == 5 <==> rating <= 5.0
    ensures rating > 5.0 ==> |StarRow(rating)| > 5
  {
  }

  /** A whole-number rating in range shows that many full stars then empty ones, with no half. */
  lemma WholeRating(n: nat)
    requires n <= 5
    ensures StarRow(n as real) == Repeat(FullStar, n) + Repeat(EmptyStar, 5 - n)
  {
    assert (n as real).Floor == n;
  }

  /** The icons come in the order full, half, empty. */
  lemma StarOrder(rating: real, i: int, j: int)
    requires 0 <= i < j < |StarRow(rating)|
    ensures StarRow(rating)[i] == EmptyStar ==> StarRow(rating)[j] == EmptyStar
    ensures StarRow(rating)[j] == FullStar ==> StarRow(rating)[i] == FullStar
  {
  }

  /** The quick-add button's payload: one of the product, with no variant. */
  function QuickAddPayload(p: Product): (item: LineItem)
    ensures item.quantity == 1 && item.variant == None
    ensures item.id == p.id && item.name == p.name && item.price == p.price && item.image == p.image
  {
    LineItem(p.id, p.name, p.price, p.image, 1, None)
  }

  /** `handleAddToCart`: one `addItem` call. */
  function HandleAddToCart(p: Product): (effects: seq<Effect>)
    ensures effects == [AddItem(QuickAddPayload(p))]
  {
    [AddItem(QuickAddPayload(p))]
  }

  /** `product.category.replace('-', ' ')`: the first dash becomes a space. */
  function CategoryLabel(p: Product): string {
    ReplaceFirst(p.category, '-', ' ')
  }

  /** The label differs from the category only at its first dash: later dashes stay. */
  lemma CategoryLabelSpec(p: Product)
    ensures |CategoryLabel(p)| == |p.category|
    ensures '-' !in p.category ==> CategoryLabel(p) == p.category
    ensures '-' in p.category ==>
      var k := IndexOf(p.category, '-');
      CategoryLabel(p)[k] == ' ' && CategoryLabel(p)[..k] == p.category[..k]
        && CategoryLabel(p)[k + 1..] == p.category[k + 1..]
  {
  }

  /** A category with a second dash keeps that dash in its label. */
  lemma LabelKeepsLaterDashes()
    ensures ReplaceFirst("a-b-c", '-', ' ') == "a b-c"
  {
    assert IndexOf("a-b-c", '-') == 1;
  }
}
