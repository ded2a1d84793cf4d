/** The home page: the rotating hero banner and the featured best-sellers. */
module HomePage {
  import opened Catalog
  import opened Seqs

  const BannerCount := 3

  /** JavaScript's `%` for a positive divisor: the remainder takes the sign of the dividend.
      It agrees with the Euclidean remainder on a non-negative dividend, and negating the
      dividend negates the remainder. */
  function JsRem(a: int, n: int): (r: int)
    requires n > 0
    ensures a >= 0 ==> 0 <= r < n && r == a % n
    ensures a < 0 ==> -n < r <= 0 && r == -JsRem(-a, n)
    decreases if a < 0 then 1 else 0
  {
    if a >= 0 then a % n else -((-a) % n)
  }

  /** The quotient of division truncated toward zero, the partner of `JsRem`. */
  function TruncQuot(a: int, n: int): int
    requires n > 0
  {
    if a >= 0 then a / n else -((-a) / n)
  }

  /** `JsRem` is the remainder of truncating division: the dividend is the quotient times the
      divisor plus the remainder, and the remainder is smaller than the divisor and never has
      the opposite sign of the dividend. For a negative dividend this fixes the value. */
  lemma JsDivision(a: int, n: int)
    requires n > 0
    ensures a == n * TruncQuot(a, n) + JsRem(a, n)
    ensures -n < JsRem(a, n) < n
    ensures a >= 0 ==> JsRem(a, n) >= 0
    ensures a <= 0 ==> JsRem(a, n) <= 0
  {
    if a < 0 {
      var q, m := (-a) / n, (-a) % n;
      assert -a == n * q + m;
      assert n * TruncQuot(a, n) == -(n * q);
    }
  }

  /** For the banner count, the dividend and the remainder differ by a multiple of it, for
      dividends of either sign. */
  lemma JsRemDivides(a: int)
    ensures (a - JsRem(a, BannerCount)) % BannerCount == 0
    ensures -BannerCount < JsRem(a, BannerCount) < BannerCount
  {
  }

  /** One tick of the five-second interval: `(prev + 1) % 3`. */
  function NextBanner(prev: int): (r: int)
    ensures 0 <= prev < BannerCount ==> 0 <= r < BannerCount
    ensures 0 <= prev < BannerCount - 1 ==> r == prev + 1
    ensures prev == BannerCount - 1 ==> r == 0
  {
    JsRem(prev + 1, BannerCount)
  }

  /** The banner shown after `ticks` ticks from the first banner. */
  function BannerAfter(ticks: nat): int {
    if ticks == 0 then 0 else NextBanner(BannerAfter(ticks - 1))
  }

  /** The rotation cycles through the three banners in order. */
  lemma {:induction false} BannerAfterIsRemainder(ticks: nat)
    ensures BannerAfter(ticks) == ticks % BannerCount
  {
    if ticks > 0 {
      BannerAfterIsRemainder(ticks - 1);
    }
  }

  /** Three ticks bring every banner back. */
  lemma ThreeTicksReturn(prev: int)
    requires 0 <= prev < BannerCount
    ensures NextBanner(NextBanner(NextBanner(prev))) == prev
  {
  }

  /** A navigation dot's click shows its banner; the dots are numbered 0 to 2, so the index
      stays in range. */
  function SelectDot(index: nat): (r: int)
    requires index < BannerCount
    ensures r == index && 0 <= r < BannerCount
  {
    index
  }

  predicate IsBestSeller(p: Product) { p.isBestSeller }

  /** `mockProducts.filter(p => p.isBestSeller).slice(0, 4)`. */
  function Featured(catalog: seq<Product>): (r: seq<Product>)
    ensures |r| <= 4
    ensures forall i :: 0 <= i < |r| ==> r[i].isBestSeller
  {
    Take(Filter(catalog, IsBestSeller), 4)
  }

  /** The featured products are the first best-sellers in catalog order: at most four, taken
      in order, all of them when there are no more than four, and every best-seller with fewer
      than four best-sellers before it. */
  lemma FeaturedSpec(catalog: seq<Product>)
    ensures SubsequenceOf(Featured(catalog), catalog)
    ensures |Filter(catalog, IsBestSeller)| <= 4 ==>
      forall p :: p in catalog && p.isBestSeller ==> p in Featured(catalog)
    ensures |Filter(catalog, IsBestSeller)| >= 4 ==> |Featured(catalog)| == 4
    ensures forall j :: (0 <= j < |catalog| && catalog[j].isBestSeller && |Filter(catalog[..j], IsBestSeller)| < 4
      ==> catalog[j] in Featured(catalog))
  {
    var best := Filter(catalog, IsBestSeller);
    FilterIsSubsequence(catalog, IsBestSeller);
    SubsequencePrefix(best, catalog, 4);
    forall j | 0 <= j < |catalog| && catalog[j].isBestSeller && |Filter(catalog[..j], IsBestSeller)| < 4
      ensures catalog[j] in Featured(catalog)
    {
      FilterAt(catalog, IsBestSeller, j);
      var k := |Filter(catalog[..j], IsBestSeller)|;
      assert Featured(catalog)[k] == best[k];
    }
  }

  /** In a catalog without repeated entries the featured set is closed towards the front: a
      best-seller listed before a featured product is featured too. */
  lemma FeaturedArePrefix(catalog: seq<Product>)
    requires Distinct(catalog)
    ensures forall i, j :: (0 <= i < j < |catalog| && catalog[i].isBestSeller && catalog[j] in Featured(catalog)
      ==> catalog[i] in Featured(catalog))
  {
    var best := Filter(catalog, IsBestSeller);
    var f := Featured(catalog);
    FeaturedSpec(catalog);
    FilterDistinct(catalog, IsBestSeller);
    forall i, j | 0 <= i < j < |catalog| && catalog[i].isBestSeller && catalog[j] in f
      ensures catalog[i] in f
    {
      var k :| 0 <= k < |f| && f[k] == catalog[j];
      assert f[k] == best[k];
      FilterAt(catalog, IsBestSeller, j);
      var rj := |Filter(catalog[..j], IsBestSeller)|;
      assert best[rj] == catalog[j];
      assert k == rj;
      KeptBeforeGrows(catalog, IsBestSeller, i, j);
    }
  }
}
