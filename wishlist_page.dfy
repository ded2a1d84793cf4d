/** The wishlist: three sample products, removal by id and an add-to-cart button per entry. */
module WishlistPage {
  import opened Catalog
  import opened Store
  import opened Seqs
  import ProductCard

  /** The sample wishlist: catalog entries 0, 3 and 5, in that order. */
  function InitialWishlist(): (w: seq<Product>)
    ensures |w| == 3
    ensures w[0] == MockProducts[0] && w[1] == MockProducts[3] && w[2] == MockProducts[5]
  {
    [MockProducts[0], MockProducts[3], MockProducts[5]]
  }

  lemma InitialWishlistIds()
    ensures InitialWishlist()[0].id == "1" && InitialWishlist()[1].id == "4" && InitialWishlist()[2].id == "6"
  {
  }

  /** `handleRemoveFromWishlist`: `wishlist.filter(item => item.id !== productId)`. */
  function RemoveFromWishlist(wishlist: seq<Product>, productId: string): (r: seq<Product>)
    ensures forall p :: p in r <==> p in wishlist && p.id != productId
  {
    Filter(wishlist, (p: Product) => p.id != productId)
  }

  /** Removal drops every entry with the id, keeps the rest in order, leaves a list without the
      id unchanged, and removing twice is removing once. */
  lemma RemoveSpec(wishlist: seq<Product>, productId: string)
    ensures SubsequenceOf(RemoveFromWishlist(wishlist, productId), wishlist)
    ensures (forall i :: 0 <= i < |wishlist| ==> wishlist[i].id != productId) ==>
      RemoveFromWishlist(wishlist, productId) == wishlist
    ensures RemoveFromWishlist(RemoveFromWishlist(wishlist, productId), productId)
      == RemoveFromWishlist(wishlist, productId)
  {
    var keep := (p: Product) => p.id != productId;
    FilterIsSubsequence(wishlist, keep);
    if forall i :: 0 <= i < |wishlist| ==> wishlist[i].id != productId {
      FilterAllKept(wishlist, keep);
    }
    var r := RemoveFromWishlist(wishlist, productId);
    FilterAllKept(r, keep);
  }

  /** `handleAddToCart`: the tile's quick-add call; the wishlist itself is left as it is. */
  function AddToCart(wishlist: seq<Product>, p: Product): (r: (seq<Product>, seq<Effect>))
    ensures r.0 == wishlist
    ensures r.1 == [AddItem(ProductCard.QuickAddPayload(p))]
    ensures r.1[0].item.quantity == 1 && r.1[0].item.variant.None?
  {
    (wishlist, ProductCard.HandleAddToCart(p))
  }

  datatype WishlistView =
    | EmptyWishlist(count: nat)
    | WishlistGrid(count: nat, products: seq<Product>)

  function View(wishlist: seq<Product>): (v: WishlistView)
    ensures v.count == |wishlist|
    ensures v.EmptyWishlist? <==> |wishlist| == 0
    ensures v.WishlistGrid? ==> v.products == wishlist
  {
    if |wishlist| == 0 then EmptyWishlist(0) else WishlistGrid(|wishlist|, wishlist)
  }
}
